// What the escape analysis answers, by the places of a statement's syntax tree: a path from the
// root names a place, and every walk of the analysis is a statement about the places it sees.
module EscapeUses {
  import opened CfgTypes
  import opened Escape

  type Path = seq<nat>

  /** The parts of a node, in the order of its fields; what a function or class body holds is
      known by names only. */
  function Kids(e: Expr): seq<Expr> {
    match e
    case Ident(_) => []
    case Lit => []
    case Member(o, p, _) => [o, p]
    case OptMember(o, p, _) => [o, p]
    case CallExpr(_, callee, args) => [callee] + args
    case Assign(t, v) => [t, v]
    case ArrayLit(es) => es
    case ObjectLit(_, keys, values) => keys + values
    case FuncExpr(_, _, _) => []
    case ClassExpr(_, _, _, _) => []
    case Destructure(_, ds, source) => ds + [source]
    case OtherExpr(kids) => kids
  }

  /** A statement as such a tree: the walks treat it as any other node. */
  function Tree(s: Stmt): Expr
    decreases s, 0
  {
    match s
    case ExprStmt(e) => OtherExpr([e])
    case InitStmt(_, v) => OtherExpr([v])
    case DeclStmt(_) => Lit
    case FuncStmt(_, mentions, bases, patterns) => FuncExpr(mentions, bases, patterns)
    case Compound(_, es, ss) => OtherExpr(es + Trees(ss))
  }

  function Trees(ss: seq<Stmt>): (ts: seq<Expr>)
    ensures |ts| == |ss|
    decreases ss, 1
  {
    if ss == [] then [] else [Tree(ss[0])] + Trees(ss[1..])
  }

  /** The node at a place. */
  function Sub(e: Expr, p: Path): Option<Expr>
    decreases p
  {
    if p == [] then Some(e) else if p[0] < |Kids(e)| then Sub(Kids(e)[p[0]], p[1..]) else None
  }

  /** The node above a place. */
  function Above(e: Expr, p: Path): Option<Expr> {
    if p == [] then None else Sub(e, p[..|p| - 1])
  }

  predicate IsCall(n: Option<Expr>) {
    n.Some? && n.value.CallExpr? && !n.value.kind.JsxCall?
  }

  /** The place is a part, at any depth, of a call. */
  predicate WithinCall(e: Expr, p: Path) {
    exists j :: 0 <= j < |p| && IsCall(Sub(e, p[..j]))
  }

  /** The place is the first part of a member access. */
  predicate IsBase(e: Expr, p: Path) {
    var a := Above(e, p);
    a.Some? && a.value.Member? && p[|p| - 1] == 0
  }

  predicate IsTarget(e: Expr, p: Path) {
    var a := Above(e, p);
    a.Some? && a.value.Assign? && p[|p| - 1] == 0
  }

  predicate Mentions(n: Option<Expr>, name: Name) {
    n.Some? && ((n.value.FuncExpr? && name in n.value.mentions) || (n.value.ClassExpr? && name in n.value.mentions))
  }

  /** The refusal the place earns: a function or class that mentions name, or name itself other
      than as the base of a member access, by where it stands. */
  function Use(e: Expr, p: Path, name: Name, inCall: bool): Option<UseCode> {
    var n := Sub(e, p);
    if Mentions(n, name) then Some(EscapesClosure)
    else if n != Some(Ident(name)) || IsBase(e, p) then None
    else if IsTarget(e, p) then Some(Reassigned)
    else if inCall || WithinCall(e, p) then Some(EscapesCall)
    else Some(EscapesStore)
  }

  /** p comes before q in the walk. */
  predicate Before(p: Path, q: Path)
    decreases p
  {
    q != [] && (p == [] || p[0] < q[0] || (p[0] == q[0] && Before(p[1..], q[1..])))
  }

  ghost predicate NoUse(e: Expr, name: Name, inCall: bool) {
    forall p: Path :: Use(e, p, name, inCall).None?
  }

  ghost predicate FirstUse(e: Expr, name: Name, inCall: bool, p: Path, code: UseCode) {
    Use(e, p, name, inCall) == Some(code) && forall q: Path :: Before(q, p) ==> Use(e, q, name, inCall).None?
  }

  // --------------------------------------------------------------- one level of a place

  /** A place below the root is a place of a part, up to what the root itself decides. */
  lemma UseBelow(e: Expr, k: nat, p: Path, name: Name, inCall: bool)
    requires k < |Kids(e)|
    ensures var here := e.CallExpr? && !e.kind.JsxCall?; var kid := Kids(e)[k];
      Use(e, [k] + p, name, inCall) ==
        if p == [] && k == 0 && kid == Ident(name) && e.Member? then None
        else if p == [] && k == 0 && kid == Ident(name) && e.Assign? then Some(Reassigned)
        else Use(kid, p, name, inCall || here)
  {
    var kid, q := Kids(e)[k], [k] + p;
    assert q[1..] == p;
    assert Sub(e, q) == Sub(kid, p);
    if p == [] {
      assert q[..|q| - 1] == [];
      assert q[..0] == [];
    } else {
      assert q[..|q| - 1] == [k] + p[..|p| - 1];
      assert ([k] + p[..|p| - 1])[1..] == p[..|p| - 1];
      assert Above(e, q) == Above(kid, p);
    }
    WithinBelow(e, k, p);
  }

  lemma WithinBelow(e: Expr, k: nat, p: Path)
    requires k < |Kids(e)|
    ensures WithinCall(e, [k] + p) <==> IsCall(Some(e)) || WithinCall(Kids(e)[k], p)
  {
    var q := [k] + p;
    assert q[..0] == [];
    forall j | 0 <= j < |p| ensures Sub(e, q[..j + 1]) == Sub(Kids(e)[k], p[..j]) {
      assert q[..j + 1] == [k] + p[..j];
      assert q[..j + 1][1..] == p[..j];
    }
    if WithinCall(e, q) && !IsCall(Some(e)) {
      var j :| 0 <= j < |q| && IsCall(Sub(e, q[..j]));
      assert j > 0 && IsCall(Sub(Kids(e)[k], p[..j - 1]));
    }
    if IsCall(Some(e)) { assert IsCall(Sub(e, q[..0])); }
    if WithinCall(Kids(e)[k], p) {
      var j :| 0 <= j < |p| && IsCall(Sub(Kids(e)[k], p[..j]));
      assert IsCall(Sub(e, q[..j + 1]));
    }
  }

  // ------------------------------------------------------------------ the refusal walk

  /** The walk over some parts, in the context ctx: none is refused, or the first refusal is in
      part k. */
  ghost predicate FirstAmong(es: seq<Expr>, name: Name, inCall: bool, code: Option<UseCode>) {
    match code
    case None => forall k :: 0 <= k < |es| ==> NoUse(es[k], name, inCall)
    case Some(u) => exists k, p :: 0 <= k < |es| && FirstUse(es[k], name, inCall, p, u) && forall j :: 0 <= j < k ==> NoUse(es[j], name, inCall)
  }

  ghost predicate FirstIs(e: Expr, name: Name, inCall: bool, code: Option<UseCode>) {
    match code
    case None => NoUse(e, name, inCall)
    case Some(u) => exists p :: FirstUse(e, name, inCall, p, u)
  }

  /** From the parts to the node, where the node itself decides nothing. */
  lemma Lifted(e: Expr, name: Name, inCall: bool, code: Option<UseCode>)
    requires e != Ident(name) && !e.FuncExpr? && !e.ClassExpr?
    requires (e.Member? || e.Assign?) ==> Kids(e)[0] != Ident(name)
    requires FirstAmong(Kids(e), name, inCall || (e.CallExpr? && !e.kind.JsxCall?), code)
    ensures FirstIs(e, name, inCall, code)
  {
    var c := inCall || (e.CallExpr? && !e.kind.JsxCall?);
    assert Use(e, [], name, inCall).None?;
    match code
    case None =>
      forall p: Path ensures Use(e, p, name, inCall).None? {
        if p != [] && p[0] < |Kids(e)| { assert [p[0]] + p[1..] == p; UseBelow(e, p[0], p[1..], name, inCall); assert NoUse(Kids(e)[p[0]], name, c); }
      }
    case Some(u) =>
      var k: nat, p: Path :| k < |Kids(e)| && FirstUse(Kids(e)[k], name, c, p, u) && forall j :: 0 <= j < k ==> NoUse(Kids(e)[j], name, c);
      LiftAt(e, name, inCall, k, p, u);
  }

  lemma LiftAt(e: Expr, name: Name, inCall: bool, k: nat, p: Path, u: UseCode)
    requires e != Ident(name) && !e.FuncExpr? && !e.ClassExpr?
    requires k < |Kids(e)| && ((e.Member? || e.Assign?) ==> Kids(e)[0] != Ident(name))
    requires FirstUse(Kids(e)[k], name, inCall || (e.CallExpr? && !e.kind.JsxCall?), p, u)
    requires forall j :: 0 <= j < k ==> NoUse(Kids(e)[j], name, inCall || (e.CallExpr? && !e.kind.JsxCall?))
    ensures FirstUse(e, name, inCall, [k] + p, u)
  {
    UseBelow(e, k, p, name, inCall);
    forall q: Path | Before(q, [k] + p) ensures Use(e, q, name, inCall).None? {
      if q != [] && q[0] < |Kids(e)| {
        assert [q[0]] + q[1..] == q && ([k] + p)[1..] == p;
        UseBelow(e, q[0], q[1..], name, inCall);
        if q[0] < k { assert NoUse(Kids(e)[q[0]], name, inCall || (e.CallExpr? && !e.kind.JsxCall?)); }
      }
    }
  }

  /** One part after another. */
  lemma Then(a: seq<Expr>, b: seq<Expr>, name: Name, inCall: bool, x: Option<UseCode>, y: Option<UseCode>)
    requires FirstAmong(a, name, inCall, x) && FirstAmong(b, name, inCall, y)
    ensures FirstAmong(a + b, name, inCall, Or(x, y))
  {
    if x.Some? {
      var k, p :| 0 <= k < |a| && FirstUse(a[k], name, inCall, p, x.value) && forall j :: 0 <= j < k ==> NoUse(a[j], name, inCall);
      assert FirstUse((a + b)[k], name, inCall, p, x.value);
    } else if y.Some? {
      var k, p :| 0 <= k < |b| && FirstUse(b[k], name, inCall, p, y.value) && forall j :: 0 <= j < k ==> NoUse(b[j], name, inCall);
      assert FirstUse((a + b)[|a| + k], name, inCall, p, y.value);
    }
  }

  lemma Alone(e: Expr, name: Name, inCall: bool, x: Option<UseCode>)
    requires FirstIs(e, name, inCall, x)
    ensures FirstAmong([e], name, inCall, x)
  {
    if x.Some? {
      var p :| FirstUse(e, name, inCall, p, x.value);
      assert FirstUse([e][0], name, inCall, p, x.value);
    }
  }

  lemma Both(a: Expr, b: Expr, name: Name, inCall: bool, x: Option<UseCode>, y: Option<UseCode>)
    requires FirstIs(a, name, inCall, x) && FirstIs(b, name, inCall, y)
    ensures FirstAmong([a, b], name, inCall, Or(x, y))
  {
    Alone(a, name, inCall, x);
    Alone(b, name, inCall, y);
    Then([a], [b], name, inCall, x, y);
    assert [a] + [b] == [a, b];
  }

  /** Where the name is itself the base, or the target, of the node: a place in it. */
  lemma LedUse(e: Expr, q: Path, name: Name, inCall: bool)
    requires (e.Member? || e.Assign?) && Kids(e)[0] == Ident(name)
    ensures q == [] ==> Use(e, q, name, inCall).None?
    ensures q == [0] ==> Use(e, q, name, inCall) == if e.Member? then None else Some(Reassigned)
    ensures |q| > 1 && q[0] == 0 ==> Use(e, q, name, inCall).None?
    ensures |q| > 0 && q[0] > 1 ==> Use(e, q, name, inCall).None?
    ensures |q| > 0 && q[0] == 1 ==> Use(e, q, name, inCall) == Use(Kids(e)[1], q[1..], name, inCall)
  {
    if q != [] && q[0] < 2 {
      assert [q[0]] + q[1..] == q;
      UseBelow(e, q[0], q[1..], name, inCall);
      if q[0] == 0 && q[1..] != [] { assert Sub(Kids(e)[0], q[1..]).None?; }
    }
  }

  lemma LedByName(e: Expr, name: Name, inCall: bool, y: Option<UseCode>)
    requires (e.Member? || e.Assign?) && Kids(e)[0] == Ident(name) && FirstIs(Kids(e)[1], name, inCall, y)
    ensures FirstIs(e, name, inCall, if e.Assign? then Some(Reassigned) else y)
  {
    if e.Assign? {
      LedUse(e, [0], name, inCall);
      LedUse(e, [], name, inCall);
      forall q: Path | Before(q, [0]) ensures q == [] { assert q == [] || !Before(q[1..], []); }
      assert FirstUse(e, name, inCall, [0], Reassigned);
    } else if y.Some? {
      var p :| FirstUse(Kids(e)[1], name, inCall, p, y.value);
      LedFirst(e, name, inCall, p, y.value);
    } else {
      forall q: Path ensures Use(e, q, name, inCall).None? { LedUse(e, q, name, inCall); }
    }
  }

  lemma LedFirst(e: Expr, name: Name, inCall: bool, p: Path, u: UseCode)
    requires e.Member? && Kids(e)[0] == Ident(name) && FirstUse(Kids(e)[1], name, inCall, p, u)
    ensures FirstUse(e, name, inCall, [1] + p, u)
  {
    assert ([1] + p)[1..] == p;
    LedUse(e, [1] + p, name, inCall);
    forall q: Path | Before(q, [1] + p) ensures Use(e, q, name, inCall).None? {
      LedUse(e, q, name, inCall);
    }
  }

  /** The refusal is the one of the first place that earns one, and there is none exactly when
      no place does. */
  lemma {:induction false} HitIsFirstUse(e: Expr, name: Name, inCall: bool)
    ensures FirstIs(e, name, inCall, Hit(e, name, inCall))
    decreases e, 0
  {
    match e
    case Ident(x) => LeafUse(e, name, inCall);
    case Lit => LeafUse(e, name, inCall);
    case FuncExpr(_, _, _) => LeafUse(e, name, inCall);
    case ClassExpr(_, _, _, _) => LeafUse(e, name, inCall);
    case Member(o, p, _) =>
      HitIsFirstUse(o, name, inCall);
      HitIsFirstUse(p, name, inCall);
      if o == Ident(name) {
        LedByName(e, name, inCall, Hit(p, name, inCall));
      } else {
        Both(o, p, name, inCall, Hit(o, name, inCall), Hit(p, name, inCall));
        Lifted(e, name, inCall, Hit(e, name, inCall));
      }
    case OptMember(o, p, _) =>
      HitIsFirstUse(o, name, inCall);
      HitIsFirstUse(p, name, inCall);
      Both(o, p, name, inCall, Hit(o, name, inCall), Hit(p, name, inCall));
      Lifted(e, name, inCall, Hit(e, name, inCall));
    case Assign(t, v) =>
      HitIsFirstUse(t, name, inCall);
      HitIsFirstUse(v, name, inCall);
      if t == Ident(name) {
        LedByName(e, name, inCall, Hit(v, name, inCall));
      } else {
        Both(t, v, name, inCall, Hit(t, name, inCall), Hit(v, name, inCall));
        Lifted(e, name, inCall, Hit(e, name, inCall));
      }
    case CallExpr(kind, callee, args) =>
      var c := inCall || !kind.JsxCall?;
      HitIsFirstUse(callee, name, c);
      HitsAreFirstUses(args, name, c);
      Alone(callee, name, c, Hit(callee, name, c));
      Then([callee], args, name, c, Hit(callee, name, c), HitAny(args, name, c));
      Lifted(e, name, inCall, Hit(e, name, inCall));
    case ArrayLit(es) =>
      HitsAreFirstUses(es, name, inCall);
      Lifted(e, name, inCall, Hit(e, name, inCall));
    case ObjectLit(_, keys, values) =>
      HitsAreFirstUses(keys, name, inCall);
      HitsAreFirstUses(values, name, inCall);
      Then(keys, values, name, inCall, HitAny(keys, name, inCall), HitAny(values, name, inCall));
      Lifted(e, name, inCall, Hit(e, name, inCall));
    case Destructure(_, ds, source) =>
      HitsAreFirstUses(ds, name, inCall);
      HitIsFirstUse(source, name, inCall);
      Alone(source, name, inCall, Hit(source, name, inCall));
      Then(ds, [source], name, inCall, HitAny(ds, name, inCall), Hit(source, name, inCall));
      Lifted(e, name, inCall, Hit(e, name, inCall));
    case OtherExpr(kids) =>
      HitsAreFirstUses(kids, name, inCall);
      Lifted(e, name, inCall, Hit(e, name, inCall));
  }

  lemma LeafUse(e: Expr, name: Name, inCall: bool)
    requires e.Ident? || e.Lit? || e.FuncExpr? || e.ClassExpr?
    ensures FirstIs(e, name, inCall, Hit(e, name, inCall))
  {
    forall p: Path | p != [] ensures Use(e, p, name, inCall).None? { assert Sub(e, p).None?; }
    if Hit(e, name, inCall).Some? {
      assert FirstUse(e, name, inCall, [], Hit(e, name, inCall).value);
    }
  }

  lemma {:induction false} HitsAreFirstUses(es: seq<Expr>, name: Name, inCall: bool)
    ensures FirstAmong(es, name, inCall, HitAny(es, name, inCall))
    decreases es, 1
  {
    if es != [] {
      HitIsFirstUse(es[0], name, inCall);
      HitsAreFirstUses(es[1..], name, inCall);
      Alone(es[0], name, inCall, Hit(es[0], name, inCall));
      Then([es[0]], es[1..], name, inCall, Hit(es[0], name, inCall), HitAny(es[1..], name, inCall));
      assert [es[0]] + es[1..] == es;
    }
  }

  // --------------------------------------------------- captures, bases and allocations

  /** Some function or class below e mentions name. */
  ghost predicate Captures(e: Expr, name: Name) {
    exists p: Path :: Mentions(Sub(e, p), name)
  }

  ghost predicate SomeCaptures(es: seq<Expr>, name: Name) {
    exists k :: 0 <= k < |es| && Captures(es[k], name)
  }

  lemma CapturesByKids(e: Expr, name: Name)
    ensures Captures(e, name) <==> Mentions(Some(e), name) || SomeCaptures(Kids(e), name)
  {
    if Captures(e, name) {
      var p: Path :| Mentions(Sub(e, p), name);
      if p != [] { assert Mentions(Sub(Kids(e)[p[0]], p[1..]), name); }
    }
    if Mentions(Some(e), name) { assert Mentions(Sub(e, []), name); }
    if SomeCaptures(Kids(e), name) {
      var k :| 0 <= k < |Kids(e)| && Captures(Kids(e)[k], name);
      var p: Path :| Mentions(Sub(Kids(e)[k], p), name);
      assert ([k] + p)[1..] == p;
      assert Mentions(Sub(e, [k] + p), name);
    }
  }

  lemma SomeCapturesThen(a: seq<Expr>, b: seq<Expr>, name: Name)
    ensures SomeCaptures(a + b, name) <==> SomeCaptures(a, name) || SomeCaptures(b, name)
  {
    if SomeCaptures(a, name) {
      var k :| 0 <= k < |a| && Captures(a[k], name);
      assert Captures((a + b)[k], name);
    }
    if SomeCaptures(b, name) {
      var k :| 0 <= k < |b| && Captures(b[k], name);
      assert Captures((a + b)[|a| + k], name);
    }
  }

  lemma OneCaptures(e: Expr, name: Name)
    ensures SomeCaptures([e], name) <==> Captures(e, name)
  {
    if Captures(e, name) { assert Captures([e][0], name); }
  }

  lemma {:induction false} CapturedIff(e: Expr, name: Name)
    ensures name in Captured(e) <==> Captures(e, name)
    decreases e, 0
  {
    CapturesByKids(e, name);
    match e
    case Member(o, p, _) => CapturedIff(o, name); CapturedIff(p, name); TwoCapture(o, p, name);
    case OptMember(o, p, _) => CapturedIff(o, name); CapturedIff(p, name); TwoCapture(o, p, name);
    case CallExpr(_, callee, args) =>
      CapturedIff(callee, name);
      OneCaptures(callee, name);
      CapturedAllIff(args, name);
      SomeCapturesThen([callee], args, name);
    case Assign(t, v) => CapturedIff(t, name); CapturedIff(v, name); TwoCapture(t, v, name);
    case ArrayLit(es) => CapturedAllIff(es, name);
    case ObjectLit(_, keys, values) =>
      CapturedAllIff(keys, name);
      CapturedAllIff(values, name);
      SomeCapturesThen(keys, values, name);
    case Destructure(_, ds, source) =>
      CapturedAllIff(ds, name);
      CapturedIff(source, name);
      OneCaptures(source, name);
      SomeCapturesThen(ds, [source], name);
    case OtherExpr(kids) => CapturedAllIff(kids, name);
    case _ =>
  }

  lemma TwoCapture(a: Expr, b: Expr, name: Name)
    ensures SomeCaptures([a, b], name) <==> Captures(a, name) || Captures(b, name)
  {
    OneCaptures(a, name);
    OneCaptures(b, name);
    SomeCapturesThen([a], [b], name);
    assert [a] + [b] == [a, b];
  }

  lemma {:induction false} CapturedAllIff(es: seq<Expr>, name: Name)
    ensures name in CapturedAll(es) <==> SomeCaptures(es, name)
    decreases es, 1
  {
    if es != [] {
      CapturedIff(es[0], name);
      OneCaptures(es[0], name);
      CapturedAllIff(es[1..], name);
      SomeCapturesThen([es[0]], es[1..], name);
      assert [es[0]] + es[1..] == es;
    }
  }

  /** A part as the bases walk sees it: it enters the heritage of a class, too. */
  function Sees(e: Expr): seq<Expr> {
    if e.ClassExpr? && e.superClass.Some? then [e.superClass.value] else Kids(e)
  }

  function Seen(e: Expr, p: Path): Option<Expr>
    decreases p
  {
    if p == [] then Some(e) else if p[0] < |Sees(e)| then Seen(Sees(e)[p[0]], p[1..]) else None
  }

  /** The node is an access to a property of name, or a function or class that holds one. */
  predicate Accesses(n: Option<Expr>, name: Name) {
    n.Some? &&
    match n.value
    case Member(o, _, _) => o == Ident(name)
    case OptMember(o, _, _) => o == Ident(name)
    case FuncExpr(_, bases, _) => name in bases
    case ClassExpr(_, _, bases, _) => name in bases
    case _ => false
  }

  ghost predicate IsAccessed(e: Expr, name: Name) {
    exists p: Path :: Accesses(Seen(e, p), name)
  }

  ghost predicate SomeAccessed(es: seq<Expr>, name: Name) {
    exists k :: 0 <= k < |es| && IsAccessed(es[k], name)
  }

  lemma AccessedByKids(e: Expr, name: Name)
    ensures IsAccessed(e, name) <==> Accesses(Some(e), name) || SomeAccessed(Sees(e), name)
  {
    if IsAccessed(e, name) {
      var p: Path :| Accesses(Seen(e, p), name);
      if p != [] { assert Accesses(Seen(Sees(e)[p[0]], p[1..]), name); }
    }
    if Accesses(Some(e), name) { assert Accesses(Seen(e, []), name); }
    if SomeAccessed(Sees(e), name) {
      var k :| 0 <= k < |Sees(e)| && IsAccessed(Sees(e)[k], name);
      var p: Path :| Accesses(Seen(Sees(e)[k], p), name);
      assert ([k] + p)[1..] == p;
      assert Accesses(Seen(e, [k] + p), name);
    }
  }

  lemma SomeAccessedThen(a: seq<Expr>, b: seq<Expr>, name: Name)
    ensures SomeAccessed(a + b, name) <==> SomeAccessed(a, name) || SomeAccessed(b, name)
  {
    if SomeAccessed(a, name) {
      var k :| 0 <= k < |a| && IsAccessed(a[k], name);
      assert IsAccessed((a + b)[k], name);
    }
    if SomeAccessed(b, name) {
      var k :| 0 <= k < |b| && IsAccessed(b[k], name);
      assert IsAccessed((a + b)[|a| + k], name);
    }
  }

  lemma OneAccessed(e: Expr, name: Name)
    ensures SomeAccessed([e], name) <==> IsAccessed(e, name)
  {
    if IsAccessed(e, name) { assert IsAccessed([e][0], name); }
  }

  lemma TwoAccessed(a: Expr, b: Expr, name: Name)
    ensures SomeAccessed([a, b], name) <==> IsAccessed(a, name) || IsAccessed(b, name)
  {
    OneAccessed(a, name);
    OneAccessed(b, name);
    SomeAccessedThen([a], [b], name);
    assert [a] + [b] == [a, b];
  }

  lemma {:induction false} BasesIff(e: Expr, name: Name)
    ensures name in Bases(e) <==> IsAccessed(e, name)
    decreases e, 0
  {
    AccessedByKids(e, name);
    match e
    case Member(o, p, _) => BasesIff(o, name); BasesIff(p, name); TwoAccessed(o, p, name);
    case OptMember(o, p, _) => BasesIff(o, name); BasesIff(p, name); TwoAccessed(o, p, name);
    case CallExpr(_, callee, args) =>
      BasesIff(callee, name);
      OneAccessed(callee, name);
      BasesAllIff(args, name);
      SomeAccessedThen([callee], args, name);
    case Assign(t, v) => BasesIff(t, name); BasesIff(v, name); TwoAccessed(t, v, name);
    case ArrayLit(es) => BasesAllIff(es, name);
    case ObjectLit(_, keys, values) =>
      BasesAllIff(keys, name);
      BasesAllIff(values, name);
      SomeAccessedThen(keys, values, name);
    case ClassExpr(h, _, _, _) => if h.Some? { BasesIff(h.value, name); OneAccessed(h.value, name); }
    case Destructure(_, ds, source) =>
      BasesAllIff(ds, name);
      BasesIff(source, name);
      OneAccessed(source, name);
      SomeAccessedThen(ds, [source], name);
    case OtherExpr(kids) => BasesAllIff(kids, name);
    case _ =>
  }

  lemma {:induction false} BasesAllIff(es: seq<Expr>, name: Name)
    ensures name in BasesAll(es) <==> SomeAccessed(es, name)
    decreases es, 1
  {
    if es != [] {
      BasesIff(es[0], name);
      OneAccessed(es[0], name);
      BasesAllIff(es[1..], name);
      SomeAccessedThen([es[0]], es[1..], name);
      assert [es[0]] + es[1..] == es;
    }
  }

  /** Every node of e is a literal, a name or an array of such. */
  ghost predicate IsData(e: Expr) {
    forall p: Path :: var n := Sub(e, p); n.Some? ==> n.value.Lit? || n.value.Ident? || n.value.ArrayLit?
  }

  lemma {:induction false} PureIff(e: Expr)
    ensures IsPureOperand(e) <==> IsData(e)
    decreases e, 0
  {
    assert Sub(e, []) == Some(e);
    if e.ArrayLit? {
      AllPureIff(e.elements);
      if AllPure(e.elements) {
        forall p: Path | Sub(e, p).Some? ensures Sub(e, p).value.Lit? || Sub(e, p).value.Ident? || Sub(e, p).value.ArrayLit? {
          if p != [] { assert IsData(e.elements[p[0]]); assert Sub(e, p) == Sub(e.elements[p[0]], p[1..]); }
        }
      } else {
        var k :| 0 <= k < |e.elements| && !IsData(e.elements[k]);
        var p: Path :| var n := Sub(e.elements[k], p); n.Some? && !(n.value.Lit? || n.value.Ident? || n.value.ArrayLit?);
        assert ([k] + p)[1..] == p;
        assert Sub(e, [k] + p) == Sub(e.elements[k], p);
      }
    } else if e.Lit? || e.Ident? {
      forall p: Path | p != [] ensures Sub(e, p).None? {}
    }
  }

  lemma {:induction false} AllPureIff(es: seq<Expr>)
    ensures AllPure(es) <==> forall k :: 0 <= k < |es| ==> IsData(es[k])
    decreases es, 1
  {
    if es != [] {
      PureIff(es[0]);
      AllPureIff(es[1..]);
      forall k | 0 < k < |es| ensures es[k] == es[1..][k - 1] {}
      if AllPure(es) {
        forall k | 0 <= k < |es| ensures IsData(es[k]) { if k > 0 { assert IsData(es[1..][k - 1]); } }
      }
      if forall k :: 0 <= k < |es| ==> IsData(es[k]) {
        forall k | 0 <= k < |es[1..]| ensures IsData(es[1..][k]) { assert es[1..][k] == es[k + 1]; }
      }
    }
  }

  /** e holds nothing but data, as an array, an object or the marked constructor. */
  ghost predicate IsAllocation(e: Expr) {
    match e
    case ArrayLit(es) => forall k :: 0 <= k < |es| ==> IsData(es[k])
    case ObjectLit(spread, keys, values) => !spread && keys == [] && forall k :: 0 <= k < |values| ==> IsData(values[k])
    case CallExpr(kind, _, args) => kind == NewCall(true) && forall k :: 0 <= k < |args| ==> args[k].Lit?
    case _ => false
  }

  /** What counts as an allocation no other code can observe is exactly that. */
  lemma FreshIff(e: Expr)
    ensures IsFreshAlloc(e) <==> IsAllocation(e)
  {
    if e.ArrayLit? { AllPureIff(e.elements); }
    if e.ObjectLit? { AllPureIff(e.values); }
  }

  /** A statement allocates name when it initialises it with, or assigns it, such a value. */
  lemma AllocatesIff(s: Stmt, name: Name)
    ensures Allocates(s, name) <==> exists e :: IsAllocation(e) && (s == InitStmt(name, e) || s == ExprStmt(Assign(Ident(name), e)))
  {
    match s
    case InitStmt(_, e) => FreshIff(e);
    case ExprStmt(Assign(Ident(_), e)) => FreshIff(e);
    case _ =>
  }

  // ------------------------------------------------------------------------ statements

  lemma {:induction false} HitTree(s: Stmt, name: Name)
    ensures HitStmt(s, name) == Hit(Tree(s), name, false)
    decreases s, 0
  {
    match s
    case ExprStmt(e) => assert HitAny([e][1..], name, false).None?;
    case InitStmt(_, v) => assert HitAny([v][1..], name, false).None?;
    case DeclStmt(_) =>
    case FuncStmt(_, _, _, _) =>
    case Compound(_, es, ss) =>
      HitTrees(ss, name);
      HitAppend(es, Trees(ss), name);
  }

  lemma {:induction false} HitTrees(ss: seq<Stmt>, name: Name)
    ensures HitStmts(ss, name) == HitAny(Trees(ss), name, false)
    decreases ss, 1
  {
    if ss != [] {
      HitTree(ss[0], name);
      HitTrees(ss[1..], name);
      assert Trees(ss)[1..] == Trees(ss[1..]);
    }
  }

  lemma {:induction false} HitAppend(a: seq<Expr>, b: seq<Expr>, name: Name)
    ensures HitAny(a + b, name, false) == Or(HitAny(a, name, false), HitAny(b, name, false))
    decreases |a|
  {
    if a == [] {
      assert a + b == b;
    } else {
      HitAppend(a[1..], b, name);
      assert (a + b)[1..] == a[1..] + b;
    }
  }

  lemma {:induction false} CapturedTree(s: Stmt)
    ensures CapturedStmt(s) == Captured(Tree(s))
    decreases s, 0
  {
    match s
    case ExprStmt(e) => assert CapturedAll([e][1..]) == {};
    case InitStmt(_, v) => assert CapturedAll([v][1..]) == {};
    case DeclStmt(_) =>
    case FuncStmt(_, _, _, _) =>
    case Compound(_, es, ss) =>
      CapturedTrees(ss);
      CapturedAppend(es, Trees(ss));
  }

  lemma {:induction false} CapturedTrees(ss: seq<Stmt>)
    ensures CapturedStmts(ss) == CapturedAll(Trees(ss))
    decreases ss, 1
  {
    if ss != [] {
      CapturedTree(ss[0]);
      CapturedTrees(ss[1..]);
      assert Trees(ss)[1..] == Trees(ss[1..]);
    }
  }

  lemma {:induction false} CapturedAppend(a: seq<Expr>, b: seq<Expr>)
    ensures CapturedAll(a + b) == CapturedAll(a) + CapturedAll(b)
    decreases |a|
  {
    if a == [] {
      assert a + b == b;
    } else {
      CapturedAppend(a[1..], b);
      assert (a + b)[1..] == a[1..] + b;
    }
  }

  lemma {:induction false} BasesTree(s: Stmt)
    ensures BasesStmt(s) == Bases(Tree(s))
    decreases s, 0
  {
    match s
    case ExprStmt(e) => assert BasesAll([e][1..]) == {};
    case InitStmt(_, v) => assert BasesAll([v][1..]) == {};
    case DeclStmt(_) =>
    case FuncStmt(_, _, _, _) =>
    case Compound(_, es, ss) =>
      BasesTrees(ss);
      BasesAppend(es, Trees(ss));
  }

  lemma {:induction false} BasesTrees(ss: seq<Stmt>)
    ensures BasesStmts(ss) == BasesAll(Trees(ss))
    decreases ss, 1
  {
    if ss != [] {
      BasesTree(ss[0]);
      BasesTrees(ss[1..]);
      assert Trees(ss)[1..] == Trees(ss[1..]);
    }
  }

  lemma {:induction false} BasesAppend(a: seq<Expr>, b: seq<Expr>)
    ensures BasesAll(a + b) == BasesAll(a) + BasesAll(b)
    decreases |a|
  {
    if a == [] {
      assert a + b == b;
    } else {
      BasesAppend(a[1..], b);
      assert (a + b)[1..] == a[1..] + b;
    }
  }

  lemma {:induction false} TreesAt(ss: seq<Stmt>, k: nat)
    requires k < |ss|
    ensures Trees(ss)[k] == Tree(ss[k])
  {
    if k > 0 { TreesAt(ss[1..], k - 1); }
  }

  /** Some function or class in the statements mentions name. */
  ghost predicate CapturedIn(ss: seq<Stmt>, name: Name) {
    exists k :: 0 <= k < |ss| && Captures(Tree(ss[k]), name)
  }

  lemma CapturedInIff(ss: seq<Stmt>, name: Name)
    ensures name in CapturedStmts(ss) <==> CapturedIn(ss, name)
  {
    CapturedTrees(ss);
    CapturedAllIff(Trees(ss), name);
    forall k | 0 <= k < |ss| ensures Trees(ss)[k] == Tree(ss[k]) { TreesAt(ss, k); }
    if CapturedIn(ss, name) {
      var k :| 0 <= k < |ss| && Captures(Tree(ss[k]), name);
      assert Captures(Trees(ss)[k], name);
    }
  }

  /** Some statement of the region accesses a property of name. */
  ghost predicate AccessedIn(ss: seq<Stmt>, name: Name) {
    exists k :: 0 <= k < |ss| && IsAccessed(Tree(ss[k]), name)
  }

  lemma AccessedInIff(ss: seq<Stmt>, name: Name)
    ensures name in BasesStmts(ss) <==> AccessedIn(ss, name)
  {
    BasesTrees(ss);
    BasesAllIff(Trees(ss), name);
    forall k | 0 <= k < |ss| ensures Trees(ss)[k] == Tree(ss[k]) { TreesAt(ss, k); }
    if AccessedIn(ss, name) {
      var k :| 0 <= k < |ss| && IsAccessed(Tree(ss[k]), name);
      assert IsAccessed(Trees(ss)[k], name);
    }
  }

  /** No place of body(at, end) is refused. */
  ghost predicate Unrefused(body: seq<Stmt>, at: nat, end: nat, name: Name)
    requires end <= |body|
  {
    forall i :: at < i < end ==> NoUse(Tree(body[i]), name, false)
  }

  lemma StmtFirst(s: Stmt, name: Name)
    ensures FirstIs(Tree(s), name, false, HitStmt(s, name))
    ensures HitStmt(s, name).None? <==> NoUse(Tree(s), name, false)
  {
    HitTree(s, name);
    HitIsFirstUse(Tree(s), name, false);
    if HitStmt(s, name).Some? {
      var p :| FirstUse(Tree(s), name, false, p, HitStmt(s, name).value);
      assert Use(Tree(s), p, name, false).Some?;
    }
  }

  lemma UnrefusedIff(body: seq<Stmt>, at: nat, end: nat, name: Name)
    requires end <= |body|
    ensures NoHit(body, at, end, name) <==> Unrefused(body, at, end, name)
  {
    forall i | at < i < end ensures HitStmt(body[i], name).None? <==> NoUse(Tree(body[i]), name, false) { StmtFirst(body[i], name); }
  }

  // --------------------------------------------------------------------- the verdict

  /** The verdict on a name, by places: proved with the last allocation in the region when no
      function of this code or of the outer one mentions it and no later place is refused;
      otherwise the code of the first thing that is wrong. */
  ghost predicate VerdictByUses(body: seq<Stmt>, lo: nat, end: nat, outer: seq<Stmt>, name: Name, proved: Option<nat>, code: Option<EscapeCode>)
    requires end <= |body|
  {
    if NoAlloc(body, lo, end, name) then proved.None? && code == Some(NotFresh)
    else exists at: nat :: LastAlloc(body, lo, end, name, at) && CodeByUses(body, at, end, outer, name, proved, code)
  }

  ghost predicate CodeByUses(body: seq<Stmt>, at: nat, end: nat, outer: seq<Stmt>, name: Name, proved: Option<nat>, code: Option<EscapeCode>)
    requires end <= |body|
  {
    if CapturedIn(outer, name) || CapturedIn(body, name) then proved.None? && code == Some(BadUse(EscapesClosure))
    else if Unrefused(body, at, end, name) then proved == Some(at) && code.None?
    else proved.None? && code.Some? && code.value.BadUse? && FirstRefused(body, at, end, name, code.value.use)
  }

  /** u is what the first refused place of body(at, end) earns. */
  ghost predicate FirstRefused(body: seq<Stmt>, at: nat, end: nat, name: Name, u: UseCode)
    requires end <= |body|
  {
    exists i, p :: at < i < end && FirstUse(Tree(body[i]), name, false, p, u) && Unrefused(body, at, i, name)
  }

  lemma FirstRefusedIs(body: seq<Stmt>, at: nat, end: nat, name: Name, i: nat, u: UseCode)
    requires at < i < end <= |body| && HitStmt(body[i], name) == Some(u) && NoHit(body, at, i, name)
    ensures FirstRefused(body, at, end, name, u)
  {
    StmtFirst(body[i], name);
    UnrefusedIff(body, at, i, name);
    var p :| FirstUse(Tree(body[i]), name, false, p, u);
  }

  /** What analyseEscapes returns about any name: a verdict exactly for those whose properties
      the region accesses, and that verdict by places. */
  lemma VerdictIsByUses(body: seq<Stmt>, lo: nat, hi: nat, outer: seq<Stmt>, name: Name, proved: map<Name, nat>, codes: map<Name, EscapeCode>)
    requires lo <= EndOf(body, hi)
    requires if name in BasesStmts(body[lo..EndOf(body, hi)]) then Judged(body, lo, EndOf(body, hi), outer, name, proved, codes) else name !in proved && name !in codes
    ensures if AccessedIn(body[lo..EndOf(body, hi)], name)
      then VerdictByUses(body, lo, EndOf(body, hi), outer, name, Lookup(proved, name), Lookup(codes, name))
      else name !in proved && name !in codes
  {
    var end := EndOf(body, hi);
    AccessedInIff(body[lo..end], name);
    if name in BasesStmts(body[lo..end]) && !NoAlloc(body, lo, end, name) {
      var at: nat :| LastAlloc(body, lo, end, name, at) && CodeIs(body, at, end, outer, name, Lookup(proved, name), Lookup(codes, name));
      CapturedInIff(outer, name);
      CapturedInIff(body, name);
      UnrefusedIff(body, at, end, name);
      if !CapturedIn(outer, name) && !CapturedIn(body, name) && !NoHit(body, at, end, name) {
        var i: nat :| at < i < end && FirstHit(body, at, i, name) && Lookup(codes, name) == Some(BadUse(HitStmt(body[i], name).value));
        FirstRefusedIs(body, at, end, name, i, codes[name].use);
      }
    }
  }
}
