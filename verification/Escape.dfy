// The escape analysis of an inlined IIFE's object (src/emit/iife-escape.ts).
module Escape {
  import opened CfgTypes

  type Name = string

  /** PlainCall is call, optcall and tagged; JsxCall is a jsx node, as the call it stands for;
      NewCall carries the intrinsic-array marker. */
  datatype CallKind = PlainCall | JsxCall | NewCall(fromNewArray: bool)

  /** The nodes the analysis tells apart. A nested function or class body is the set of names
      it mentions, the set it uses as member bases and the set its patterns assign, which
      mentionsName does not see; a member's property expression is only evaluated when it is
      computed, and an object literal's `keys` are its computed keys. A destructuring assignment
      is the names its pattern assigns, the pattern's defaults and the source. OtherExpr is every
      other node without a rule of its own. */
  datatype Expr =
    | Ident(name: Name)
    | Lit
    | Member(obj: Expr, prop: Expr, computed: bool)
    | OptMember(obj: Expr, prop: Expr, computed: bool)
    | CallExpr(kind: CallKind, callee: Expr, args: seq<Expr>)
    | Assign(target: Expr, value: Expr)
    | ArrayLit(elements: seq<Expr>)
    | ObjectLit(spread: bool, keys: seq<Expr>, values: seq<Expr>)
    | FuncExpr(mentions: set<Name>, bases: set<Name>, patterns: set<Name>)
    | ClassExpr(superClass: Option<Expr>, mentions: set<Name>, bases: set<Name>, patterns: set<Name>)
    | Destructure(targets: set<Name>, defaults: seq<Expr>, source: Expr)
    | OtherExpr(kids: seq<Expr>)

  /** Compound is every statement with parts: its loop or catch bindings, its expressions and
      its nested statements. */
  datatype Stmt =
    | ExprStmt(e: Expr)
    | InitStmt(name: Name, value: Expr)
    | DeclStmt(names: seq<Name>)
    | FuncStmt(name: Name, mentions: set<Name>, bases: set<Name>, patterns: set<Name>)
    | Compound(binds: set<Name>, exprs: seq<Expr>, stmts: seq<Stmt>)

  /** Why a use is refused. */
  datatype UseCode = Reassigned | EscapesCall | EscapesStore | EscapesClosure

  datatype EscapeCode = NotFresh | BadUse(use: UseCode)

  // ---------------------------------------------------------------- allocations

  predicate IsPureOperand(e: Expr)
    decreases e, 0
  {
    e.Lit? || e.Ident? || (e.ArrayLit? && AllPure(e.elements))
  }

  predicate AllPure(es: seq<Expr>)
    decreases es, 1
  {
    es == [] || (IsPureOperand(es[0]) && AllPure(es[1..]))
  }

  predicate IsFreshAlloc(e: Expr) {
    match e
    case ArrayLit(es) => AllPure(es)
    case ObjectLit(spread, keys, values) => !spread && keys == [] && AllPure(values)
    case CallExpr(NewCall(true), _, args) => forall k :: 0 <= k < |args| ==> args[k].Lit?
    case _ => false
  }

  function AssignedName(s: Stmt): Option<(Name, Expr)> {
    match s
    case InitStmt(name, value) => Some((name, value))
    case ExprStmt(Assign(Ident(name), value)) => Some((name, value))
    case _ => None
  }

  // ------------------------------------------------------------------------ uses

  function Or(a: Option<UseCode>, b: Option<UseCode>): Option<UseCode> {
    if a.Some? then a else b
  }

  /** The first refusal an expression earns for `name`; None when every use is the base of a
      member access. */
  function Hit(e: Expr, name: Name, inCall: bool): Option<UseCode>
    decreases e, 0
  {
    match e
    case Ident(x) => if x == name then Some(if inCall then EscapesCall else EscapesStore) else None
    case Lit => None
    case Member(o, p, _) => Or(if o == Ident(name) then None else Hit(o, name, inCall), Hit(p, name, inCall))
    case OptMember(o, p, _) => Or(Hit(o, name, inCall), Hit(p, name, inCall))
    case CallExpr(kind, callee, args) => Or(Hit(callee, name, inCall || !kind.JsxCall?), HitAny(args, name, inCall || !kind.JsxCall?))
    case Assign(t, v) => Or(if t == Ident(name) then Some(Reassigned) else Hit(t, name, inCall), Hit(v, name, inCall))
    case ArrayLit(es) => HitAny(es, name, inCall)
    case ObjectLit(_, keys, values) => Or(HitAny(keys, name, inCall), HitAny(values, name, inCall))
    case FuncExpr(mentions, _, _) => if name in mentions then Some(EscapesClosure) else None
    case ClassExpr(_, mentions, _, _) => if name in mentions then Some(EscapesClosure) else None
    case Destructure(_, ds, source) => Or(HitAny(ds, name, inCall), Hit(source, name, inCall))
    case OtherExpr(kids) => HitAny(kids, name, inCall)
  }

  function HitAny(es: seq<Expr>, name: Name, inCall: bool): Option<UseCode>
    decreases es, 1
  {
    if es == [] then None else Or(Hit(es[0], name, inCall), HitAny(es[1..], name, inCall))
  }

  function HitStmt(s: Stmt, name: Name): Option<UseCode>
    decreases s, 0
  {
    match s
    case ExprStmt(e) => Hit(e, name, false)
    case InitStmt(_, v) => Hit(v, name, false)
    case DeclStmt(_) => None
    case FuncStmt(_, mentions, _, _) => if name in mentions then Some(EscapesClosure) else None
    case Compound(_, es, ss) => Or(HitAny(es, name, false), HitStmts(ss, name))
  }

  function HitStmts(ss: seq<Stmt>, name: Name): Option<UseCode>
    decreases ss, 1
  {
    if ss == [] then None else Or(HitStmt(ss[0], name), HitStmts(ss[1..], name))
  }

  // --------------------------------------------- captures, and bases of member accesses

  /** The names nested functions and class bodies mention, anywhere below. */
  function Captured(e: Expr): set<Name>
    decreases e, 0
  {
    match e
    case Ident(_) => {}
    case Lit => {}
    case Member(o, p, _) => Captured(o) + Captured(p)
    case OptMember(o, p, _) => Captured(o) + Captured(p)
    case CallExpr(_, callee, args) => Captured(callee) + CapturedAll(args)
    case Assign(t, v) => Captured(t) + Captured(v)
    case ArrayLit(es) => CapturedAll(es)
    case ObjectLit(_, keys, values) => CapturedAll(keys) + CapturedAll(values)
    case FuncExpr(mentions, _, _) => mentions
    case ClassExpr(_, mentions, _, _) => mentions
    case Destructure(_, ds, source) => CapturedAll(ds) + Captured(source)
    case OtherExpr(kids) => CapturedAll(kids)
  }

  function CapturedAll(es: seq<Expr>): set<Name>
    decreases es, 1
  {
    if es == [] then {} else Captured(es[0]) + CapturedAll(es[1..])
  }

  function CapturedStmt(s: Stmt): set<Name>
    decreases s, 0
  {
    match s
    case ExprStmt(e) => Captured(e)
    case InitStmt(_, v) => Captured(v)
    case DeclStmt(_) => {}
    case FuncStmt(_, mentions, _, _) => mentions
    case Compound(_, es, ss) => CapturedAll(es) + CapturedStmts(ss)
  }

  function CapturedStmts(ss: seq<Stmt>): set<Name>
    decreases ss, 1
  {
    if ss == [] then {} else CapturedStmt(ss[0]) + CapturedStmts(ss[1..])
  }

  function BaseName(e: Expr): set<Name> {
    if e.Ident? then {e.name} else {}
  }

  function Bases(e: Expr): set<Name>
    decreases e, 0
  {
    match e
    case Ident(_) => {}
    case Lit => {}
    case Member(o, p, _) => BaseName(o) + Bases(o) + Bases(p)
    case OptMember(o, p, _) => BaseName(o) + Bases(o) + Bases(p)
    case CallExpr(_, callee, args) => Bases(callee) + BasesAll(args)
    case Assign(t, v) => Bases(t) + Bases(v)
    case ArrayLit(es) => BasesAll(es)
    case ObjectLit(_, keys, values) => BasesAll(keys) + BasesAll(values)
    case FuncExpr(_, bases, _) => bases
    case ClassExpr(s, _, bases, _) => bases + if s.Some? then Bases(s.value) else {}
    case Destructure(_, ds, source) => BasesAll(ds) + Bases(source)
    case OtherExpr(kids) => BasesAll(kids)
  }

  function BasesAll(es: seq<Expr>): set<Name>
    decreases es, 1
  {
    if es == [] then {} else Bases(es[0]) + BasesAll(es[1..])
  }

  function BasesStmt(s: Stmt): set<Name>
    decreases s, 0
  {
    match s
    case ExprStmt(e) => Bases(e)
    case InitStmt(_, v) => Bases(v)
    case DeclStmt(_) => {}
    case FuncStmt(_, _, bases, _) => bases
    case Compound(_, es, ss) => BasesAll(es) + BasesStmts(ss)
  }

  function BasesStmts(ss: seq<Stmt>): set<Name>
    decreases ss, 1
  {
    if ss == [] then {} else BasesStmt(ss[0]) + BasesStmts(ss[1..])
  }

  // ------------------------------------------------------------------ the analysis

  predicate Allocates(s: Stmt, name: Name) {
    var a := AssignedName(s);
    a.Some? && a.value.0 == name && IsFreshAlloc(a.value.1)
  }

  /** at is the last fresh allocation of name among body[lo..end). */
  ghost predicate LastAlloc(body: seq<Stmt>, lo: nat, end: nat, name: Name, at: nat) {
    && lo <= at < end <= |body| && Allocates(body[at], name)
    && forall i :: at < i < end ==> !Allocates(body[i], name)
  }

  ghost predicate NoAlloc(body: seq<Stmt>, lo: nat, end: nat, name: Name)
    requires end <= |body|
  {
    forall i :: lo <= i < end ==> !Allocates(body[i], name)
  }

  /** No statement of body(at, end) uses name other than as a member base. */
  ghost predicate NoHit(body: seq<Stmt>, at: nat, end: nat, name: Name)
    requires end <= |body|
  {
    forall i {:trigger HitStmt(body[i], name)} :: at < i < end ==> HitStmt(body[i], name).None?
  }

  /** What freshness claims: allocated at `at` and nowhere later in the region, captured by no
      function of the whole body or of outer, and only used as a member base afterwards. */
  ghost predicate IsFresh(body: seq<Stmt>, lo: nat, end: nat, outer: seq<Stmt>, name: Name, at: nat)
    requires end <= |body|
  {
    && lo <= end && name in BasesStmts(body[lo..end]) && LastAlloc(body, lo, end, name, at)
    && name !in CapturedStmts(outer) && name !in CapturedStmts(body) && NoHit(body, at, end, name)
  }

  /** The region's end: one past hi, capped by the body. */
  function EndOf(body: seq<Stmt>, hi: nat): (end: nat)
    ensures end <= |body| && end <= hi + 1 && (end < |body| ==> end == hi + 1)
  {
    if hi + 1 < |body| then hi + 1 else |body|
  }

  method CollectBases(body: seq<Stmt>, lo: nat, end: nat) returns (bases: set<Name>)
    requires lo <= end <= |body|
    ensures bases == BasesStmts(body[lo..end])
  {
    bases := {};
    var i := end;
    while i > lo
      invariant lo <= i <= end && bases == BasesStmts(body[i..end])
    {
      i := i - 1;
      assert body[i..end] == [body[i]] + body[i + 1..end];
      bases := BasesStmt(body[i]) + bases;
    }
  }

  method FindAllocs(body: seq<Stmt>, lo: nat, end: nat, bases: set<Name>) returns (alloc: map<Name, nat>)
    requires lo <= end <= |body|
    ensures forall name :: name in alloc ==> name in bases && LastAlloc(body, lo, end, name, alloc[name])
    ensures forall name :: name in bases && name !in alloc ==> NoAlloc(body, lo, end, name)
  {
    alloc := map[];
    for i := lo to end
      invariant forall name :: name in alloc ==> name in bases && LastAlloc(body, lo, i, name, alloc[name])
      invariant forall name :: name in bases && name !in alloc ==> NoAlloc(body, lo, i, name)
    {
      var a := AssignedName(body[i]);
      if a.None? || a.value.0 !in bases { continue; }
      if IsFreshAlloc(a.value.1) { alloc := alloc[a.value.0 := i]; }
    }
  }

  /** The walk over (at, end): the first refusal, if any. */
  method FirstRefusal(body: seq<Stmt>, at: nat, end: nat, name: Name) returns (code: Option<UseCode>)
    requires at < end <= |body|
    ensures code.None? <==> NoHit(body, at, end, name)
    ensures code.Some? ==> exists i: nat :: at < i < end && FirstHit(body, at, i, name) && HitStmt(body[i], name) == code
  {
    for i := at + 1 to end
      invariant NoHit(body, at, i, name)
    {
      code := HitStmt(body[i], name);
      if code.Some? { assert FirstHit(body, at, i, name); return; }
    }
    return None;
  }

  function Lookup<V>(m: map<Name, V>, name: Name): Option<V> {
    if name in m then Some(m[name]) else None
  }

  /** The verdict on a name allocated at `at`: a capture refuses it first, then the first
      refused use after the allocation. */
  ghost predicate CodeIs(body: seq<Stmt>, at: nat, end: nat, outer: seq<Stmt>, name: Name, proved: Option<nat>, code: Option<EscapeCode>)
    requires end <= |body|
  {
    if name in CapturedStmts(outer) || name in CapturedStmts(body) then proved.None? && code == Some(BadUse(EscapesClosure))
    else if NoHit(body, at, end, name) then proved == Some(at) && code.None?
    else proved.None? && exists i: nat :: at < i < end && FirstHit(body, at, i, name) && code == Some(BadUse(HitStmt(body[i], name).value))
  }

  ghost predicate FirstHit(body: seq<Stmt>, at: nat, i: nat, name: Name)
    requires i < |body|
  {
    HitStmt(body[i], name).Some? && NoHit(body, at, i, name)
  }

  ghost predicate Verdict(body: seq<Stmt>, lo: nat, end: nat, outer: seq<Stmt>, name: Name, proved: Option<nat>, code: Option<EscapeCode>)
    requires end <= |body|
  {
    if NoAlloc(body, lo, end, name) then proved.None? && code == Some(NotFresh)
    else exists at: nat :: LastAlloc(body, lo, end, name, at) && CodeIs(body, at, end, outer, name, proved, code)
  }

  /** The two maps are right about a candidate name. */
  ghost predicate Judged(body: seq<Stmt>, lo: nat, end: nat, outer: seq<Stmt>, name: Name, proved: map<Name, nat>, codes: map<Name, EscapeCode>)
    requires end <= |body|
  {
    && (forall at: nat {:trigger IsFresh(body, lo, end, outer, name, at)} :: (name in proved && proved[name] == at) <==> IsFresh(body, lo, end, outer, name, at))
    && Verdict(body, lo, end, outer, name, Lookup(proved, name), Lookup(codes, name))
  }

  /** analyseEscapes: a name used as a member base is proved fresh exactly when IsFresh holds,
      and otherwise refused with the code of the first thing that is wrong. */
  method AnalyseEscapes(body: seq<Stmt>, lo: nat, hi: nat, outer: seq<Stmt>) returns (proved: map<Name, nat>, codes: map<Name, EscapeCode>)
    requires lo <= EndOf(body, hi)
    ensures forall name: Name {:trigger name in proved} {:trigger name in codes} :: name in BasesStmts(body[lo..EndOf(body, hi)]) ==> Judged(body, lo, EndOf(body, hi), outer, name, proved, codes)
    ensures forall name: Name {:trigger name in proved} {:trigger name in codes} :: name !in BasesStmts(body[lo..EndOf(body, hi)]) ==> name !in proved && name !in codes
  {
    var end := EndOf(body, hi);
    var bases := CollectBases(body, lo, end);
    var alloc := FindAllocs(body, lo, end, bases);
    proved, codes := map[], map[];
    var left := bases;
    while left != {}
      invariant left <= bases
      invariant forall name: Name {:trigger Judged(body, lo, end, outer, name, proved, codes)} :: name in bases && name !in left ==> Judged(body, lo, end, outer, name, proved, codes)
      invariant forall name: Name {:trigger name in proved} {:trigger name in codes} :: name !in bases || name in left ==> name !in proved && name !in codes
      decreases left
    {
      var name :| name in left;
      left := left - {name};
      ghost var proved0, codes0 := proved, codes;
      var code := Judge(body, lo, end, outer, name, if name in alloc then Some(alloc[name]) else None);
      if code.Some? { codes := codes[name := code.value]; } else { proved := proved[name := alloc[name]]; }
      assert Judged(body, lo, end, outer, name, proved, codes);
      forall x: Name | x in bases && x !in left && x != name ensures Judged(body, lo, end, outer, x, proved, codes) {
        assert Judged(body, lo, end, outer, x, proved0, codes0);
      }
    }
  }

  /** The verdict on one candidate name. */
  method Judge(body: seq<Stmt>, lo: nat, end: nat, outer: seq<Stmt>, name: Name, at: Option<nat>) returns (code: Option<EscapeCode>)
    requires lo <= end <= |body| && name in BasesStmts(body[lo..end])
    requires if at.Some? then LastAlloc(body, lo, end, name, at.value) else NoAlloc(body, lo, end, name)
    ensures code.None? ==> at.Some?
    ensures forall x: nat {:trigger IsFresh(body, lo, end, outer, name, x)} :: IsFresh(body, lo, end, outer, name, x) <==> code.None? && at == Some(x)
    ensures Verdict(body, lo, end, outer, name, if code.None? then at else None, code)
  {
    if at.None? {
      return Some(NotFresh);
    }
    assert forall x: nat :: LastAlloc(body, lo, end, name, x) ==> x == at.value;
    if name in CapturedStmts(outer) || name in CapturedStmts(body) { return Some(BadUse(EscapesClosure)); }
    var use := FirstRefusal(body, at.value, end, name);
    code := if use.Some? then Some(BadUse(use.value)) else None;
    assert CodeIs(body, at.value, end, outer, name, if code.None? then at else None, code);
  }
}
