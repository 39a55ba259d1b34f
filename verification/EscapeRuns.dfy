// What a proved-fresh object looks like to a running program: a big-step semantics for the
// statement language of Escape, in which a call may do anything its roots can reach.
module EscapeRuns {
  import opened Escape

  type Addr = nat

  datatype Val = Prim(id: int) | Ref(at: Addr)

  /** A plain object has data properties only; everything else may run code when touched. */
  datatype Obj = Obj(plain: bool, props: map<string, Val>)

  datatype State = State(vars: map<Name, Val>, heap: map<Addr, Obj>)

  /** How an evaluation ends: with a value, or with an exception. */
  datatype Outcome = Gives(value: Val) | Thrown

  // --------------------------------------------------------------------------- calls

  ghost predicate IsRoot(s: State, captured: set<Name>, args: seq<Val>, a: Addr) {
    Ref(a) in args || exists x :: x in captured && x in s.vars && s.vars[x] == Ref(a)
  }

  /** a is reached from the roots through n property reads at most. */
  ghost predicate ReachIn(s: State, captured: set<Name>, args: seq<Val>, a: Addr, n: nat)
    decreases n
  {
    || IsRoot(s, captured, args, a)
    || (n > 0 && exists b, k :: b in s.heap && k in s.heap[b].props && s.heap[b].props[k] == Ref(a) && ReachIn(s, captured, args, b, n - 1))
  }

  ghost predicate CanReach(s: State, captured: set<Name>, args: seq<Val>, a: Addr) {
    exists n: nat :: ReachIn(s, captured, args, a, n)
  }

  /** A value a call can come up with: reachable from its roots, or new. */
  ghost predicate Obtainable(s: State, captured: set<Name>, args: seq<Val>, v: Val) {
    v.Ref? ==> CanReach(s, captured, args, v.at) || v.at !in s.heap
  }

  /** A call: only captured variables and reachable objects may change, and only to hold
      obtainable values. `args` includes the receiver. */
  ghost predicate Call(captured: set<Name>, args: seq<Val>, s: State, v: Val, s': State) {
    && Obtainable(s, captured, args, v)
    && (forall x {:trigger x in s'.vars} {:trigger x in s.vars} :: x !in captured ==> (x in s'.vars <==> x in s.vars) && (x in s.vars ==> s'.vars[x] == s.vars[x]))
    && (forall x {:trigger s'.vars[x]} :: x in captured && x in s'.vars ==> Obtainable(s, captured, args, s'.vars[x]))
    && (forall a {:trigger a in s.heap} :: a in s.heap && !CanReach(s, captured, args, a) ==> a in s'.heap && s'.heap[a] == s.heap[a])
    && (forall a, k {:trigger s'.heap[a].props[k]} :: a in s'.heap && k in s'.heap[a].props && (a !in s.heap || CanReach(s, captured, args, a)) ==>
          Obtainable(s, captured, args, s'.heap[a].props[k]))
  }

  // --------------------------------------------------------------------- expressions

  ghost predicate CallEffect(captured: set<Name>, args: seq<Val>, s: State, s': State) {
    exists u :: Call(captured, args, s, u, s')
  }

  /** Code runs, and returns or throws. */
  ghost predicate CodeRuns(captured: set<Name>, args: seq<Val>, s: State, out: Outcome, s': State) {
    if out.Gives? then Call(captured, args, s, out.value, s') else CallEffect(captured, args, s, s')
  }

  /** Turning a computed key into a property name may run code. */
  ghost predicate KeyRuns(captured: set<Name>, key: seq<Val>, s: State, s': State) {
    (key == [] && s' == s) || CallEffect(captured, key, s, s')
  }

  predicate IsPlain(s: State, o: Val) {
    o.Ref? && o.at in s.heap && s.heap[o.at].plain
  }

  /** Functions are among the objects that are not plain; nothing else can be called. */
  predicate IsCallable(s: State, f: Val) {
    f.Ref? && f.at in s.heap && !s.heap[f.at].plain
  }

  /** What a plain object answers: one of its own properties, or something an intrinsic
      prototype holds. */
  ghost predicate Answers(captured: set<Name>, s: State, o: Val, v: Val) {
    || v.Prim? || Obtainable(s, captured, [], v)
    || (o.Ref? && o.at in s.heap && exists k :: k in s.heap[o.at].props && s.heap[o.at].props[k] == v)
  }

  /** Reading a property: anything but a plain object may run code, with it as receiver. */
  ghost predicate Gets(captured: set<Name>, o: Val, key: seq<Val>, s: State, out: Outcome, s': State) {
    if IsPlain(s, o) then KeyRuns(captured, key, s, s') && (out.Gives? ==> Answers(captured, s', o, out.value))
    else CodeRuns(captured, [o] + key, s, out, s')
  }

  function StoreAt(s: State, a: Addr, k: string, w: Val): State
    requires a in s.heap
  {
    s.(heap := s.heap[a := s.heap[a].(props := s.heap[a].props[k := w])])
  }

  ghost predicate Stored(s: State, o: Val, w: Val, s': State) {
    o.Ref? && o.at in s.heap && exists k :: s' == StoreAt(s, o.at, k, w)
  }

  /** Storing a property; a key that throws leaves nothing stored. */
  ghost predicate Puts(captured: set<Name>, o: Val, key: seq<Val>, w: Val, s: State, out: Outcome, s': State) {
    && (out.Gives? ==> out.value == w)
    && if IsPlain(s, o) then exists s1 :: KeyRuns(captured, key, s, s1) && (if out.Thrown? then s' == s1 else Stored(s1, o, w, s'))
       else CallEffect(captured, [o] + key + [w], s, s')
  }

  ghost predicate Unused(s: State, vs: seq<Val>, a: Addr) {
    && a !in s.heap && Ref(a) !in vs && (forall x {:trigger s.vars[x]} :: x in s.vars ==> s.vars[x] != Ref(a))
    && forall b, k {:trigger s.heap[b].props[k]} :: b in s.heap && k in s.heap[b].props ==> s.heap[b].props[k] != Ref(a)
  }

  /** A literal: its parts may run code first (a spread, a computed key), which may throw; then
      a new object holds values they could obtain. */
  ghost predicate Makes(captured: set<Name>, plain: bool, vs: seq<Val>, s: State, out: Outcome, s': State) {
    if out.Thrown? then CallEffect(captured, vs, s, s')
    else exists s1, o: Obj :: (s1 == s || CallEffect(captured, vs, s, s1)) && Built(captured, plain, vs, s1, o, out.value, s')
  }

  ghost predicate Built(captured: set<Name>, plain: bool, vs: seq<Val>, s: State, o: Obj, v: Val, s': State) {
    && v.Ref? && Unused(s, vs, v.at) && o.plain == plain && s' == s.(heap := s.heap[v.at := o])
    && forall k {:trigger o.props[k]} :: k in o.props ==> o.props[k] != v && (o.props[k] in vs || Obtainable(s, captured, vs, o.props[k]))
  }

  function Key(prop: Expr, computed: bool): seq<Expr> {
    if computed then [prop] else []
  }

  /** The parts an expression evaluates, in order. */
  function Parts(e: Expr): seq<Expr> {
    match e
    case Member(o, p, c) => [o] + Key(p, c)
    case OptMember(o, p, c) => [o] + Key(p, c)
    case CallExpr(_, callee, args) => [callee] + args
    case Assign(Ident(_), v) => [v]
    case Assign(Member(o, p, c), v) => [o] + Key(p, c) + [v]
    case Assign(t, v) => [t, v]
    case ArrayLit(es) => es
    case ObjectLit(_, keys, values) => keys + values
    case ClassExpr(h, _, _, _) => if h.Some? then [h.value] else []
    case Destructure(_, _, source) => [source]
    case OtherExpr(kids) => kids
    case _ => []
  }

  function Size(e: Expr): nat
    decreases e, 0
  {
    match e
    case Member(o, p, _) => 1 + Size(o) + Size(p)
    case OptMember(o, p, _) => 1 + Size(o) + Size(p)
    case CallExpr(_, callee, args) => 1 + Size(callee) + SizeAll(args)
    case Assign(t, v) => 1 + Size(t) + Size(v)
    case ArrayLit(es) => 1 + SizeAll(es)
    case ObjectLit(_, keys, values) => 1 + SizeAll(keys) + SizeAll(values)
    case ClassExpr(h, _, _, _) => if h.Some? then 1 + Size(h.value) else 1
    case Destructure(_, ds, source) => 1 + SizeAll(ds) + Size(source)
    case OtherExpr(kids) => 1 + SizeAll(kids)
    case _ => 1
  }

  function SizeAll(es: seq<Expr>): nat
    decreases es, 1
  {
    if es == [] then 0 else Size(es[0]) + SizeAll(es[1..])
  }

  lemma {:induction false} SizeAppend(a: seq<Expr>, b: seq<Expr>)
    ensures SizeAll(a + b) == SizeAll(a) + SizeAll(b)
    decreases |a|
  {
    if a == [] {
      assert a + b == b;
    } else {
      SizeAppend(a[1..], b);
      assert (a + b)[1..] == a[1..] + b;
    }
  }

  lemma SizeOne(e: Expr)
    ensures SizeAll([e]) == Size(e)
  {
    assert [e][1..] == [];
  }

  lemma SizeKey(p: Expr, c: bool)
    ensures SizeAll(Key(p, c)) <= Size(p)
  {
    SizeOne(p);
  }

  lemma AssignSmaller(t: Expr, v: Expr)
    ensures SizeAll(Parts(Assign(t, v))) < Size(Assign(t, v))
  {
    SizeOne(v);
    if t.Member? {
      SizeOne(t.obj);
      SizeKey(t.prop, t.computed);
      SizeAppend([t.obj], Key(t.prop, t.computed));
      SizeAppend([t.obj] + Key(t.prop, t.computed), [v]);
    } else if !t.Ident? {
      SizeOne(t);
      SizeAppend([t], [v]);
      assert [t] + [v] == [t, v];
    }
  }

  lemma PartsSmaller(e: Expr)
    ensures SizeAll(Parts(e)) < Size(e) || Parts(e) == []
  {
    match e
    case Member(o, p, c) => SizeOne(o); SizeKey(p, c); SizeAppend([o], Key(p, c));
    case OptMember(o, p, c) => SizeOne(o); SizeKey(p, c); SizeAppend([o], Key(p, c));
    case CallExpr(_, callee, args) => SizeOne(callee); SizeAppend([callee], args);
    case Assign(t, v) => AssignSmaller(t, v);
    case ObjectLit(_, keys, values) => SizeAppend(keys, values);
    case ClassExpr(h, _, _, _) => if h.Some? { SizeOne(h.value); }
    case Destructure(_, _, source) => SizeOne(source);
    case _ =>
  }

  /** A call through a member: the member's object is the receiver. */
  predicate IsMethodCall(e: Expr) {
    e.CallExpr? && !e.kind.NewCall? && (e.callee.Member? || e.callee.OptMember?)
  }

  /** How an expression ends once its parts have values. `new Array(...)` of the marked kind is
      the NewArray instruction; a plain object is no superclass. */
  ghost predicate Finishes(captured: set<Name>, e: Expr, vs: seq<Val>, s: State, out: Outcome, s': State)
    requires e.OtherExpr? || |vs| == |Parts(e)|
  {
    match e
    case Ident(x) => if x in s.vars then out == Gives(s.vars[x]) && s' == s else CodeRuns(captured, [], s, out, s')
    case Lit => out.Gives? && out.value.Prim? && s' == s
    case Member(_, _, _) => Gets(captured, vs[0], vs[1..], s, out, s')
    case OptMember(_, _, _) => Gets(captured, vs[0], vs[1..], s, out, s')
    case CallExpr(kind, _, _) => if kind == NewCall(true) then Makes(captured, true, vs[1..], s, out, s') else Invokes(captured, vs[0], vs, s, out, s')
    case Assign(Ident(x), _) => out == Gives(vs[0]) && s' == s.(vars := s.vars[x := vs[0]])
    case Assign(Member(_, _, _), _) => Puts(captured, vs[0], vs[1..|vs| - 1], vs[|vs| - 1], s, out, s')
    case Assign(_, _) => CodeRuns(captured, vs, s, out, s')
    case ArrayLit(_) => Makes(captured, true, vs, s, out, s')
    case ObjectLit(_, _, _) => Makes(captured, true, vs, s, out, s')
    case FuncExpr(_, _, _) => Makes(captured, false, [], s, out, s')
    case Destructure(_, _, _) => false
    case ClassExpr(_, _, _, _) => if vs != [] && IsPlain(s, vs[0]) then out.Thrown? && s' == s else CodeRuns(captured, vs, s, out, s')
    case OtherExpr(_) => (out.Gives? && out.value in vs && s' == s) || CodeRuns(captured, vs, s, out, s')
  }

  /** Calling a value: a TypeError unless it is callable. */
  ghost predicate Invokes(captured: set<Name>, f: Val, args: seq<Val>, s: State, out: Outcome, s': State) {
    if IsCallable(s, f) then CodeRuns(captured, args, s, out, s') else out.Thrown? && s' == s
  }

  /** e may evaluate to out, moving s to s'. */
  ghost predicate Eval(captured: set<Name>, e: Expr, s: State, out: Outcome, s': State)
    decreases Size(e), 2
  {
    PartsSmaller(e);
    if IsMethodCall(e) then EvalMethod(captured, e, s, out, s')
    else if e.Destructure? then EvalPattern(captured, e, s, out, s')
    else Completes(captured, e, s, out, s') || (out.Thrown? && PartThrows(captured, Parts(e), e.OtherExpr?, s, s')) || ShortCircuits(captured, e, s, out, s')
  }

  /** A destructuring assignment: the source, and then any number of steps. It is worth its
      source. */
  ghost predicate EvalPattern(captured: set<Name>, e: Expr, s: State, out: Outcome, s': State)
    requires e.Destructure?
    decreases Size(e), 1
  {
    || (out.Thrown? && Eval(captured, e.source, s, Thrown, s'))
    || exists v, s1, n: nat, vs, ok :: Eval(captured, e.source, s, Gives(v), s1) && PatternRuns(captured, e, n, s1, [v], ok, s', vs) && out == (if ok then Gives(v) else Thrown)
  }

  /** n steps, from the values us at hand to the values vs, up to the end or to one that throws. */
  ghost predicate PatternRuns(captured: set<Name>, e: Expr, n: nat, s: State, us: seq<Val>, ok: bool, s': State, vs: seq<Val>)
    requires e.Destructure?
    decreases Size(e), 0, n + 1
  {
    if n == 0 then ok && s' == s && vs == us
    else exists s1, ws :: PatternRuns(captured, e, n - 1, s, us, true, s1, ws) && PatternStep(captured, e, s1, ws, ok, s', vs)
  }

  /** One step: a default is evaluated, a property of a value at hand is read, code runs with
      the source (an iterator), a rest value is made, or a name is assigned. */
  ghost predicate PatternStep(captured: set<Name>, e: Expr, s: State, us: seq<Val>, ok: bool, s': State, vs: seq<Val>)
    requires e.Destructure?
    decreases Size(e), 0, 0
  {
    || StepDefault(captured, e, s, us, ok, s', vs) || StepRead(captured, s, us, ok, s', vs) || StepCode(captured, s, us, ok, s', vs)
    || StepRest(captured, s, us, ok, s', vs) || (ok && vs == us && StepAssigns(e.targets, s, us, s'))
  }

  ghost predicate StepDefault(captured: set<Name>, e: Expr, s: State, us: seq<Val>, ok: bool, s': State, vs: seq<Val>)
    requires e.Destructure?
    decreases Size(e), 0, 0, 1
  {
    exists k: nat, out: Outcome :: k < |e.defaults| && DefaultRuns(captured, e, k, s, out, s') && Joins(us, out, ok, vs)
  }

  ghost predicate DefaultRuns(captured: set<Name>, e: Expr, k: nat, s: State, out: Outcome, s': State)
    requires e.Destructure? && k < |e.defaults|
    decreases Size(e), 0, 0, 0
  {
    SizeAt(e.defaults, k);
    Eval(captured, e.defaults[k], s, out, s')
  }

  ghost predicate StepRead(captured: set<Name>, s: State, us: seq<Val>, ok: bool, s': State, vs: seq<Val>) {
    exists o: Val, out: Outcome :: o in us && Gets(captured, o, [], s, out, s') && Joins(us, out, ok, vs)
  }

  ghost predicate StepCode(captured: set<Name>, s: State, us: seq<Val>, ok: bool, s': State, vs: seq<Val>) {
    exists out: Outcome :: CodeRuns(captured, us, s, out, s') && Joins(us, out, ok, vs)
  }

  ghost predicate StepRest(captured: set<Name>, s: State, us: seq<Val>, ok: bool, s': State, vs: seq<Val>) {
    exists out: Outcome :: Makes(captured, true, us, s, out, s') && Joins(us, out, ok, vs)
  }

  ghost predicate StepAssigns(targets: set<Name>, s: State, us: seq<Val>, s': State) {
    exists x, w: Val :: x in targets && (w.Prim? || w in us) && s' == s.(vars := s.vars[x := w])
  }

  predicate Joins(us: seq<Val>, out: Outcome, ok: bool, vs: seq<Val>) {
    (ok <==> out.Gives?) && vs == if out.Gives? then us + [out.value] else us
  }

  lemma {:induction false} SizeAt(es: seq<Expr>, k: nat)
    requires k < |es|
    ensures Size(es[k]) <= SizeAll(es)
    decreases |es|
  {
    if k > 0 { SizeAt(es[1..], k - 1); }
  }

  /** All parts have values, and the expression ends with them. */
  ghost predicate Completes(captured: set<Name>, e: Expr, s: State, out: Outcome, s': State)
    decreases Size(e), 1
  {
    PartsSmaller(e);
    exists vs: seq<Val>, s1 :: EvalParts(captured, Parts(e), e.OtherExpr?, s, vs, true, s1) && (e.OtherExpr? || |vs| == |Parts(e)|) && Finishes(captured, e, vs, s1, out, s')
  }

  ghost predicate PartThrows(captured: set<Name>, es: seq<Expr>, some: bool, s: State, s': State)
    decreases SizeAll(es), 4
  {
    exists vs: seq<Val> :: EvalParts(captured, es, some, s, vs, false, s')
  }

  /** An optional access or call on null or undefined. */
  ghost predicate ShortCircuits(captured: set<Name>, e: Expr, s: State, out: Outcome, s': State)
    decreases Size(e), 1
  {
    PartsSmaller(e);
    (e.OptMember? || (e.CallExpr? && e.kind.PlainCall?)) && out.Gives? && out.value.Prim?
    && exists w: Val :: w.Prim? && Eval(captured, Parts(e)[0], s, Gives(w), s')
  }

  /** The object and key, the property they name, the arguments, and then the call with the
      object as receiver. */
  ghost predicate EvalMethod(captured: set<Name>, e: Expr, s: State, out: Outcome, s': State)
    requires IsMethodCall(e)
    decreases Size(e), 1
  {
    MethodSmaller(e);
    || (out.Thrown? && PartThrows(captured, Parts(e.callee), false, s, s'))
    || exists vs: seq<Val>, s1 :: EvalParts(captured, Parts(e.callee), false, s, vs, true, s1) && |vs| == |Parts(e.callee)| && CallsMember(captured, e, vs, s1, out, s')
  }

  /** The object and key have values: the method is read and called. */
  ghost predicate CallsMember(captured: set<Name>, e: Expr, vs: seq<Val>, s: State, out: Outcome, s': State)
    requires IsMethodCall(e) && vs != []
    decreases Size(e), 0, 1
  {
    || (out.Gives? && out.value.Prim? && vs[0].Prim? && s' == s)
    || (out.Thrown? && Gets(captured, vs[0], vs[1..], s, Thrown, s'))
    || exists f: Val, s1 :: Gets(captured, vs[0], vs[1..], s, Gives(f), s1) && EvalArgs(captured, e, vs[0], f, s1, out, s')
  }

  ghost predicate EvalArgs(captured: set<Name>, e: Expr, receiver: Val, f: Val, s: State, out: Outcome, s': State)
    requires IsMethodCall(e)
    decreases Size(e), 0, 0
  {
    MethodSmaller(e);
    || (out.Gives? && out.value.Prim? && f.Prim? && s' == s)
    || (out.Thrown? && PartThrows(captured, e.args, false, s, s'))
    || (exists vs: seq<Val>, s1 :: EvalParts(captured, e.args, false, s, vs, true, s1) && Invokes(captured, f, [receiver] + vs, s1, out, s'))
  }

  lemma MethodSmaller(e: Expr)
    requires IsMethodCall(e)
    ensures SizeAll(Parts(e.callee)) < Size(e) && SizeAll(e.args) < Size(e) && Parts(e.callee) != []
  {
    PartsSmaller(e.callee);
  }

  /** Parts in order, up to the end or to one that throws; `some` lets any of them be skipped
      (a conditional's untaken arm). */
  ghost predicate EvalParts(captured: set<Name>, es: seq<Expr>, some: bool, s: State, vs: seq<Val>, ok: bool, s': State)
    decreases SizeAll(es), 3, |es|
  {
    if es == [] then vs == [] && ok && s' == s
    else
      || (some && EvalParts(captured, es[1..], some, s, vs, ok, s'))
      || (!ok && vs == [] && Eval(captured, es[0], s, Thrown, s'))
      || (vs != [] && exists s1 :: Eval(captured, es[0], s, Gives(vs[0]), s1) && EvalParts(captured, es[1..], some, s1, vs[1..], ok, s'))
  }

  // ---------------------------------------------------------------------- statements

  /** One part of a compound statement runs, to its end or to an exception: an expression, a
      nested statement, or a binding. */
  ghost predicate PartRuns(captured: set<Name>, st: Stmt, s: State, s': State)
    requires st.Compound?
    decreases st, 1, 0
  {
    || (exists k, out :: 0 <= k < |st.exprs| && Eval(captured, st.exprs[k], s, out, s'))
    || (exists k, ok :: 0 <= k < |st.stmts| && Runs(captured, st.stmts[k], s, ok, s'))
    || (exists x, v :: x in st.binds && Call(captured, [], s, v, s) && s' == s.(vars := s.vars[x := v]))
  }

  ghost predicate PartsRun(captured: set<Name>, st: Stmt, n: nat, s: State, s': State)
    requires st.Compound?
    decreases st, 1, n + 1
  {
    if n == 0 then s' == s else exists s1 :: PartsRun(captured, st, n - 1, s, s1) && PartRuns(captured, st, s1, s')
  }

  /** A statement may take s to s', completing or throwing. Whatever its control flow, a compound
      statement runs some of its parts some number of times in some order. */
  ghost predicate Runs(captured: set<Name>, st: Stmt, s: State, ok: bool, s': State)
    decreases st, 2
  {
    match st
    case ExprStmt(e) => exists out: Outcome :: Eval(captured, e, s, out, s') && (ok <==> out.Gives?)
    case InitStmt(x, e) =>
      if ok then exists v, s1 :: Eval(captured, e, s, Gives(v), s1) && s' == s1.(vars := s1.vars[x := v]) else Eval(captured, e, s, Thrown, s')
    case DeclStmt(names) => ok && (s' == s || exists x, i: int :: x in names && s' == s.(vars := s.vars[x := Prim(i)]))
    case FuncStmt(x, _, _, _) => ok && exists v, s1 :: Makes(captured, false, [], s, Gives(v), s1) && s' == s1.(vars := s1.vars[x := v])
    case Compound(_, _, _) => exists n: nat :: PartsRun(captured, st, n, s, s')
  }
}
