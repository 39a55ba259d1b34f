// Soundness of the escape analysis: after its allocation, the object of a proved-fresh name is
// referenced by that name alone, as long as the region meets four conditions the analysis
// does not check, and only functions nested in this one can capture the name.
module EscapeSound {
  import opened CfgTypes
  import opened Escape
  import opened EscapeRuns

  /** name holds object o, and nothing else does: no other variable, no property. */
  ghost predicate Isolated(s: State, name: Name, o: Addr) {
    && name in s.vars && s.vars[name] == Ref(o) && o in s.heap && s.heap[o].plain
    && (forall x {:trigger s.vars[x]} :: x in s.vars && x != name ==> s.vars[x] != Ref(o))
    && forall a, k {:trigger s.heap[a].props[k]} :: a in s.heap && k in s.heap[a].props ==> s.heap[a].props[k] != Ref(o)
  }

  // -------------------------------------------- the four conditions, and what Hit gives

  /** No method call has name as its receiver, no class has a heritage expression that hands name
      on, and no pattern assigns name: three uses Hit does not report. (Extending name itself
      throws.) */
  predicate Ordinary(e: Expr, name: Name)
    decreases e, 0
  {
    match e
    case Member(o, p, _) => Ordinary(o, name) && Ordinary(p, name)
    case OptMember(o, p, _) => Ordinary(o, name) && Ordinary(p, name)
    case CallExpr(kind, callee, args) =>
      !(!kind.NewCall? && callee.Member? && callee.obj == Ident(name)) && Ordinary(callee, name) && AllOrdinary(args, name)
    case Assign(t, v) => Ordinary(t, name) && Ordinary(v, name)
    case ArrayLit(es) => AllOrdinary(es, name)
    case ObjectLit(_, keys, values) => AllOrdinary(keys, name) && AllOrdinary(values, name)
    case ClassExpr(h, _, _, _) => h.Some? ==> h.value == Ident(name) || (Hit(h.value, name, false).None? && Ordinary(h.value, name))
    case Destructure(targets, ds, source) => name !in targets && AllOrdinary(ds, name) && Ordinary(source, name)
    case OtherExpr(kids) => AllOrdinary(kids, name)
    case _ => true
  }

  predicate AllOrdinary(es: seq<Expr>, name: Name)
    decreases es, 1
  {
    es == [] || (Ordinary(es[0], name) && AllOrdinary(es[1..], name))
  }

  /** ... and the fourth condition: no statement declares or binds name again. */
  predicate OrdinaryStmt(st: Stmt, name: Name)
    decreases st, 0
  {
    match st
    case ExprStmt(e) => Ordinary(e, name)
    case InitStmt(x, e) => x != name && Ordinary(e, name)
    case DeclStmt(names) => name !in names
    case FuncStmt(x, _, _, _) => x != name
    case Compound(binds, es, ss) => name !in binds && AllOrdinary(es, name) && AllOrdinaryStmts(ss, name)
  }

  predicate AllOrdinaryStmts(ss: seq<Stmt>, name: Name)
    decreases ss, 1
  {
    ss == [] || (OrdinaryStmt(ss[0], name) && AllOrdinaryStmts(ss[1..], name))
  }

  /** Every use of name is as the base of a plain member access, or as a superclass. */
  predicate Tame(e: Expr, name: Name)
    decreases e, 0
  {
    match e
    case Ident(x) => x != name
    case Lit => true
    case Member(o, p, _) => (o == Ident(name) || Tame(o, name)) && Tame(p, name)
    case OptMember(o, p, _) => Tame(o, name) && Tame(p, name)
    case CallExpr(kind, callee, args) =>
      !(!kind.NewCall? && callee.Member? && callee.obj == Ident(name)) && Tame(callee, name) && AllTame(args, name)
    case Assign(t, v) => t != Ident(name) && Tame(t, name) && Tame(v, name)
    case ArrayLit(es) => AllTame(es, name)
    case ObjectLit(_, keys, values) => AllTame(keys, name) && AllTame(values, name)
    case FuncExpr(_, _, _) => true
    case ClassExpr(h, _, _, _) => h.Some? ==> h.value == Ident(name) || Tame(h.value, name)
    case Destructure(targets, ds, source) => name !in targets && AllTame(ds, name) && Tame(source, name)
    case OtherExpr(kids) => AllTame(kids, name)
  }

  predicate AllTame(es: seq<Expr>, name: Name)
    decreases es, 1
  {
    es == [] || (Tame(es[0], name) && AllTame(es[1..], name))
  }

  lemma {:induction false} NoHitIsTame(e: Expr, name: Name, inCall: bool)
    requires Hit(e, name, inCall).None? && Ordinary(e, name)
    ensures Tame(e, name)
    decreases e, 0
  {
    match e
    case Member(o, p, _) =>
      if o != Ident(name) { NoHitIsTame(o, name, inCall); }
      NoHitIsTame(p, name, inCall);
    case OptMember(o, p, _) => NoHitIsTame(o, name, inCall); NoHitIsTame(p, name, inCall);
    case CallExpr(kind, callee, args) => NoHitIsTame(callee, name, inCall || !kind.JsxCall?); NoHitsAreTame(args, name, inCall || !kind.JsxCall?);
    case Assign(t, v) => NoHitIsTame(t, name, inCall); NoHitIsTame(v, name, inCall);
    case ArrayLit(es) => NoHitsAreTame(es, name, inCall);
    case ObjectLit(_, keys, values) => NoHitsAreTame(keys, name, inCall); NoHitsAreTame(values, name, inCall);
    case ClassExpr(h, _, _, _) => if h.Some? && h.value != Ident(name) { NoHitIsTame(h.value, name, false); }
    case Destructure(_, ds, source) => NoHitsAreTame(ds, name, inCall); NoHitIsTame(source, name, inCall);
    case OtherExpr(kids) => NoHitsAreTame(kids, name, inCall);
    case _ =>
  }

  lemma {:induction false} NoHitsAreTame(es: seq<Expr>, name: Name, inCall: bool)
    requires HitAny(es, name, inCall).None? && AllOrdinary(es, name)
    ensures AllTame(es, name)
    decreases es, 1
  {
    if es != [] {
      NoHitIsTame(es[0], name, inCall);
      NoHitsAreTame(es[1..], name, inCall);
    }
  }

  lemma {:induction false} TameAppend(a: seq<Expr>, b: seq<Expr>, name: Name)
    ensures AllTame(a + b, name) <==> AllTame(a, name) && AllTame(b, name)
    decreases |a|
  {
    if a == [] {
      assert a + b == b;
    } else {
      TameAppend(a[1..], b, name);
      assert (a + b)[1..] == a[1..] + b;
    }
  }

  lemma TameOne(e: Expr, name: Name)
    ensures AllTame([e], name) <==> Tame(e, name)
  {
    assert [e][1..] == [];
  }

  // ------------------------------------------------------------ what calls cannot do

  /** An isolated object is out of a call's reach when it is not handed over. */
  lemma {:induction false} OutOfReach(s: State, captured: set<Name>, args: seq<Val>, name: Name, o: Addr, n: nat)
    requires Isolated(s, name, o) && name !in captured && Ref(o) !in args
    ensures !ReachIn(s, captured, args, o, n)
    decreases n
  {
  }

  lemma CallSafe(captured: set<Name>, args: seq<Val>, s: State, v: Val, s': State, name: Name, o: Addr)
    requires Isolated(s, name, o) && name !in captured && Ref(o) !in args && Call(captured, args, s, v, s')
    ensures Isolated(s', name, o) && v != Ref(o)
  {
    forall n: nat ensures !ReachIn(s, captured, args, o, n) { OutOfReach(s, captured, args, name, o, n); }
    assert !CanReach(s, captured, args, o);
    assert name in s'.vars;
    forall x | x in s'.vars && x != name ensures s'.vars[x] != Ref(o) {
      if x in captured { assert Obtainable(s, captured, args, s'.vars[x]); } else { assert x in s.vars; }
    }
    forall a, k | a in s'.heap && k in s'.heap[a].props ensures s'.heap[a].props[k] != Ref(o) {
      if a !in s.heap || CanReach(s, captured, args, a) { assert Obtainable(s, captured, args, s'.heap[a].props[k]); }
      else { assert s'.heap[a] == s.heap[a]; }
    }
  }

  lemma NotObtainable(s: State, captured: set<Name>, args: seq<Val>, v: Val, name: Name, o: Addr)
    requires Isolated(s, name, o) && name !in captured && Ref(o) !in args && Obtainable(s, captured, args, v)
    ensures v != Ref(o)
  {
    forall n: nat ensures !ReachIn(s, captured, args, o, n) { OutOfReach(s, captured, args, name, o, n); }
  }

  lemma EffectSafe(captured: set<Name>, args: seq<Val>, s: State, s': State, name: Name, o: Addr)
    requires Isolated(s, name, o) && name !in captured && Ref(o) !in args && CallEffect(captured, args, s, s')
    ensures Isolated(s', name, o)
  {
    var u :| Call(captured, args, s, u, s');
    CallSafe(captured, args, s, u, s', name, o);
  }

  lemma CodeSafe(captured: set<Name>, args: seq<Val>, s: State, out: Outcome, s': State, name: Name, o: Addr)
    requires Isolated(s, name, o) && name !in captured && Ref(o) !in args && CodeRuns(captured, args, s, out, s')
    ensures Isolated(s', name, o) && out != Gives(Ref(o))
  {
    if out.Gives? { CallSafe(captured, args, s, out.value, s', name, o); } else { EffectSafe(captured, args, s, s', name, o); }
  }

  lemma KeySafe(captured: set<Name>, key: seq<Val>, s: State, s': State, name: Name, o: Addr)
    requires Isolated(s, name, o) && name !in captured && Ref(o) !in key && KeyRuns(captured, key, s, s')
    ensures Isolated(s', name, o)
  {
    if !(key == [] && s' == s) { EffectSafe(captured, key, s, s', name, o); }
  }

  /** Reading a property never yields the object, not even of the object itself. */
  lemma GetSafe(captured: set<Name>, b: Val, key: seq<Val>, s: State, out: Outcome, s': State, name: Name, o: Addr)
    requires Isolated(s, name, o) && name !in captured && Ref(o) !in key && Gets(captured, b, key, s, out, s')
    ensures Isolated(s', name, o) && out != Gives(Ref(o))
  {
    if IsPlain(s, b) {
      KeySafe(captured, key, s, s', name, o);
      if out.Gives? && Obtainable(s', captured, [], out.value) { NotObtainable(s', captured, [], out.value, name, o); }
    } else {
      assert b != Ref(o);
      CodeSafe(captured, [b] + key, s, out, s', name, o);
    }
  }

  lemma PutSafe(captured: set<Name>, b: Val, key: seq<Val>, w: Val, s: State, out: Outcome, s': State, name: Name, o: Addr)
    requires Isolated(s, name, o) && name !in captured && Ref(o) !in key && w != Ref(o) && Puts(captured, b, key, w, s, out, s')
    ensures Isolated(s', name, o) && out != Gives(Ref(o))
  {
    if IsPlain(s, b) {
      var s1 :| KeyRuns(captured, key, s, s1) && (if out.Thrown? then s' == s1 else Stored(s1, b, w, s'));
      KeySafe(captured, key, s, s1, name, o);
      if out.Gives? { StoreSafe(s1, b, w, s', name, o); }
    } else {
      assert b != Ref(o);
      EffectSafe(captured, [b] + key + [w], s, s', name, o);
    }
  }

  lemma StoreSafe(s: State, b: Val, w: Val, s': State, name: Name, o: Addr)
    requires Isolated(s, name, o) && w != Ref(o) && Stored(s, b, w, s')
    ensures Isolated(s', name, o)
  {
    var k :| s' == StoreAt(s, b.at, k, w);
    forall a, j | a in s'.heap && j in s'.heap[a].props ensures s'.heap[a].props[j] != Ref(o) {
      if !(a == b.at && j == k) { assert s'.heap[a].props[j] == s.heap[a].props[j]; }
    }
  }

  lemma MakeSafe(captured: set<Name>, plain: bool, vs: seq<Val>, s: State, out: Outcome, s': State, name: Name, o: Addr)
    requires Isolated(s, name, o) && name !in captured && Ref(o) !in vs && Makes(captured, plain, vs, s, out, s')
    ensures Isolated(s', name, o) && out != Gives(Ref(o))
  {
    if out.Thrown? {
      EffectSafe(captured, vs, s, s', name, o);
    } else {
      var s1, x: Obj :| (s1 == s || CallEffect(captured, vs, s, s1)) && Built(captured, plain, vs, s1, x, out.value, s');
      if s1 != s { EffectSafe(captured, vs, s, s1, name, o); }
      BuildSafe(captured, plain, vs, s1, x, out.value, s', name, o);
    }
  }

  lemma BuildSafe(captured: set<Name>, plain: bool, vs: seq<Val>, s: State, x: Obj, v: Val, s': State, name: Name, o: Addr)
    requires Isolated(s, name, o) && name !in captured && Ref(o) !in vs && Built(captured, plain, vs, s, x, v, s')
    ensures Isolated(s', name, o) && v != Ref(o)
  {
    forall a, k | a in s'.heap && k in s'.heap[a].props ensures s'.heap[a].props[k] != Ref(o) {
      if a == v.at {
        if x.props[k] !in vs { NotObtainable(s, captured, vs, x.props[k], name, o); }
      } else {
        assert s'.heap[a] == s.heap[a];
      }
    }
  }

  // --------------------------------------------------------------------- evaluation

  lemma TameKey(p: Expr, c: bool, name: Name)
    requires Tame(p, name)
    ensures AllTame(Key(p, c), name)
  {
    TameOne(p, name);
  }

  lemma PartsAreTame(e: Expr, name: Name)
    requires Tame(e, name) || e == Ident(name)
    ensures if BaseUse(e, name) then Parts(e) != [] && Parts(e)[0] == Ident(name) && AllTame(Parts(e)[1..], name) else AllTame(Parts(e), name)
  {
    match e
    case Member(o, p, c) =>
      TameKey(p, c, name);
      TameOne(o, name);
      TameAppend([o], Key(p, c), name);
      assert ([o] + Key(p, c))[1..] == Key(p, c);
    case OptMember(o, p, c) =>
      TameKey(p, c, name);
      TameOne(o, name);
      TameAppend([o], Key(p, c), name);
    case CallExpr(_, callee, args) =>
      TameOne(callee, name);
      TameAppend([callee], args, name);
    case Assign(t, v) =>
      TameOne(v, name);
      if t.Member? {
        TameKey(t.prop, t.computed, name);
        TameOne(t.obj, name);
        TameAppend(Key(t.prop, t.computed), [v], name);
        TameAppend([t.obj], Key(t.prop, t.computed) + [v], name);
        assert Parts(e) == [t.obj] + (Key(t.prop, t.computed) + [v]);
        assert Parts(e)[1..] == Key(t.prop, t.computed) + [v];
      } else if !t.Ident? {
        TameOne(t, name);
        TameAppend([t], [v], name);
        assert [t] + [v] == [t, v];
      }
    case ObjectLit(_, keys, values) => TameAppend(keys, values, name);
    case ClassExpr(h, _, _, _) => if h.Some? { TameOne(h.value, name); }
    case Destructure(_, _, source) => TameOne(source, name);
    case _ =>
  }

  /** The three places where name may lead the parts: reading a member, storing one, and being
      extended. */
  predicate BaseUse(e: Expr, name: Name) {
    || (e.Member? && e.obj == Ident(name)) || (e.Assign? && e.target.Member? && e.target.obj == Ident(name))
    || (e.ClassExpr? && e.superClass == Some(Ident(name)))
  }

  /** What a finished part list leaves: only a leading base may be the object. */
  ghost predicate CleanValues(vs: seq<Val>, o: Addr, based: bool) {
    forall k :: 0 <= k < |vs| && (k > 0 || !based) ==> vs[k] != Ref(o)
  }

  lemma FinishSafe(captured: set<Name>, e: Expr, vs: seq<Val>, s1: State, out: Outcome, s': State, name: Name, o: Addr)
    requires Tame(e, name) && name !in captured && Isolated(s1, name, o) && CleanValues(vs, o, BaseUse(e, name))
    requires (e.OtherExpr? || |vs| == |Parts(e)|) && Finishes(captured, e, vs, s1, out, s')
    ensures Isolated(s', name, o) && out != Gives(Ref(o))
  {
    match e
    case Ident(x) => if x !in s1.vars { CodeSafe(captured, [], s1, out, s', name, o); }
    case Lit =>
    case Member(_, _, _) => GetSafe(captured, vs[0], vs[1..], s1, out, s', name, o);
    case OptMember(_, _, _) => GetSafe(captured, vs[0], vs[1..], s1, out, s', name, o);
    case CallExpr(kind, _, _) =>
      if kind == NewCall(true) { MakeSafe(captured, true, vs[1..], s1, out, s', name, o); }
      else if IsCallable(s1, vs[0]) { CodeSafe(captured, vs, s1, out, s', name, o); }
    case Assign(Ident(x), _) =>
    case Assign(Member(_, _, _), _) => PutSafe(captured, vs[0], vs[1..|vs| - 1], vs[|vs| - 1], s1, out, s', name, o);
    case Assign(_, _) => CodeSafe(captured, vs, s1, out, s', name, o);
    case ArrayLit(_) => MakeSafe(captured, true, vs, s1, out, s', name, o);
    case ObjectLit(_, _, _) => MakeSafe(captured, true, vs, s1, out, s', name, o);
    case FuncExpr(_, _, _) => MakeSafe(captured, false, [], s1, out, s', name, o);
    case Destructure(_, _, _) =>
    case ClassExpr(_, _, _, _) => HeritageSafe(captured, e, vs, s1, out, s', name, o);
    case OtherExpr(_) => if !(out.Gives? && out.value in vs && s' == s1) { CodeSafe(captured, vs, s1, out, s', name, o); }
  }

  lemma HeritageSafe(captured: set<Name>, e: Expr, vs: seq<Val>, s1: State, out: Outcome, s': State, name: Name, o: Addr)
    requires e.ClassExpr? && name !in captured && Isolated(s1, name, o) && CleanValues(vs, o, BaseUse(e, name))
    requires |vs| == |Parts(e)| && Finishes(captured, e, vs, s1, out, s')
    ensures Isolated(s', name, o) && out != Gives(Ref(o))
  {
    if !(vs != [] && IsPlain(s1, vs[0])) {
      assert Ref(o) !in vs;
      CodeSafe(captured, vs, s1, out, s', name, o);
    }
  }

  lemma CompletedParts(captured: set<Name>, e: Expr, s: State, out: Outcome, s': State) returns (vs: seq<Val>, s1: State)
    requires Completes(captured, e, s, out, s')
    ensures EvalParts(captured, Parts(e), e.OtherExpr?, s, vs, true, s1) && (e.OtherExpr? || |vs| == |Parts(e)|) && Finishes(captured, e, vs, s1, out, s')
  {
    PartsSmaller(e);
    vs, s1 :| EvalParts(captured, Parts(e), e.OtherExpr?, s, vs, true, s1) && (e.OtherExpr? || |vs| == |Parts(e)|) && Finishes(captured, e, vs, s1, out, s');
  }

  lemma ThrowingParts(captured: set<Name>, es: seq<Expr>, some: bool, s: State, s': State) returns (vs: seq<Val>)
    requires PartThrows(captured, es, some, s, s')
    ensures EvalParts(captured, es, some, s, vs, false, s')
  {
    vs :| EvalParts(captured, es, some, s, vs, false, s');
  }

  /** Evaluating a tame expression keeps the object isolated and never yields it. */
  lemma {:induction false} EvalSafe(captured: set<Name>, e: Expr, s: State, out: Outcome, s': State, name: Name, o: Addr)
    requires Tame(e, name) && name !in captured && Isolated(s, name, o) && Eval(captured, e, s, out, s')
    ensures Isolated(s', name, o) && out != Gives(Ref(o))
    decreases Size(e), 2
  {
    PartsSmaller(e);
    PartsAreTame(e, name);
    if IsMethodCall(e) {
      MethodSafe(captured, e, s, out, s', name, o);
    } else if e.Destructure? {
      PatternSafe(captured, e, s, out, s', name, o);
    } else if Completes(captured, e, s, out, s') {
      var vs, s1 := CompletedParts(captured, e, s, out, s');
      LeadSafe(captured, Parts(e), e.OtherExpr?, BaseUse(e, name), s, vs, true, s1, name, o);
      FinishSafe(captured, e, vs, s1, out, s', name, o);
    } else if out.Thrown? && PartThrows(captured, Parts(e), e.OtherExpr?, s, s') {
      var vs := ThrowingParts(captured, Parts(e), e.OtherExpr?, s, s');
      LeadSafe(captured, Parts(e), e.OtherExpr?, BaseUse(e, name), s, vs, false, s', name, o);
    } else {
      var w: Val :| w.Prim? && Eval(captured, Parts(e)[0], s, Gives(w), s');
      EvalSafe(captured, Parts(e)[0], s, Gives(w), s', name, o);
    }
  }

  /** A pattern that does not assign name has no value at hand that is the object. */
  lemma {:induction false} PatternSafe(captured: set<Name>, e: Expr, s: State, out: Outcome, s': State, name: Name, o: Addr)
    requires e.Destructure? && Tame(e, name) && name !in captured && Isolated(s, name, o) && EvalPattern(captured, e, s, out, s')
    ensures Isolated(s', name, o) && out != Gives(Ref(o))
    decreases Size(e), 1
  {
    if out.Thrown? && Eval(captured, e.source, s, Thrown, s') {
      EvalSafe(captured, e.source, s, Thrown, s', name, o);
    } else {
      var v, s1, n: nat, vs, ok :| Eval(captured, e.source, s, Gives(v), s1) && PatternRuns(captured, e, n, s1, [v], ok, s', vs) && out == (if ok then Gives(v) else Thrown);
      EvalSafe(captured, e.source, s, Gives(v), s1, name, o);
      PatternRunsSafe(captured, e, n, s1, [v], ok, s', vs, name, o);
    }
  }

  lemma LastPatternStep(captured: set<Name>, e: Expr, n: nat, s: State, us: seq<Val>, ok: bool, s': State, vs: seq<Val>) returns (s1: State, ws: seq<Val>)
    requires e.Destructure? && n > 0 && PatternRuns(captured, e, n, s, us, ok, s', vs)
    ensures PatternRuns(captured, e, n - 1, s, us, true, s1, ws) && PatternStep(captured, e, s1, ws, ok, s', vs)
  {
    s1, ws :| PatternRuns(captured, e, n - 1, s, us, true, s1, ws) && PatternStep(captured, e, s1, ws, ok, s', vs);
  }

  lemma {:induction false} PatternRunsSafe(captured: set<Name>, e: Expr, n: nat, s: State, us: seq<Val>, ok: bool, s': State, vs: seq<Val>, name: Name, o: Addr)
    requires e.Destructure? && Tame(e, name) && name !in captured && Isolated(s, name, o) && Ref(o) !in us && PatternRuns(captured, e, n, s, us, ok, s', vs)
    ensures Isolated(s', name, o) && Ref(o) !in vs
    decreases Size(e), 0, n + 1
  {
    if n > 0 {
      var s1, ws := LastPatternStep(captured, e, n, s, us, ok, s', vs);
      PatternRunsSafe(captured, e, n - 1, s, us, true, s1, ws, name, o);
      PatternStepSafe(captured, e, s1, ws, ok, s', vs, name, o);
    }
  }

  lemma DefaultStep(captured: set<Name>, e: Expr, s: State, us: seq<Val>, ok: bool, s': State, vs: seq<Val>) returns (k: nat, out: Outcome)
    requires e.Destructure? && StepDefault(captured, e, s, us, ok, s', vs)
    ensures k < |e.defaults| && Eval(captured, e.defaults[k], s, out, s') && Joins(us, out, ok, vs)
  {
    k, out :| k < |e.defaults| && DefaultRuns(captured, e, k, s, out, s') && Joins(us, out, ok, vs);
  }

  lemma {:induction false} PatternStepSafe(captured: set<Name>, e: Expr, s: State, us: seq<Val>, ok: bool, s': State, vs: seq<Val>, name: Name, o: Addr)
    requires e.Destructure? && Tame(e, name) && name !in captured && Isolated(s, name, o) && Ref(o) !in us && PatternStep(captured, e, s, us, ok, s', vs)
    ensures Isolated(s', name, o) && Ref(o) !in vs
    decreases Size(e), 0, 0
  {
    if StepDefault(captured, e, s, us, ok, s', vs) {
      var k, out := DefaultStep(captured, e, s, us, ok, s', vs);
      SizeAt(e.defaults, k);
      TameAt(e.defaults, name, k);
      EvalSafe(captured, e.defaults[k], s, out, s', name, o);
    } else if StepRead(captured, s, us, ok, s', vs) {
      var b: Val, out: Outcome :| b in us && Gets(captured, b, [], s, out, s') && Joins(us, out, ok, vs);
      GetSafe(captured, b, [], s, out, s', name, o);
    } else if StepCode(captured, s, us, ok, s', vs) {
      var out: Outcome :| CodeRuns(captured, us, s, out, s') && Joins(us, out, ok, vs);
      CodeSafe(captured, us, s, out, s', name, o);
    } else if StepRest(captured, s, us, ok, s', vs) {
      var out: Outcome :| Makes(captured, true, us, s, out, s') && Joins(us, out, ok, vs);
      MakeSafe(captured, true, us, s, out, s', name, o);
    } else {
      var x, w: Val :| x in e.targets && (w.Prim? || w in us) && s' == s.(vars := s.vars[x := w]);
    }
  }

  lemma {:induction false} MethodSafe(captured: set<Name>, e: Expr, s: State, out: Outcome, s': State, name: Name, o: Addr)
    requires IsMethodCall(e) && Tame(e, name) && name !in captured && Isolated(s, name, o) && EvalMethod(captured, e, s, out, s')
    ensures Isolated(s', name, o) && out != Gives(Ref(o))
    decreases Size(e), 1
  {
    MethodSmaller(e);
    PartsAreTame(e.callee, name);
    if out.Thrown? && PartThrows(captured, Parts(e.callee), false, s, s') {
      var vs := ThrowingParts(captured, Parts(e.callee), false, s, s');
      EvalPartsSafe(captured, Parts(e.callee), false, s, vs, false, s', name, o);
    } else {
      var vs: seq<Val>, s1 :| EvalParts(captured, Parts(e.callee), false, s, vs, true, s1) && |vs| == |Parts(e.callee)| && CallsMember(captured, e, vs, s1, out, s');
      EvalPartsSafe(captured, Parts(e.callee), false, s, vs, true, s1, name, o);
      MemberSafe(captured, e, vs, s1, out, s', name, o);
    }
  }

  lemma {:induction false} MemberSafe(captured: set<Name>, e: Expr, vs: seq<Val>, s: State, out: Outcome, s': State, name: Name, o: Addr)
    requires IsMethodCall(e) && Tame(e, name) && name !in captured && Isolated(s, name, o) && vs != [] && CleanValues(vs, o, false)
    requires CallsMember(captured, e, vs, s, out, s')
    ensures Isolated(s', name, o) && out != Gives(Ref(o))
    decreases Size(e), 0, 1
  {
    if out.Gives? && out.value.Prim? && vs[0].Prim? && s' == s {
    } else if out.Thrown? && Gets(captured, vs[0], vs[1..], s, Thrown, s') {
      GetSafe(captured, vs[0], vs[1..], s, Thrown, s', name, o);
    } else {
      var f: Val, s1 :| Gets(captured, vs[0], vs[1..], s, Gives(f), s1) && EvalArgs(captured, e, vs[0], f, s1, out, s');
      GetSafe(captured, vs[0], vs[1..], s, Gives(f), s1, name, o);
      ArgsSafe(captured, e, vs[0], f, s1, out, s', name, o);
    }
  }

  lemma {:induction false} ArgsSafe(captured: set<Name>, e: Expr, receiver: Val, f: Val, s: State, out: Outcome, s': State, name: Name, o: Addr)
    requires IsMethodCall(e) && Tame(e, name) && name !in captured && Isolated(s, name, o) && receiver != Ref(o) && EvalArgs(captured, e, receiver, f, s, out, s')
    ensures Isolated(s', name, o) && out != Gives(Ref(o))
    decreases Size(e), 0, 0
  {
    MethodSmaller(e);
    if out.Gives? && out.value.Prim? && f.Prim? && s' == s {
    } else if out.Thrown? && PartThrows(captured, e.args, false, s, s') {
      var vs := ThrowingParts(captured, e.args, false, s, s');
      EvalPartsSafe(captured, e.args, false, s, vs, false, s', name, o);
    } else {
      var vs: seq<Val>, s1 :| EvalParts(captured, e.args, false, s, vs, true, s1) && Invokes(captured, f, [receiver] + vs, s1, out, s');
      EvalPartsSafe(captured, e.args, false, s, vs, true, s1, name, o);
      if IsCallable(s1, f) { CodeSafe(captured, [receiver] + vs, s1, out, s', name, o); }
    }
  }

  /** Parts whose first one may be name itself. */
  lemma {:induction false} LeadSafe(captured: set<Name>, es: seq<Expr>, some: bool, based: bool, s: State, vs: seq<Val>, ok: bool, s': State, name: Name, o: Addr)
    requires if based then es != [] && es[0] == Ident(name) && AllTame(es[1..], name) && !some else AllTame(es, name)
    requires name !in captured && Isolated(s, name, o) && EvalParts(captured, es, some, s, vs, ok, s')
    ensures Isolated(s', name, o) && CleanValues(vs, o, based)
    decreases SizeAll(es), 4
  {
    if !based {
      EvalPartsSafe(captured, es, some, s, vs, ok, s', name, o);
    } else if !ok && vs == [] && Eval(captured, es[0], s, Thrown, s') {
      IdentKeepsState(captured, name, s, Thrown, s');
    } else {
      var s1 :| Eval(captured, es[0], s, Gives(vs[0]), s1) && EvalParts(captured, es[1..], some, s1, vs[1..], ok, s');
      IdentKeepsState(captured, name, s, Gives(vs[0]), s1);
      EvalPartsSafe(captured, es[1..], some, s1, vs[1..], ok, s', name, o);
    }
  }

  lemma {:induction false} EvalPartsSafe(captured: set<Name>, es: seq<Expr>, some: bool, s: State, vs: seq<Val>, ok: bool, s': State, name: Name, o: Addr)
    requires AllTame(es, name) && name !in captured && Isolated(s, name, o) && EvalParts(captured, es, some, s, vs, ok, s')
    ensures Isolated(s', name, o) && CleanValues(vs, o, false)
    decreases SizeAll(es), 3, |es|
  {
    if es == [] {
    } else if some && EvalParts(captured, es[1..], some, s, vs, ok, s') {
      EvalPartsSafe(captured, es[1..], some, s, vs, ok, s', name, o);
    } else if !ok && vs == [] && Eval(captured, es[0], s, Thrown, s') {
      EvalSafe(captured, es[0], s, Thrown, s', name, o);
    } else {
      var s1 :| Eval(captured, es[0], s, Gives(vs[0]), s1) && EvalParts(captured, es[1..], some, s1, vs[1..], ok, s');
      EvalSafe(captured, es[0], s, Gives(vs[0]), s1, name, o);
      EvalPartsSafe(captured, es[1..], some, s1, vs[1..], ok, s', name, o);
    }
  }

  lemma IdentKeepsState(captured: set<Name>, x: Name, s: State, out: Outcome, s': State)
    requires x in s.vars && Eval(captured, Ident(x), s, out, s')
    ensures s' == s
  {
    assert Parts(Ident(x)) == [];
    if Completes(captured, Ident(x), s, out, s') { var vs, s1 := CompletedParts(captured, Ident(x), s, out, s'); }
    else { var vs := ThrowingParts(captured, [], false, s, s'); }
  }

  // --------------------------------------------------------------------- statements

  lemma UnhitSafe(captured: set<Name>, e: Expr, s: State, out: Outcome, s': State, name: Name, o: Addr)
    requires Hit(e, name, false).None? && Ordinary(e, name) && name !in captured && Isolated(s, name, o) && Eval(captured, e, s, out, s')
    ensures Isolated(s', name, o) && out != Gives(Ref(o))
  {
    NoHitIsTame(e, name, false);
    EvalSafe(captured, e, s, out, s', name, o);
  }

  /** A statement whose uses of name are all refused-free and ordinary keeps it isolated,
      whether it completes or throws. */
  lemma {:induction false} RunSafe(captured: set<Name>, st: Stmt, s: State, ok: bool, s': State, name: Name, o: Addr)
    requires HitStmt(st, name).None? && OrdinaryStmt(st, name) && name !in captured && Isolated(s, name, o) && Runs(captured, st, s, ok, s')
    ensures Isolated(s', name, o)
    decreases st, 2
  {
    match st
    case ExprStmt(e) =>
      var out: Outcome :| Eval(captured, e, s, out, s') && (ok <==> out.Gives?);
      UnhitSafe(captured, e, s, out, s', name, o);
    case InitStmt(x, e) =>
      if ok {
        var v, s1 :| Eval(captured, e, s, Gives(v), s1) && s' == s1.(vars := s1.vars[x := v]);
        UnhitSafe(captured, e, s, Gives(v), s1, name, o);
      } else {
        UnhitSafe(captured, e, s, Thrown, s', name, o);
      }
    case DeclStmt(names) =>
    case FuncStmt(x, _, _, _) =>
      var v, s1 :| Makes(captured, false, [], s, Gives(v), s1) && s' == s1.(vars := s1.vars[x := v]);
      MakeSafe(captured, false, [], s, Gives(v), s1, name, o);
    case Compound(_, _, _) =>
      var n: nat :| PartsRun(captured, st, n, s, s');
      PartsRunSafe(captured, st, n, s, s', name, o);
  }

  lemma {:induction false} PartsRunSafe(captured: set<Name>, st: Stmt, n: nat, s: State, s': State, name: Name, o: Addr)
    requires st.Compound? && HitStmt(st, name).None? && OrdinaryStmt(st, name) && name !in captured && Isolated(s, name, o) && PartsRun(captured, st, n, s, s')
    ensures Isolated(s', name, o)
    decreases st, 1, n + 1
  {
    if n > 0 {
      var s1 :| PartsRun(captured, st, n - 1, s, s1) && PartRuns(captured, st, s1, s');
      PartsRunSafe(captured, st, n - 1, s, s1, name, o);
      PartRunSafe(captured, st, s1, s', name, o);
    }
  }

  lemma {:induction false} PartRunSafe(captured: set<Name>, st: Stmt, s: State, s': State, name: Name, o: Addr)
    requires st.Compound? && HitStmt(st, name).None? && OrdinaryStmt(st, name) && name !in captured && Isolated(s, name, o) && PartRuns(captured, st, s, s')
    ensures Isolated(s', name, o)
    decreases st, 1, 0
  {
    if k, out :| 0 <= k < |st.exprs| && Eval(captured, st.exprs[k], s, out, s') {
      NoHitsAreTame(st.exprs, name, false);
      TameAt(st.exprs, name, k);
      EvalSafe(captured, st.exprs[k], s, out, s', name, o);
    } else if k, ok :| 0 <= k < |st.stmts| && Runs(captured, st.stmts[k], s, ok, s') {
      StmtAt(st.stmts, name, k);
      RunSafe(captured, st.stmts[k], s, ok, s', name, o);
    } else {
      var x, v :| x in st.binds && Call(captured, [], s, v, s) && s' == s.(vars := s.vars[x := v]);
      CallSafe(captured, [], s, v, s, name, o);
    }
  }

  lemma {:induction false} TameAt(es: seq<Expr>, name: Name, k: nat)
    requires AllTame(es, name) && k < |es|
    ensures Tame(es[k], name)
    decreases |es|
  {
    if k > 0 { TameAt(es[1..], name, k - 1); }
  }

  lemma {:induction false} StmtAt(ss: seq<Stmt>, name: Name, k: nat)
    requires HitStmts(ss, name).None? && AllOrdinaryStmts(ss, name) && k < |ss|
    ensures HitStmt(ss[k], name).None? && OrdinaryStmt(ss[k], name)
    decreases |ss|
  {
    if k > 0 { StmtAt(ss[1..], name, k - 1); }
  }

  // ---------------------------------------------------------------------- the region

  /** Statement k runs, completing or throwing. */
  ghost predicate RunsAt(captured: set<Name>, body: seq<Stmt>, k: nat, s: State, s': State) {
    k < |body| && exists ok :: Runs(captured, body[k], s, ok, s')
  }

  /** n statements from `from` on run one after the other. */
  ghost predicate RunsFrom(captured: set<Name>, body: seq<Stmt>, from: nat, n: nat, s: State, s': State)
    decreases n
  {
    if n == 0 then s' == s
    else
      var last := from + n - 1;
      exists s1 :: RunsFrom(captured, body, from, n - 1, s, s1) && RunsAt(captured, body, last, s1, s')
  }

  lemma FreshValue(captured: set<Name>, e: Expr, s: State, v: Val, s1: State, name: Name, s': State)
    requires IsFreshAlloc(e) && Eval(captured, e, s, Gives(v), s1) && s' == s1.(vars := s1.vars[name := v])
    ensures v.Ref? && Isolated(s', name, v.at)
  {
    PartsSmaller(e);
    var vs, s0 := CompletedParts(captured, e, s, Gives(v), s1);
    var us := if e.CallExpr? then vs[1..] else vs;
    assert Makes(captured, true, us, s0, Gives(v), s1);
    var s2, x: Obj :| (s2 == s0 || CallEffect(captured, us, s0, s2)) && Built(captured, true, us, s2, x, v, s1);
    forall a, k | a in s'.heap && k in s'.heap[a].props ensures s'.heap[a].props[k] != v {
      if a != v.at { assert s'.heap[a] == s2.heap[a]; }
    }
  }

  /** A fresh allocation that completes leaves its name the only reference to a new object. */
  lemma AllocationIsolates(captured: set<Name>, st: Stmt, s: State, s': State, name: Name) returns (o: Addr)
    requires Allocates(st, name) && Runs(captured, st, s, true, s')
    ensures Isolated(s', name, o)
  {
    var e := AssignedName(st).value.1;
    if st.InitStmt? {
      var v, s1 :| Eval(captured, e, s, Gives(v), s1) && s' == s1.(vars := s1.vars[name := v]);
      FreshValue(captured, e, s, v, s1, name, s');
      o := v.at;
    } else {
      var out: Outcome :| Eval(captured, Assign(Ident(name), e), s, out, s') && out.Gives?;
      var v, s1 := AssignedValue(captured, name, e, s, out, s');
      FreshValue(captured, e, s, v, s1, name, s');
      o := v.at;
    }
  }

  /** name = e, once completed, evaluated e. */
  lemma AssignedValue(captured: set<Name>, name: Name, e: Expr, s: State, out: Outcome, s': State) returns (v: Val, s1: State)
    requires Eval(captured, Assign(Ident(name), e), s, out, s') && out.Gives?
    ensures Eval(captured, e, s, Gives(v), s1) && s' == s1.(vars := s1.vars[name := v])
  {
    var whole := Assign(Ident(name), e);
    assert Parts(whole) == [e] && [e][1..] == [];
    var vs, s2 := CompletedParts(captured, whole, s, out, s');
    var s3 :| Eval(captured, [e][0], s, Gives(vs[0]), s3) && EvalParts(captured, [e][1..], false, s3, vs[1..], true, s2);
    v, s1 := vs[0], s3;
  }

  // ------------------------------------------------ what patterns of functions assign

  /** The names that patterns inside nested functions and classes assign: captures that
      mentionsName does not see. */
  function Patterned(e: Expr): set<Name>
    decreases e, 0
  {
    match e
    case Ident(_) => {}
    case Lit => {}
    case Member(b, p, _) => Patterned(b) + Patterned(p)
    case OptMember(b, p, _) => Patterned(b) + Patterned(p)
    case CallExpr(_, callee, args) => Patterned(callee) + PatternedAll(args)
    case Assign(t, v) => Patterned(t) + Patterned(v)
    case ArrayLit(es) => PatternedAll(es)
    case ObjectLit(_, keys, values) => PatternedAll(keys) + PatternedAll(values)
    case FuncExpr(_, _, patterns) => patterns
    case ClassExpr(h, _, _, patterns) => patterns + if h.Some? then Patterned(h.value) else {}
    case Destructure(_, ds, source) => PatternedAll(ds) + Patterned(source)
    case OtherExpr(kids) => PatternedAll(kids)
  }

  function PatternedAll(es: seq<Expr>): set<Name>
    decreases es, 1
  {
    if es == [] then {} else Patterned(es[0]) + PatternedAll(es[1..])
  }

  function PatternedStmt(st: Stmt): set<Name>
    decreases st, 0
  {
    match st
    case ExprStmt(e) => Patterned(e)
    case InitStmt(_, v) => Patterned(v)
    case DeclStmt(_) => {}
    case FuncStmt(_, _, _, patterns) => patterns
    case Compound(_, es, ss) => PatternedAll(es) + PatternedStmts(ss)
  }

  function PatternedStmts(ss: seq<Stmt>): set<Name>
    decreases ss, 1
  {
    if ss == [] then {} else PatternedStmt(ss[0]) + PatternedStmts(ss[1..])
  }

  /** The region's statements meet the four conditions for name. */
  ghost predicate RegionOrdinary(body: seq<Stmt>, at: nat, end: nat, name: Name)
    requires end <= |body|
  {
    forall i {:trigger OrdinaryStmt(body[i], name)} :: at < i < end ==> OrdinaryStmt(body[i], name)
  }

  lemma {:induction false} RegionSafe(captured: set<Name>, body: seq<Stmt>, at: nat, n: nat, end: nat, s: State, s': State, name: Name, o: Addr)
    requires at + n < end <= |body| && NoHit(body, at, end, name) && RegionOrdinary(body, at, end, name) && name !in captured
    requires Isolated(s, name, o) && RunsFrom(captured, body, at + 1, n, s, s')
    ensures Isolated(s', name, o)
    decreases n
  {
    if n > 0 {
      var last := at + 1 + n - 1;
      var s1 :| RunsFrom(captured, body, at + 1, n - 1, s, s1) && RunsAt(captured, body, last, s1, s');
      RegionSafe(captured, body, at, n - 1, end, s, s1, name, o);
      assert HitStmt(body[last], name).None? && OrdinaryStmt(body[last], name);
      var ok :| Runs(captured, body[last], s1, ok, s');
      RunSafe(captured, body[last], s1, ok, s', name, o);
    }
  }

  /** Only functions of this body and of outer can capture name: it is declared in the function
      they make up. `captured` is what any function of the program captures. */
  ghost predicate LocalName(captured: set<Name>, body: seq<Stmt>, outer: seq<Stmt>, name: Name) {
    name in captured ==> name in CapturedStmts(outer) + CapturedStmts(body) + PatternedStmts(outer) + PatternedStmts(body)
  }

  /** In every run that completes the allocation of a proved-fresh name, from any state before
      it, and then any number of the region's statements: the object it made is referenced by
      that name alone. */
  lemma FreshObjectStaysIsolated(captured: set<Name>, body: seq<Stmt>, lo: nat, end: nat, outer: seq<Stmt>, name: Name, at: nat, n: nat,
                                 before: State, s: State, s': State) returns (o: Addr)
    requires end <= |body| && IsFresh(body, lo, end, outer, name, at) && at + n < end && RegionOrdinary(body, at, end, name)
    requires LocalName(captured, body, outer, name) && name !in PatternedStmts(outer) + PatternedStmts(body)
    requires Runs(captured, body[at], before, true, s) && RunsFrom(captured, body, at + 1, n, s, s')
    ensures Isolated(s, name, o) && Isolated(s', name, o)
  {
    o := AllocationIsolates(captured, body[at], before, s, name);
    RegionSafe(captured, body, at, n, end, s, s', name, o);
  }
}
