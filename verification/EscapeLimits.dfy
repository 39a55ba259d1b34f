// One region for each condition of the soundness theorem: the analysis proves the name fresh,
// and a complete run of the region takes the object away from it. In each, h is a function
// outside the region that stores what it is handed into the variable g.
module EscapeLimits {
  import opened CfgTypes
  import opened Escape
  import opened EscapeRuns
  import opened EscapeSound

  const OUTER: seq<Stmt> := [FuncStmt("h", {"g"}, {}, {})]
  const ALLOC: Stmt := InitStmt("n", ObjectLit(false, [], []))
  const FIELD: Expr := Member(Ident("n"), Lit, false)
  const READ: Stmt := ExprStmt(FIELD)

  const FUNCTION := Obj(false, map[])
  const BEFORE: State := State(map["h" := Ref(1), "g" := Prim(0)], map[1 := FUNCTION])
  const ALONE: State := State(map["h" := Ref(1), "g" := Prim(0), "n" := Ref(0)], map[1 := FUNCTION, 0 := Obj(true, map[])])
  const HOLDING: State := ALONE.(heap := ALONE.heap[0 := Obj(true, map["f" := Ref(1)])])

  function Shared(s: State): State {
    s.(vars := s.vars["g" := Ref(0)])
  }

  /** The three statements run to completion one after the other, and only the last one lets
      the object of n go. */
  ghost predicate LastOneLosesIt(body: seq<Stmt>, s1: State, s2: State, s3: State) {
    && |body| == 3 && Runs({"g"}, body[0], BEFORE, true, s1) && Runs({"g"}, body[1], s1, true, s2) && Runs({"g"}, body[2], s2, true, s3)
    && Isolated(s1, "n", 0) && Isolated(s2, "n", 0) && !Isolated(s3, "n", 0)
  }

  ghost predicate Verdict(body: seq<Stmt>) {
    IsFresh(body, 0, |body|, OUTER, "n", 0) && CapturedStmts(OUTER) + CapturedStmts(body) == {"g"}
  }

  /** What the analysis makes of the three statements. */
  lemma ProvedFresh(body: seq<Stmt>, use: Stmt, last: Stmt)
    requires body == [ALLOC, use, last] && CapturedStmt(use) == {} && CapturedStmt(last) == {} && "n" in BasesStmt(use)
    requires HitStmt(use, "n").None? && !Allocates(use, "n") && HitStmt(last, "n").None? && !Allocates(last, "n")
    ensures Verdict(body)
  {
    assert OUTER[1..] == [];
    assert CapturedStmts(OUTER) == {"g"};
    assert body[1..] == [use, last] && [use, last][1..] == [last] && [last][1..] == [];
    assert CapturedStmts([last]) == {} && CapturedStmts([use, last]) == {};
    assert CapturedStmts(body) == CapturedStmt(ALLOC) + CapturedStmts([use, last]);
    assert body[0..3] == body;
    assert BasesStmts(body) == BasesStmt(ALLOC) + BasesStmts([use, last]);
    assert BasesStmts([use, last]) == BasesStmt(use) + BasesStmts([last]);
    forall i | 0 < i < 3 ensures HitStmt(body[i], "n").None? && !Allocates(body[i], "n") {
      assert body[i] == use || body[i] == last;
    }
  }

  // ---------------------------------------------------------------- pieces of the runs

  lemma Isolations()
    ensures Isolated(ALONE, "n", 0) && Isolated(HOLDING, "n", 0)
    ensures forall s: State {:trigger Shared(s)} :: !Isolated(Shared(s), "n", 0)
  {
    forall s: State ensures !Isolated(Shared(s), "n", 0) { assert Shared(s).vars["g"] == Ref(0); }
  }

  lemma PartsDone(captured: set<Name>, e: Expr, es: seq<Expr>, s: State, v: Val, s1: State, vs: seq<Val>, s2: State)
    requires Eval(captured, e, s, Gives(v), s1) && EvalParts(captured, es, false, s1, vs, true, s2)
    ensures EvalParts(captured, [e] + es, false, s, [v] + vs, true, s2)
  {
    var all, values := [e] + es, [v] + vs;
    assert all[0] == e && all[1..] == es && values[0] == v && values[1..] == vs;
  }

  lemma Finished(captured: set<Name>, e: Expr, s: State, vs: seq<Val>, s1: State, out: Outcome, s': State)
    requires !IsMethodCall(e) && !e.OtherExpr? && |vs| == |Parts(e)| && EvalParts(captured, Parts(e), false, s, vs, true, s1)
    requires Finishes(captured, e, vs, s1, out, s')
    ensures Eval(captured, e, s, out, s')
  {
    PartsSmaller(e);
    assert Completes(captured, e, s, out, s');
  }

  lemma VariableRead(captured: set<Name>, x: Name, s: State)
    requires x in s.vars
    ensures Eval(captured, Ident(x), s, Gives(s.vars[x]), s)
  {
    Finished(captured, Ident(x), s, [], s, Gives(s.vars[x]), s);
  }

  lemma OneRead(captured: set<Name>, x: Name, s: State)
    requires x in s.vars
    ensures EvalParts(captured, [Ident(x)], false, s, [s.vars[x]], true, s)
  {
    VariableRead(captured, x, s);
    PartsDone(captured, Ident(x), [], s, s.vars[x], s, [], s);
    assert [Ident(x)] == [Ident(x)] + [] && [s.vars[x]] == [s.vars[x]] + [];
  }

  lemma TwoReads(captured: set<Name>, x: Name, y: Name, s: State)
    requires x in s.vars && y in s.vars
    ensures EvalParts(captured, [Ident(x), Ident(y)], false, s, [s.vars[x], s.vars[y]], true, s)
  {
    VariableRead(captured, x, s);
    OneRead(captured, y, s);
    PartsDone(captured, Ident(x), [Ident(y)], s, s.vars[x], s, [s.vars[y]], s);
    assert [Ident(x), Ident(y)] == [Ident(x)] + [Ident(y)] && [s.vars[x], s.vars[y]] == [s.vars[x]] + [s.vars[y]];
  }

  lemma AllocationRuns()
    ensures Runs({"g"}, ALLOC, BEFORE, true, ALONE)
  {
    var made := BEFORE.(heap := BEFORE.heap[0 := Obj(true, map[])]);
    assert Built({"g"}, true, [], BEFORE, Obj(true, map[]), Ref(0), made);
    assert Makes({"g"}, true, [], BEFORE, Gives(Ref(0)), made);
    Finished({"g"}, ObjectLit(false, [], []), BEFORE, [], BEFORE, Gives(Ref(0)), made);
    assert ALONE == made.(vars := made.vars["n" := Ref(0)]);
  }

  lemma ReadRuns()
    ensures Runs({"g"}, READ, ALONE, true, ALONE)
  {
    OneRead({"g"}, "n", ALONE);
    assert Parts(FIELD) == [Ident("n")];
    Finished({"g"}, FIELD, ALONE, [Ref(0)], ALONE, Gives(Prim(0)), ALONE);
  }

  /** h, handed the object, puts it into g. */
  lemma CallShares(args: seq<Val>, s: State)
    requires Ref(0) in args && s in {ALONE, HOLDING} && (forall k :: 0 <= k < |args| ==> args[k] in {Ref(0), Ref(1)})
    ensures Call({"g"}, args, s, Prim(0), Shared(s))
  {
    assert ReachIn(s, {"g"}, args, 0, 0);
    assert CanReach(s, {"g"}, args, 0);
    if s == HOLDING {
      assert s.heap[0].props["f"] == Ref(1);
      assert ReachIn(s, {"g"}, args, 1, 1);
      assert CanReach(s, {"g"}, args, 1);
    }
  }

  // --------------------------------------------------------------- a method call

  const STORE: Stmt := ExprStmt(Assign(FIELD, Ident("h")))
  const METHOD_CALL: Expr := CallExpr(PlainCall, FIELD, [])

  lemma FieldIsStored()
    ensures Puts({"g"}, Ref(0), [], Ref(1), ALONE, Gives(Ref(1)), HOLDING)
  {
    assert HOLDING == StoreAt(ALONE, 0, "f", Ref(1));
    assert Stored(ALONE, Ref(0), Ref(1), HOLDING);
    assert KeyRuns({"g"}, [], ALONE, ALONE);
  }

  lemma StoreRuns()
    ensures Runs({"g"}, STORE, ALONE, true, HOLDING)
  {
    var e := Assign(FIELD, Ident("h"));
    TwoReads({"g"}, "n", "h", ALONE);
    assert Parts(e) == [Ident("n"), Ident("h")];
    var vs := [Ref(0), Ref(1)];
    assert vs[1..|vs| - 1] == [];
    FieldIsStored();
    Finished({"g"}, e, ALONE, vs, ALONE, Gives(Ref(1)), HOLDING);
  }

  lemma MethodCallRuns()
    ensures Runs({"g"}, ExprStmt(METHOD_CALL), HOLDING, true, Shared(HOLDING))
  {
    OneRead({"g"}, "n", HOLDING);
    assert Parts(FIELD) == [Ident("n")];
    assert HOLDING.heap[0].props["f"] == Ref(1);
    assert Gets({"g"}, Ref(0), [], HOLDING, Gives(Ref(1)), HOLDING);
    MethodSmaller(METHOD_CALL);
    CallShares([Ref(0)] + [], HOLDING);
    assert EvalParts({"g"}, [], false, HOLDING, [], true, HOLDING);
    assert Invokes({"g"}, Ref(1), [Ref(0)] + [], HOLDING, Gives(Prim(0)), Shared(HOLDING));
    assert EvalArgs({"g"}, METHOD_CALL, Ref(0), Ref(1), HOLDING, Gives(Prim(0)), Shared(HOLDING));
    assert CallsMember({"g"}, METHOD_CALL, [Ref(0)], HOLDING, Gives(Prim(0)), Shared(HOLDING));
    assert EvalMethod({"g"}, METHOD_CALL, HOLDING, Gives(Prim(0)), Shared(HOLDING));
    PartsSmaller(METHOD_CALL);
  }

  lemma MethodVerdict()
    ensures Verdict([ALLOC, STORE, ExprStmt(METHOD_CALL)])
  {
    assert HitAny([], "n", true).None?;
    assert HitStmt(STORE, "n").None? && CapturedStmt(STORE) == {};
    assert HitStmt(ExprStmt(METHOD_CALL), "n").None? && CapturedStmt(ExprStmt(METHOD_CALL)) == {};
    ProvedFresh([ALLOC, STORE, ExprStmt(METHOD_CALL)], STORE, ExprStmt(METHOD_CALL));
  }

  /** n.f = h; n.f(): the call hands the object to h as the receiver. */
  lemma MethodCallEscapes()
    ensures var body := [ALLOC, STORE, ExprStmt(METHOD_CALL)];
      Verdict(body) && LastOneLosesIt(body, ALONE, HOLDING, Shared(HOLDING))
  {
    MethodVerdict();
    Isolations();
    AllocationRuns();
    StoreRuns();
    MethodCallRuns();
  }

  // ------------------------------------------------ the same call, shown as an element

  const JSX_CALL: Expr := CallExpr(JsxCall, FIELD, [Lit, Lit])

  lemma LiteralValue(s: State)
    ensures Eval({"g"}, Lit, s, Gives(Prim(0)), s)
  {
    Finished({"g"}, Lit, s, [], s, Gives(Prim(0)), s);
  }

  lemma TwoLiterals(s: State)
    ensures EvalParts({"g"}, [Lit, Lit], false, s, [Prim(0), Prim(0)], true, s)
  {
    LiteralValue(s);
    assert EvalParts({"g"}, [], false, s, [], true, s);
    PartsDone({"g"}, Lit, [], s, Prim(0), s, [], s);
    assert [Lit] == [Lit] + [] && [Prim(0)] == [Prim(0)] + [];
    PartsDone({"g"}, Lit, [Lit], s, Prim(0), s, [Prim(0)], s);
    assert [Lit, Lit] == [Lit] + [Lit] && [Prim(0), Prim(0)] == [Prim(0)] + [Prim(0)];
  }

  lemma JsxShares()
    ensures Invokes({"g"}, Ref(1), [Ref(0)] + [Prim(0), Prim(0)], HOLDING, Gives(Prim(0)), Shared(HOLDING))
  {
    var args := [Ref(0)] + [Prim(0), Prim(0)];
    assert args[0] == Ref(0);
    assert ReachIn(HOLDING, {"g"}, args, 0, 0);
    assert CanReach(HOLDING, {"g"}, args, 0);
    assert HOLDING.heap[0].props["f"] == Ref(1);
    assert ReachIn(HOLDING, {"g"}, args, 1, 1);
    assert CanReach(HOLDING, {"g"}, args, 1);
  }

  lemma JsxCallRuns()
    ensures Runs({"g"}, ExprStmt(JSX_CALL), HOLDING, true, Shared(HOLDING))
  {
    OneRead({"g"}, "n", HOLDING);
    assert Parts(FIELD) == [Ident("n")];
    assert HOLDING.heap[0].props["f"] == Ref(1);
    assert Gets({"g"}, Ref(0), [], HOLDING, Gives(Ref(1)), HOLDING);
    MethodSmaller(JSX_CALL);
    TwoLiterals(HOLDING);
    JsxShares();
    assert EvalArgs({"g"}, JSX_CALL, Ref(0), Ref(1), HOLDING, Gives(Prim(0)), Shared(HOLDING));
    assert CallsMember({"g"}, JSX_CALL, [Ref(0)], HOLDING, Gives(Prim(0)), Shared(HOLDING));
    assert EvalMethod({"g"}, JSX_CALL, HOLDING, Gives(Prim(0)), Shared(HOLDING));
    PartsSmaller(JSX_CALL);
  }

  lemma JsxVerdict()
    ensures Verdict([ALLOC, STORE, ExprStmt(JSX_CALL)])
  {
    assert [Lit, Lit][1..] == [Lit] && [Lit][1..] == [];
    assert HitAny([Lit, Lit], "n", false).None? && CapturedAll([Lit, Lit]) == {};
    assert HitStmt(STORE, "n").None? && CapturedStmt(STORE) == {};
    assert HitStmt(ExprStmt(JSX_CALL), "n").None? && CapturedStmt(ExprStmt(JSX_CALL)) == {};
    ProvedFresh([ALLOC, STORE, ExprStmt(JSX_CALL)], STORE, ExprStmt(JSX_CALL));
  }

  /** n.f = h; and an element whose factory is n.f: it stands for such a call. */
  lemma JsxCallEscapes()
    ensures var body := [ALLOC, STORE, ExprStmt(JSX_CALL)];
      Verdict(body) && LastOneLosesIt(body, ALONE, HOLDING, Shared(HOLDING))
  {
    JsxVerdict();
    Isolations();
    AllocationRuns();
    StoreRuns();
    JsxCallRuns();
  }

  // --------------------------------------------------------- a call in a class heritage

  const HERITAGE: Expr := CallExpr(PlainCall, Ident("h"), [Ident("n")])
  const EXTENDS: Expr := ClassExpr(Some(HERITAGE), {}, {}, {})
  const DEFINED: State := Shared(ALONE).(heap := ALONE.heap[2 := FUNCTION])

  lemma HeritageRuns()
    ensures Eval({"g"}, HERITAGE, ALONE, Gives(Prim(0)), Shared(ALONE))
  {
    TwoReads({"g"}, "h", "n", ALONE);
    var vs := [Ref(1), Ref(0)];
    assert Parts(HERITAGE) == [Ident("h"), Ident("n")];
    CallShares(vs, ALONE);
    assert Invokes({"g"}, Ref(1), vs, ALONE, Gives(Prim(0)), Shared(ALONE));
    Finished({"g"}, HERITAGE, ALONE, vs, ALONE, Gives(Prim(0)), Shared(ALONE));
  }

  lemma ClassRuns()
    ensures Runs({"g"}, ExprStmt(EXTENDS), ALONE, true, DEFINED)
  {
    HeritageRuns();
    var s := Shared(ALONE);
    assert EvalParts({"g"}, [], false, s, [], true, s);
    PartsDone({"g"}, HERITAGE, [], ALONE, Prim(0), s, [], s);
    var vs := [Prim(0)];
    assert Parts(EXTENDS) == [HERITAGE] + [] && vs == [Prim(0)] + [];
    assert EvalParts({"g"}, Parts(EXTENDS), false, ALONE, vs, true, s);
    ClassIsMade();
    assert Finishes({"g"}, EXTENDS, vs, s, Gives(Ref(2)), DEFINED);
    Finished({"g"}, EXTENDS, ALONE, vs, s, Gives(Ref(2)), DEFINED);
  }

  lemma ClassIsMade()
    ensures Call({"g"}, [Prim(0)], Shared(ALONE), Ref(2), DEFINED)
  {
    var s := Shared(ALONE);
    assert s.vars["g"] == Ref(0);
    assert ReachIn(s, {"g"}, [Prim(0)], 0, 0);
    assert CanReach(s, {"g"}, [Prim(0)], 0);
  }

  /** class extends h(n) {}: the heritage call hands the object to h, and its null makes a
      class without parent. */
  lemma ClassHeritageEscapes()
    ensures var body := [ALLOC, READ, ExprStmt(EXTENDS)]; Verdict(body) && LastOneLosesIt(body, ALONE, ALONE, DEFINED)
  {
    ProvedFresh([ALLOC, READ, ExprStmt(EXTENDS)], READ, ExprStmt(EXTENDS));
    Isolations();
    AllocationRuns();
    ReadRuns();
    ClassRuns();
    assert DEFINED.vars["g"] == Ref(0);
  }

  // --------------------------------------------------------------- a second declaration

  const AGAIN: Stmt := InitStmt("n", Lit)

  /** A later declaration of the name is not reported as a reassignment. */
  lemma RedeclarationLosesIt()
    ensures var body := [ALLOC, READ, AGAIN];
      Verdict(body) && LastOneLosesIt(body, ALONE, ALONE, ALONE.(vars := ALONE.vars["n" := Prim(0)]))
  {
    ProvedFresh([ALLOC, READ, AGAIN], READ, AGAIN);
    Isolations();
    AllocationRuns();
    ReadRuns();
    Finished({"g"}, Lit, ALONE, [], ALONE, Gives(Prim(0)), ALONE);
  }

  // --------------------------------------------------------- a pattern that assigns it

  const PATTERN: Expr := Destructure({"n"}, [], Ident("h"))
  const GONE: State := ALONE.(vars := ALONE.vars["n" := Prim(0)])

  lemma PropertyIsRead()
    ensures Call({"g"}, [Ref(1)], ALONE, Prim(0), ALONE)
  {
    assert ALONE.vars["g"] == Prim(0);
  }

  lemma PatternSteps()
    ensures PatternRuns({"g"}, PATTERN, 2, ALONE, [Ref(1)], true, GONE, [Ref(1), Prim(0)])
  {
    PropertyIsRead();
    var us, vs := [Ref(1)], [Ref(1), Prim(0)];
    assert Gets({"g"}, Ref(1), [], ALONE, Gives(Prim(0)), ALONE) by { assert [Ref(1)] + [] == [Ref(1)]; }
    assert Joins(us, Gives(Prim(0)), true, vs);
    assert StepRead({"g"}, ALONE, us, true, ALONE, vs);
    assert PatternStep({"g"}, PATTERN, ALONE, us, true, ALONE, vs);
    assert PatternRuns({"g"}, PATTERN, 0, ALONE, us, true, ALONE, us);
    assert PatternRuns({"g"}, PATTERN, 1, ALONE, us, true, ALONE, vs);
    assert "n" in PATTERN.targets && Prim(0) in vs;
    assert StepAssigns(PATTERN.targets, ALONE, vs, GONE);
    assert PatternStep({"g"}, PATTERN, ALONE, vs, true, GONE, vs);
  }

  lemma PatternEvaluates()
    ensures Runs({"g"}, ExprStmt(PATTERN), ALONE, true, GONE)
  {
    VariableRead({"g"}, "h", ALONE);
    PatternSteps();
    assert EvalPattern({"g"}, PATTERN, ALONE, Gives(Ref(1)), GONE);
    PartsSmaller(PATTERN);
    assert Eval({"g"}, PATTERN, ALONE, Gives(Ref(1)), GONE);
  }

  /** ({x: n} = h): the pattern's target is not reported as a reassignment. */
  lemma PatternLosesIt()
    ensures var body := [ALLOC, READ, ExprStmt(PATTERN)]; Verdict(body) && LastOneLosesIt(body, ALONE, ALONE, GONE)
  {
    PatternVerdict();
    Isolations();
    AllocationRuns();
    ReadRuns();
    PatternEvaluates();
  }

  lemma PatternVerdict()
    ensures Verdict([ALLOC, READ, ExprStmt(PATTERN)]) && !Isolated(GONE, "n", 0)
  {
    ProvedFresh([ALLOC, READ, ExprStmt(PATTERN)], READ, ExprStmt(PATTERN));
    assert GONE.vars["n"] == Prim(0);
  }

  // ------------------------------------------------- ... inside a function of its own

  const SETTER: Stmt := FuncStmt("k", {}, {}, {"n"})

  /** function k() { ({x: n} = h); }: the capture is not reported either. */
  lemma HiddenCapture()
    ensures var body := [ALLOC, READ, SETTER];
      IsFresh(body, 0, 3, OUTER, "n", 0) && "n" !in CapturedStmts(OUTER) + CapturedStmts(body) && "n" in PatternedStmts(body)
  {
    var body := [ALLOC, READ, SETTER];
    ProvedFresh(body, READ, SETTER);
    assert body[1..] == [READ, SETTER] && [READ, SETTER][1..] == [SETTER] && [SETTER][1..] == [];
    assert PatternedStmts([SETTER]) == {"n"};
    assert PatternedStmts([READ, SETTER]) == PatternedStmt(READ) + PatternedStmts([SETTER]);
    assert PatternedStmts(body) == PatternedStmt(ALLOC) + PatternedStmts([READ, SETTER]);
  }
}
