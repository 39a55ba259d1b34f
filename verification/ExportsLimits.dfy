// What a bound export name leaves open (src/artifact/points-to.ts:479-513): a factory that
// replaces its exports object keeps the names it put on the old one, and a property named like
// the reserved key is taken for the whole exports object.
module ExportsLimits {
  import opened CfgTypes
  import opened PtMachine
  import opened PointsTo
  import opened ExportsPass
  import opened ExportsRuns

  function Site(offset: nat, insn: PtInsn): PtSite {
    PtSite(offset, false, insn, [])
  }

  /** exports.run = function 7; module.exports = something else. */
  function ReplacingCode(): seq<PtSite> {
    [Site(0, LoadParam(0, 6)), Site(1, MakeClosure(1, 7)), Site(2, Put(0, 1, Some("run"))),
     Site(3, LoadParam(2, 5)), Site(4, Def(3)), Site(5, Put(2, 3, Some("exports"))), Site(6, Effect)]
  }

  function Replacing(): Context {
    var f := Factory(0, [], 2, 7, 6, 5);
    Context(Bundle([ReplacingCode()], map[0 := f], map[], set i | 0 <= i < 7 :: (0, i)), 0, f, map[], map[], map[])
  }

  lemma KnownToTheFirst()
    ensures KnownAt(Replacing(), 2) == Known(map[0 := 6], map[1 := 7], {}, {}) && KnownAt(Replacing(), 3) == KnownAt(Replacing(), 2)
  {
    var cx := Replacing();
    assert KnownAt(cx, 0) == NOTHING;
    assert KnownAt(cx, 1) == Known(map[0 := 6], map[], {}, {});
    assert KnownAt(cx, 2) == Known(map[0 := 6], map[1 := 7], {}, {});
  }

  lemma KnownToTheLast()
    ensures KnownAt(Replacing(), 5) == Known(map[0 := 6, 2 := 5], map[1 := 7], {}, {})
  {
    var cx := Replacing();
    KnownToTheFirst();
    assert KnownAt(cx, 4) == Known(map[0 := 6, 2 := 5], map[1 := 7], {}, {});
  }

  /** The two puts, and what they are taken for. */
  lemma PutsAre()
    ensures PutAt(Replacing(), ReplacingCode()[2].insn, KnownAt(Replacing(), 2)) == Some(NamedPut("run", StoresClosure(7)))
    ensures PutAt(Replacing(), ReplacingCode()[5].insn, KnownAt(Replacing(), 5)) == Some(NamedPut(MODULE_EXPORTS, StoresOther))
  {
    KnownToTheFirst();
    KnownToTheLast();
  }

  lemma NoOtherPut(i: nat)
    requires i < 7 && i != 2 && i != 5
    ensures PutAt(Replacing(), ReplacingCode()[i].insn, KnownAt(Replacing(), i)) == None
  {
  }

  lemma RunIsFirst()
    ensures FirstClosure(Replacing(), "run", 7) == Some(7)
  {
    var cx := Replacing();
    PutsAre();
    NoOtherPut(0);
    NoOtherPut(1);
    assert FirstClosure(cx, "run", 0) == None;
    assert FirstClosure(cx, "run", 1) == None;
    assert FirstClosure(cx, "run", 2) == None;
    for k := 3 to 7
      invariant FirstClosure(cx, "run", k) == Some(7)
    {
    }
  }

  lemma RunIsClear()
    ensures !AmbiguousName(Replacing(), "run", 7)
  {
    var cx := Replacing();
    PutsAre();
    forall i: nat | i < 7 ensures !SpoilsName(cx, "run", i) {
      if i == 2 { NoOtherPut(1); NoOtherPut(0); assert FirstClosure(cx, "run", 1) == None; }
      else if i != 5 { NoOtherPut(i); }
    }
  }

  lemma RunIsNeverUndef()
    ensures UndefOffsets(Replacing(), "run", 7) == []
  {
    var cx := Replacing();
    PutsAre();
    for k := 0 to 7
      invariant UndefOffsets(cx, "run", k) == []
    {
      if k != 2 && k != 5 { NoOtherPut(k); }
    }
  }

  // What a run of the factory does.

  function RunParams(): Params {
    map[2 := RequireFn, 7 := DepMap(0), 6 := Opaque(1), 5 := Opaque(2)]
  }

  function Running(regs: Regs, pc: nat, puts: History): PMachine {
    PMachine([], [PFrame(0, RunParams(), regs, pc)], {}, puts)
  }

  ghost predicate Gets(regs: Regs, pc: nat, puts: History) {
    Reached(Replacing().b, Running(regs, pc, puts))
  }

  lemma ReachedNext(b: Bundle, m: PMachine, m': PMachine)
    requires Reached(b, m) && Step(b, m, m')
    ensures Reached(b, m')
  {
    var n: nat :| ReachedIn(b, m, n);
    assert ReachedIn(b, m', n + 1);
  }

  lemma Executed(regs: Regs, pc: nat, puts: History, regs': Regs, puts': History)
    requires Gets(regs, pc, puts) && pc < 7 && Executes(Replacing().b, Running(regs, pc, puts), Running(regs', pc + 1, puts'), 0)
    ensures Gets(regs', pc + 1, puts')
  {
    ReachedNext(Replacing().b, Running(regs, pc, puts), Running(regs', pc + 1, puts'));
  }

  lemma Wrote(regs: Regs, pc: nat, puts: History, dst: Reg, v: PVal, regs': Regs)
    requires Gets(regs, pc, puts) && pc < 7 && regs' == regs[dst := v]
    requires var insn := ReplacingCode()[pc].insn;
             (insn.LoadParam? || insn.MakeClosure? || insn.Def?) && insn.dst == dst && Yields(Replacing().b, RunParams(), regs, insn, v)
    ensures Gets(regs', pc + 1, puts)
  {
    Executed(regs, pc, puts, regs', puts);
  }

  function Start(): Regs {
    map[]
  }

  lemma RunStarts()
    ensures Gets(Start(), 0, {})
  {
    var b, m := Replacing().b, PMachine([], [], {}, {});
    assert ReachedIn(b, m, 0);
    assert Enters(b, m, Running(Start(), 0, {}), PFrame(0, RunParams(), Start(), 0));
    ReachedNext(b, m, Running(Start(), 0, {}));
  }

  function FirstLoaded(): Regs {
    Start()[0 := Opaque(1)]
  }

  function Loaded(): Regs {
    FirstLoaded()[1 := ClosureVal(7)]
  }

  lemma FirstYields(regs: Regs)
    ensures Yields(Replacing().b, RunParams(), regs, ReplacingCode()[0].insn, Opaque(1))
  {
  }

  lemma RunLoadsParam()
    ensures Gets(FirstLoaded(), 1, {})
  {
    RunStarts();
    FirstYields(Start());
    Wrote(Start(), 0, {}, 0, Opaque(1), FirstLoaded());
  }

  lemma RunLoads()
    ensures Gets(Loaded(), 2, {})
  {
    RunLoadsParam();
    Wrote(FirstLoaded(), 1, {}, 1, ClosureVal(7), Loaded());
  }

  lemma RunPutsFirst()
    ensures Gets(Loaded(), 3, {(Opaque(1), "run", ClosureVal(7))})
  {
    RunLoads();
    var none: History := {};
    assert none + {(Opaque(1), "run", ClosureVal(7))} == {(Opaque(1), "run", ClosureVal(7))};
    Executed(Loaded(), 2, {}, Loaded(), {(Opaque(1), "run", ClosureVal(7))});
  }

  function Both(): History {
    {(Opaque(1), "run", ClosureVal(7)), (Opaque(2), "exports", Opaque(3))}
  }

  lemma RunReplaces() returns (regs: Regs)
    ensures Gets(regs, 6, Both())
  {
    RunPutsFirst();
    var first: History := {(Opaque(1), "run", ClosureVal(7))};
    var r3 := Loaded();
    var r4 := r3[2 := Opaque(2)];
    regs := r4[3 := Opaque(3)];
    Wrote(r3, 3, first, 2, Opaque(2), r4);
    Wrote(r4, 4, first, 3, Opaque(3), regs);
    assert first + {(Opaque(2), "exports", Opaque(3))} == Both();
    Executed(regs, 5, first, regs, Both());
  }

  /** The name stays bound to the function, and a run of the factory ends with an exports
      object on which nothing was put under it. */
  lemma ReplacedStaysBound() returns (regs: Regs)
    ensures BoundTo(Replacing(), None, "run", 7)
    ensures Reached(Replacing().b, Running(regs, 6, Both()))
    ensures (ParamVal(RunParams(), Replacing().f.moduleSlot), "exports", Opaque(3)) in Both() && forall v :: (Opaque(3), "run", v) !in Both()
  {
    RunIsFirst();
    RunIsClear();
    RunIsNeverUndef();
    regs := RunReplaces();
  }

  // ----------------------------------------------- a property with the reserved name

  /** exports["module.exports"] = function 7. */
  function CollidingCode(): seq<PtSite> {
    [Site(0, LoadParam(0, 6)), Site(1, MakeClosure(1, 7)), Site(2, Put(0, 1, Some(MODULE_EXPORTS))), Site(3, Effect)]
  }

  function Colliding(): Context {
    var f := Factory(0, [], 2, 7, 6, 5);
    Context(Bundle([CollidingCode()], map[0 := f], map[], set i | 0 <= i < 4 :: (0, i)), 0, f, map[], map[], map[])
  }

  lemma CollidingPut()
    ensures PutAt(Colliding(), CollidingCode()[2].insn, KnownAt(Colliding(), 2)) == Some(NamedPut(MODULE_EXPORTS, StoresClosure(7)))
  {
    var cx := Colliding();
    assert KnownAt(cx, 0) == ExportsPass.NOTHING;
    assert KnownAt(cx, 1) == Known(map[0 := 6], map[], {}, {});
    assert KnownAt(cx, 2) == Known(map[0 := 6], map[1 := 7], {}, {});
  }

  lemma CollidingOther(i: nat)
    requires i < 4 && i != 2
    ensures PutAt(Colliding(), CollidingCode()[i].insn, KnownAt(Colliding(), i)) == None
  {
  }

  lemma CollidingIsFirst(n: nat)
    requires n <= 4
    ensures FirstClosure(Colliding(), MODULE_EXPORTS, n) == if n > 2 then Some(7) else None
    ensures UndefOffsets(Colliding(), MODULE_EXPORTS, n) == []
  {
    CollidingPut();
    for k := 0 to n
      invariant FirstClosure(Colliding(), MODULE_EXPORTS, k) == if k > 2 then Some(7) else None
      invariant UndefOffsets(Colliding(), MODULE_EXPORTS, k) == []
    {
      if k != 2 { CollidingOther(k); }
    }
  }

  /** The module is reported to be function 7, though nothing in the factory replaces
      module.exports, which stays the object it was given in every run. */
  lemma ReservedNameCollides()
    ensures BoundTo(Colliding(), None, MODULE_EXPORTS, 7) && NeverReplaces(Colliding()) && !ReservedKeyIsFree(Colliding())
  {
    var cx := Colliding();
    CollidingPut();
    CollidingIsFirst(4);
    forall i: nat | i < 4 ensures !SpoilsName(cx, MODULE_EXPORTS, i) && !Replaces(cx, i) {
      if i == 2 { CollidingIsFirst(2); } else { CollidingOther(i); }
    }
    assert HasPut(cx, 2, MODULE_EXPORTS, StoresClosure(7));
  }
}
