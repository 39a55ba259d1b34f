// What a bound export name means: the last recognised put on any path to an exit stores the
// function, and a put recognised as storing a closure on the exports object does so in every run.
module ExportsSound {
  import opened CfgTypes
  import opened PtMachine
  import opened ExportsPass
  import opened Invariants
  import opened LastWrite

  // --------------------------------------------------------------- paths to an exit

  /** Instruction i runs when the path w is in its p-th block. */
  ghost predicate RunsAt(cx: Context, cfg: FunctionCfg, w: seq<BlockId>, p: nat, i: nat)
    requires cx.fn < |cx.b.code|
  {
    p < |w| && i < |cx.b.code[cx.fn]| && IsBlockAt(cfg.blocks, cx.b.code[cx.fn][i].offset, w[p])
  }

  ghost predicate PutRuns(cx: Context, cfg: FunctionCfg, w: seq<BlockId>, p: nat, i: nat, name: string, kind: PutKind)
    requires cx.fn < |cx.b.code|
  {
    RunsAt(cx, cfg, w, p, i) && HasPut(cx, i, name, kind)
  }

  /** ... and no recognised put of the name runs later on w. */
  ghost predicate LastPut(cx: Context, cfg: FunctionCfg, w: seq<BlockId>, p: nat, i: nat, name: string, kind: PutKind)
    requires cx.fn < |cx.b.code|
  {
    && PutRuns(cx, cfg, w, p, i, name, kind)
    && forall q: nat, j: nat, k {:trigger PutRuns(cx, cfg, w, q, j, name, k)} :: PutRuns(cx, cfg, w, q, j, name, k) ==>
         q < p || (q == p && cx.b.code[cx.fn][j].offset <= cx.b.code[cx.fn][i].offset)
  }

  lemma {:induction false} FirstStays(cx: Context, name: string, i: nat, n: nat)
    requires cx.fn < |cx.b.code| && i <= n <= |cx.b.code[cx.fn]| && FirstClosure(cx, name, i).Some?
    ensures FirstClosure(cx, name, n) == FirstClosure(cx, name, i)
    decreases n - i
  {
    if i < n { FirstStays(cx, name, i, n - 1); }
  }

  lemma {:induction false} UndefListed(cx: Context, name: string, i: nat, n: nat)
    requires cx.fn < |cx.b.code| && i < n <= |cx.b.code[cx.fn]| && HasPut(cx, i, name, StoresUndef)
    ensures cx.b.code[cx.fn][i].offset in UndefOffsets(cx, name, n)
    decreases n
  {
    if i + 1 < n { UndefListed(cx, name, i, n - 1); }
  }

  lemma {:induction false} ClosureListed(cx: Context, name: string, n: nat, c: nat)
    requires cx.fn < |cx.b.code| && n <= |cx.b.code[cx.fn]| && c in ClosureOffsets(cx, name, n)
    ensures exists j: nat, g: Fn :: j < n && HasPut(cx, j, name, StoresClosure(g)) && cx.b.code[cx.fn][j].offset == c
    decreases n
  {
    var site := cx.b.code[cx.fn][n - 1];
    var put := PutAt(cx, site.insn, KnownAt(cx, n - 1));
    if c in ClosureOffsets(cx, name, n - 1) {
      ClosureListed(cx, name, n - 1, c);
    } else {
      assert HasPut(cx, n - 1, name, StoresClosure(put.value.kind.fn));
    }
  }

  /** A bound name is only ever put with its function or with undefined. */
  lemma BoundPuts(cx: Context, cfg: Option<FunctionCfg>, name: string, f: Fn, i: nat, kind: PutKind)
    requires cx.fn < |cx.b.code| && BoundTo(cx, cfg, name, f) && i < |cx.b.code[cx.fn]| && HasPut(cx, i, name, kind)
    ensures kind == StoresClosure(f) || kind == StoresUndef
  {
    var n := |cx.b.code[cx.fn]|;
    assert !SpoilsName(cx, name, i);
    if kind.StoresClosure? {
      assert FirstClosure(cx, name, i + 1) == Some(kind.fn);
      FirstStays(cx, name, i + 1, n);
    }
  }

  /** On every normal path to an exit that performs a recognised put of a bound name, the last
      such put stores the name's function. */
  lemma LastPutStoresFunction(cx: Context, cfg: FunctionCfg, name: string, f: Fn, w: seq<BlockId>, p: nat, i: nat, kind: PutKind)
    requires cx.fn < |cx.b.code| && BoundTo(cx, Some(cfg), name, f) && Disjoint(cfg.blocks)
    requires Path(cfg.blocks, cfg.entry, w) && IsExitBlock(cfg, w[|w| - 1]) && LastPut(cx, cfg, w, p, i, name, kind)
    ensures kind == StoresClosure(f)
  {
    BoundPuts(cx, Some(cfg), name, f, i, kind);
    if kind == StoresUndef { UndefIsOverwritten(cx, cfg, name, f, w, p, i); }
  }

  lemma UndefIsOverwritten(cx: Context, cfg: FunctionCfg, name: string, f: Fn, w: seq<BlockId>, p: nat, i: nat)
    requires cx.fn < |cx.b.code| && BoundTo(cx, Some(cfg), name, f) && Disjoint(cfg.blocks)
    requires Path(cfg.blocks, cfg.entry, w) && IsExitBlock(cfg, w[|w| - 1]) && PutRuns(cx, cfg, w, p, i, name, StoresUndef)
    ensures !LastPut(cx, cfg, w, p, i, name, StoresUndef)
  {
    var n := |cx.b.code[cx.fn]|;
    var undefs, closures := UndefOffsets(cx, name, n), ClosureOffsets(cx, name, n);
    UndefListed(cx, name, i, n);
    var k :| 0 <= k < |undefs| && undefs[k] == cx.b.code[cx.fn][i].offset;
    var q := ClosureRunsAfter(cfg, undefs, closures[0], EscapeOffsets(cx, n), w, p, k);
    ClosureListed(cx, name, n, closures[0]);
    var j: nat, g: Fn :| j < n && HasPut(cx, j, name, StoresClosure(g)) && cx.b.code[cx.fn][j].offset == closures[0];
    assert PutRuns(cx, cfg, w, q, j, name, StoresClosure(g));
  }

  // -------------------------------------------------------------------- every run

  /** The factory's exports object: its `exports` parameter, or a value read from or put into
      the `exports` property of its `module` parameter. */
  ghost predicate IsExportsObject(cx: Context, gets: History, puts: History, params: Params, v: PVal) {
    v == Unwritten || v == ParamVal(params, cx.f.exportsSlot) || (ParamVal(params, cx.f.moduleSlot), "exports", v) in gets + puts
  }

  ghost predicate IsOrUnwritten(v: PVal, w: PVal) {
    v == Unwritten || v == w
  }

  ghost predicate KnownTrue(cx: Context, gets: History, puts: History, fr: PFrame, s: Known) {
    && (forall r {:trigger s.params[r]} :: r in s.params ==> IsOrUnwritten(Read(fr.regs, r), ParamVal(fr.params, s.params[r])))
    && (forall r {:trigger s.closures[r]} :: r in s.closures ==> IsOrUnwritten(Read(fr.regs, r), ClosureVal(s.closures[r])))
    && (forall r {:trigger r in s.exports} :: r in s.exports ==> IsExportsObject(cx, gets, puts, fr.params, Read(fr.regs, r)))
    && forall r {:trigger r in s.undef} :: r in s.undef ==> IsOrUnwritten(Read(fr.regs, r), Undef)
  }

  ghost predicate UniqueTrue(cx: Context, fr: PFrame) {
    && (forall r {:trigger cx.params[r]} :: r in cx.params ==> IsOrUnwritten(Read(fr.regs, r), ParamVal(fr.params, cx.params[r])))
    && forall r {:trigger cx.unique[r]} :: r in cx.unique ==> IsOrUnwritten(Read(fr.regs, r), ClosureVal(cx.unique[r]))
  }

  ghost predicate ContextRight(cx: Context) {
    cx.fn < |cx.b.code| && IsUnique(ParamMaker, cx.b, cx.fn, cx.params) && IsUnique(ClosureMaker, cx.b, cx.fn, cx.unique)
  }

  /** A frame of the factory, between two instructions. */
  ghost predicate FactoryFrame(cx: Context, gets: History, puts: History, fr: PFrame)
    requires ContextRight(cx)
  {
    fr.fn == cx.fn ==> InCode(cx.b, fr) && UniqueTrue(cx, fr) && KnownTrue(cx, gets, puts, fr, KnownAt(cx, fr.pc))
  }

  ghost predicate FactoryFrames(cx: Context, m: PMachine)
    requires ContextRight(cx)
  {
    forall i {:trigger m.frames[i]} :: 0 <= i < |m.frames| ==> FactoryFrame(cx, m.gets, m.puts, m.frames[i])
  }

  ghost predicate SlotClosure(slots: map<SlotKey, Fn>, n: Node, slot: Slot, v: PVal) {
    (n, slot) in slots ==> IsOrUnwritten(v, ClosureVal(slots[(n, slot)]))
  }

  ghost predicate SlotClosures(slots: map<SlotKey, Fn>, heap: seq<PEnv>) {
    forall a, slot {:trigger heap[a].slots[slot]} :: 0 <= a < |heap| && slot in heap[a].slots ==> SlotClosure(slots, heap[a].node, slot, heap[a].slots[slot])
  }

  /** In every run, a slot only ever holds the closure it is said to hold. */
  ghost predicate TruthfulClosures(b: Bundle, slots: map<SlotKey, Fn>) {
    forall m {:trigger Reached(b, m)} :: Reached(b, m) ==> SlotClosures(slots, m.heap)
  }

  lemma ParamTrue(cx: Context, gets: History, puts: History, fr: PFrame, s: Known, r: Reg)
    requires UniqueTrue(cx, fr) && KnownTrue(cx, gets, puts, fr, s)
    ensures ParamAt(cx, s, r).Some? ==> IsOrUnwritten(Read(fr.regs, r), ParamVal(fr.params, ParamAt(cx, s, r).value))
    ensures ClosureOf(cx, s, r).Some? ==> IsOrUnwritten(Read(fr.regs, r), ClosureVal(ClosureOf(cx, s, r).value))
    ensures IsExportsReg(cx, s, r) ==> IsExportsObject(cx, gets, puts, fr.params, Read(fr.regs, r))
  {
  }

  lemma ForgetTrue(cx: Context, gets: History, puts: History, fr: PFrame, s: Known, dst: Reg, fr': PFrame, gets': History)
    requires KnownTrue(cx, gets, puts, fr, s) && fr'.params == fr.params && gets <= gets' && forall r: Reg :: r != dst ==> Read(fr'.regs, r) == Read(fr.regs, r)
    ensures KnownTrue(cx, gets', puts, fr', Forget(s, dst))
  {
  }

  lemma UniqueStays(cx: Context, fr: PFrame, fr': PFrame)
    requires ContextRight(cx) && AtSite(cx.b, fr) && fr.fn == cx.fn && UniqueTrue(cx, fr) && fr'.params == fr.params
    requires var w := Written(cx.b.code[cx.fn][fr.pc].insn); forall r: Reg :: w != Some(r) ==> Read(fr'.regs, r) == Read(fr.regs, r)
    requires var insn := cx.b.code[cx.fn][fr.pc].insn;
      (insn.LoadParam? ==> Read(fr'.regs, insn.dst) == ParamVal(fr.params, insn.slot)) && (insn.MakeClosure? ==> Read(fr'.regs, insn.dst) == ClosureVal(insn.fn))
    ensures UniqueTrue(cx, fr')
  {
    var code := cx.b.code[cx.fn];
    forall r | r in cx.params ensures IsOrUnwritten(Read(fr'.regs, r), ParamVal(fr'.params, cx.params[r])) {
      assert OnlyMakes(ParamMaker, code, r, cx.params[r]);
      assert Written(code[fr.pc].insn) == Some(r) ==> Made(ParamMaker, code[fr.pc].insn) == Some(cx.params[r]);
    }
    forall r | r in cx.unique ensures IsOrUnwritten(Read(fr'.regs, r), ClosureVal(cx.unique[r])) {
      assert OnlyMakes(ClosureMaker, code, r, cx.unique[r]);
      assert Written(code[fr.pc].insn) == Some(r) ==> Made(ClosureMaker, code[fr.pc].insn) == Some(cx.unique[r]);
    }
  }

  /** After describes what an instruction that writes a register does. */
  lemma WriteTrue(cx: Context, gets: History, puts: History, fr: PFrame, s: Known, i: nat, insn: PtInsn, fr': PFrame, gets': History)
    requires UniqueTrue(cx, fr) && KnownTrue(cx, gets, puts, fr, s) && fr'.params == fr.params && gets <= gets'
    requires Written(insn).Some? && !insn.LoadEnv? && (forall r: Reg :: r != insn.dst ==> Read(fr'.regs, r) == Read(fr.regs, r))
    requires Yields(cx.b, fr.params, fr.regs, insn, Read(fr'.regs, insn.dst))
    requires insn.GetById? && insn.name.Some? ==> (Read(fr.regs, insn.base), insn.name.value, Read(fr'.regs, insn.dst)) in gets'
    ensures KnownTrue(cx, gets', puts, fr', After(cx, i, insn, s))
  {
    ForgetTrue(cx, gets, puts, fr, s, insn.dst, fr', gets');
    match insn
    case Mov(dst, src) => MoveTrue(cx, gets, puts, fr, s, dst, src, fr', gets');
    case GetById(dst, base, name) =>
      var t := Forget(s, dst);
      if name == Some("exports") && IsModuleParam(cx, t, base) { ModuleStill(cx, fr, s, dst, base, gets, puts); }
    case _ =>
  }

  /** A base still known as the module parameter once the destination is forgotten. */
  lemma ModuleStill(cx: Context, fr: PFrame, s: Known, dst: Reg, base: Reg, gets: History, puts: History)
    requires UniqueTrue(cx, fr) && KnownTrue(cx, gets, puts, fr, s) && IsModuleParam(cx, Forget(s, dst), base)
    ensures IsOrUnwritten(Read(fr.regs, base), ParamVal(fr.params, cx.f.moduleSlot))
  {
  }

  lemma MoveTrue(cx: Context, gets: History, puts: History, fr: PFrame, s: Known, dst: Reg, src: Reg, fr': PFrame, gets': History)
    requires UniqueTrue(cx, fr) && KnownTrue(cx, gets, puts, fr, s) && fr'.params == fr.params && gets <= gets'
    requires (forall r: Reg :: r != dst ==> Read(fr'.regs, r) == Read(fr.regs, r)) && Read(fr'.regs, dst) == Read(fr.regs, src)
    ensures KnownTrue(cx, gets', puts, fr', After(cx, 0, Mov(dst, src), s))
  {
    ParamTrue(cx, gets, puts, fr, s, src);
  }

  lemma LoadKnownTrue(cx: Context, gets: History, puts: History, fr: PFrame, s: Known, i: nat, dst: Reg, slot: Slot, fr': PFrame, heap: seq<PEnv>)
    requires KnownTrue(cx, gets, puts, fr, s) && fr'.params == fr.params && SlotClosures(cx.slots, heap)
    requires Loads(cx.b, heap, (cx.fn, i), slot, fr.regs, dst, fr'.regs)
    ensures KnownTrue(cx, gets, puts, fr', After(cx, i, LoadEnv(dst, slot), s))
  {
    var a: nat :| PtMachine.Touches(cx.b, heap, (cx.fn, i), a) && fr'.regs == fr.regs[dst := if slot in heap[a].slots then heap[a].slots[slot] else Unwritten];
    if slot in heap[a].slots { assert SlotClosure(cx.slots, heap[a].node, slot, heap[a].slots[slot]); }
    ForgetTrue(cx, gets, puts, fr, s, dst, fr', gets);
  }

  lemma KnownGrows(cx: Context, gets: History, puts: History, fr: PFrame, s: Known, gets': History, puts': History)
    requires KnownTrue(cx, gets, puts, fr, s) && gets <= gets' && puts <= puts'
    ensures KnownTrue(cx, gets', puts', fr, s)
  {
  }

  lemma PutKnownTrue(cx: Context, gets: History, puts: History, fr: PFrame, s: Known, obj: Reg, val: Reg, name: Option<string>, puts': History)
    requires UniqueTrue(cx, fr) && KnownTrue(cx, gets, puts, fr, s) && puts <= puts' && Read(fr.regs, obj) != Unwritten
    requires name.Some? ==> (Read(fr.regs, obj), name.value, Read(fr.regs, val)) in puts'
    ensures KnownTrue(cx, gets, puts', fr, After(cx, 0, Put(obj, val, name), s))
  {
    ParamTrue(cx, gets, puts, fr, s, obj);
    KnownGrows(cx, gets, puts, fr, s, gets, puts');
  }

  lemma ExecuteFactoryFrame(cx: Context, m: PMachine, m': PMachine, i: nat)
    requires ContextRight(cx) && SlotClosures(cx.slots, m.heap) && Executes(cx.b, m, m', i)
    requires m.frames[i].fn == cx.fn && FactoryFrame(cx, m.gets, m.puts, m.frames[i])
    ensures m.gets <= m'.gets && m.puts <= m'.puts && FactoryFrame(cx, m'.gets, m'.puts, m'.frames[i])
  {
    var fr, fr' := m.frames[i], m'.frames[i];
    var insn := cx.b.code[cx.fn][fr.pc].insn;
    var s := KnownAt(cx, fr.pc);
    UniqueStays(cx, fr, fr');
    match insn
    case LoadEnv(dst, slot) => LoadKnownTrue(cx, m.gets, m.puts, fr, s, fr.pc, dst, slot, fr', m.heap);
    case StoreEnv(_, _) =>
    case Effect =>
    case Put(obj, val, name) => PutKnownTrue(cx, m.gets, m.puts, fr, s, obj, val, name, m'.puts);
    case _ => WriteTrue(cx, m.gets, m.puts, fr, s, fr.pc, insn, fr', m'.gets);
  }

  lemma FactoryFrameGrows(cx: Context, gets: History, puts: History, gets': History, puts': History, fr: PFrame)
    requires ContextRight(cx) && FactoryFrame(cx, gets, puts, fr) && gets <= gets' && puts <= puts'
    ensures FactoryFrame(cx, gets', puts', fr)
  {
    if fr.fn == cx.fn { KnownGrows(cx, gets, puts, fr, KnownAt(cx, fr.pc), gets', puts'); }
  }

  lemma HistoriesGrow(b: Bundle, m: PMachine, m': PMachine, i: nat)
    requires Executes(b, m, m', i)
    ensures m.gets <= m'.gets && m.puts <= m'.puts
  {
  }

  lemma ExecuteKeepsFactory(cx: Context, m: PMachine, m': PMachine, i: nat)
    requires ContextRight(cx) && SlotClosures(cx.slots, m.heap) && FactoryFrames(cx, m) && Executes(cx.b, m, m', i)
    ensures FactoryFrames(cx, m')
  {
    HistoriesGrow(cx.b, m, m', i);
    if m.frames[i].fn == cx.fn { ExecuteFactoryFrame(cx, m, m', i); }
    forall j | 0 <= j < |m'.frames| ensures FactoryFrame(cx, m'.gets, m'.puts, m'.frames[j]) {
      if j != i {
        assert m'.frames[j] == m.frames[j];
        FactoryFrameGrows(cx, m.gets, m.puts, m'.gets, m'.puts, m.frames[j]);
      }
    }
  }

  lemma StepKeepsFactory(cx: Context, m: PMachine, m': PMachine)
    requires ContextRight(cx) && SlotClosures(cx.slots, m.heap) && FactoryFrames(cx, m) && Step(cx.b, m, m')
    ensures FactoryFrames(cx, m')
  {
    if i :| Executes(cx.b, m, m', i) { ExecuteKeepsFactory(cx, m, m', i); }
    else if i, pc :| Jumps(cx.b, m, m', i, pc) {
      forall j | 0 <= j < |m'.frames| ensures FactoryFrame(cx, m'.gets, m'.puts, m'.frames[j]) {
        assert FactoryFrame(cx, m.gets, m.puts, m.frames[j]);
      }
    }
    else if fr :| Enters(cx.b, m, m', fr) {
      forall j | 0 <= j < |m'.frames| ensures FactoryFrame(cx, m'.gets, m'.puts, m'.frames[j]) {
        if j < |m.frames| { assert m'.frames[j] == m.frames[j]; } else { assert m'.frames[j] == fr && KnownAt(cx, 0) == NOTHING; }
      }
    }
    else { var node :| Allocates(m, m', node); }
  }

  /** With truthful closure slots, what the pass knows about the factory's registers is so in
      every run. */
  lemma {:induction false} KnownHolds(cx: Context, m: PMachine, n: nat)
    requires ContextRight(cx) && TruthfulClosures(cx.b, cx.slots) && ReachedIn(cx.b, m, n)
    ensures FactoryFrames(cx, m)
    decreases n
  {
    if n > 0 {
      var m0 :| ReachedIn(cx.b, m0, n - 1) && Step(cx.b, m0, m);
      KnownHolds(cx, m0, n - 1);
      assert Reached(cx.b, m0);
      StepKeepsFactory(cx, m0, m);
    }
  }
}
