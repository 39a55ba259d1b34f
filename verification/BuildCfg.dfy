// buildCfg (src/cfg/index.ts:34-92): leaders, blocks, regions, dispatcher, predecessors and
// dominators put together, and the proof that its result meets CFG-01 .. CFG-19.
module BuildCfg {
  import opened CfgTypes
  import opened Blocks
  import opened BlockFlow
  import opened Regions
  import opened Exceptions
  import opened Dominators
  import opened Generators
  import opened Reach
  import opened Invariants
  import opened Sorting

  datatype BuildResult = Ok(cfg: FunctionCfg) | TooComplex | BadHandlerTable | Internal

  /** The blocks before predecessors: those of the layout, then the dispatcher if there is one. */
  function WithDispatcher(blocks: seq<BasicBlock>, points: seq<SuspendPoint>): seq<BasicBlock> {
    if points == [] then blocks else blocks + [Dispatcher(|blocks|, 0, points)]
  }

  /** How the parts of the result hang together. */
  ghost predicate Assembled(l: Layout, S: seq<Entry>, cfg: FunctionCfg) {
    var raw := WithDispatcher(l.blocks, cfg.suspendPoints);
    && Built(l) && BlocksOk(l.blocks, l.byOffset) && cfg.byOffset == l.byOffset
    && |cfg.blocks| == |raw| && (forall k :: 0 <= k < |raw| ==> cfg.blocks[k] == raw[k].(preds := cfg.blocks[k].preds))
    && (forall k :: 0 <= k < |raw| ==> AscendingPreds(cfg.blocks[k]))
    && EdgesValid(cfg.blocks) && PredsReverse(cfg.blocks)
    && RegionsRight(S, l.blocks, l.byOffset, l.size, cfg.regions)
    && SuccsRight(S, l.handlers, l.blocks, l.byOffset, |l.blocks|, cfg.exceptionSuccs)
    && (if cfg.suspendPoints == [] then cfg.entry == 0 && cfg.resumeDispatch == None
        else cfg.entry == |l.blocks| && cfg.resumeDispatch == Some(|l.blocks|))
    && TargetsAreBlocks(l.insns, l.byOffset, |l.insns|)
    && (cfg.suspendPoints == [] || PointsRight(l.insns, l.byOffset, |l.insns|, cfg.suspendPoints))
    && (cfg.suspendPoints != [] ==> cfg.era == OpcodeEra)
    && IdomsRight(cfg.blocks, cfg.entry, cfg.dom.idom) && OrderRight(cfg.blocks, cfg.entry, cfg.rpo)
  }

  // ------------------------------------------------------------ CFG-01, CFG-02

  lemma BlockOfLayout(l: Layout, S: seq<Entry>, cfg: FunctionCfg, k: nat)
    requires Assembled(l, S, cfg) && k < |l.blocks|
    ensures k < |cfg.blocks| && cfg.blocks[k] == l.blocks[k].(preds := cfg.blocks[k].preds)
  {
    assert WithDispatcher(l.blocks, cfg.suspendPoints)[k] == l.blocks[k];
  }

  lemma LayoutBlock(l: Layout, k: nat)
    requires Built(l) && k < |l.blocks|
    ensures l.blocks[k].id == k && 0 <= l.blocks[k].start && BlockEnds(l.blocks, l.size, k)
  {
    BuiltPartitions(l);
    assert BlockEnds(l.blocks, l.size, k);
  }

  lemma {:induction false} RealOfReal(xs: seq<BasicBlock>)
    requires forall k :: 0 <= k < |xs| ==> xs[k].start >= 0
    ensures RealBlocks(xs) == xs
    decreases |xs|
  {
    if xs != [] {
      RealOfReal(xs[..|xs| - 1]);
      assert xs == xs[..|xs| - 1] + [xs[|xs| - 1]];
    }
  }

  lemma RealSplit(xs: seq<BasicBlock>, m: nat)
    requires m <= |xs| <= m + 1 && (forall k :: 0 <= k < m ==> xs[k].start >= 0) && (m < |xs| ==> xs[m].start < 0)
    ensures RealBlocks(xs) == xs[..m]
  {
    RealOfReal(xs[..m]);
    if m == |xs| { assert xs[..m] == xs; }
  }

  lemma {:induction false} CountOfSame(xs: seq<BasicBlock>, ys: seq<BasicBlock>)
    requires |xs| == |ys| && forall k :: 0 <= k < |xs| ==> xs[k].instructions == ys[k].instructions
    ensures InstructionCount(xs) == InstructionCount(ys)
    decreases |xs|
  {
    if xs != [] { CountOfSame(xs[..|xs| - 1], ys[..|ys| - 1]); }
  }

  lemma WhichAreReal(l: Layout, S: seq<Entry>, cfg: FunctionCfg)
    requires Assembled(l, S, cfg)
    ensures |l.blocks| <= |cfg.blocks| <= |l.blocks| + 1
    ensures forall k :: 0 <= k < |l.blocks| ==> cfg.blocks[k].start >= 0
    ensures |l.blocks| < |cfg.blocks| ==> cfg.blocks[|l.blocks|].start < 0
  {
    forall k | 0 <= k < |l.blocks| ensures cfg.blocks[k].start >= 0 {
      BlockOfLayout(l, S, cfg, k);
      LayoutBlock(l, k);
    }
  }

  /** The real blocks of the result are the blocks of the layout, in order. */
  lemma RealAll(l: Layout, S: seq<Entry>, cfg: FunctionCfg)
    requires Assembled(l, S, cfg)
    ensures |l.blocks| <= |cfg.blocks| <= |l.blocks| + 1 && RealBlocks(cfg.blocks) == cfg.blocks[..|l.blocks|]
  {
    WhichAreReal(l, S, cfg);
    RealSplit(cfg.blocks, |l.blocks|);
  }

  lemma BlockCounts(l: Layout, k: nat)
    requires Built(l) && l.insns != [] && k < |l.blocks|
    ensures |l.cut| == |l.blocks| + 1 && l.cut[k] + |l.blocks[k].instructions| == l.cut[k + 1]
  {
    BlockBody(l, k);
  }

  lemma {:induction false} CountLayout(l: Layout, k: nat)
    requires Built(l) && l.insns != [] && k <= |l.blocks|
    ensures InstructionCount(l.blocks[..k]) == l.cut[k]
  {
    if k > 0 {
      CountLayout(l, k - 1);
      BlockCounts(l, k - 1);
      assert l.blocks[..k][..k - 1] == l.blocks[..k - 1];
    }
  }

  lemma Meets01(l: Layout, S: seq<Entry>, cfg: FunctionCfg)
    requires Assembled(l, S, cfg)
    ensures Cfg01(cfg, l.insns)
  {
    RealAll(l, S, cfg);
    var m := |l.blocks|;
    forall k | 0 <= k < m ensures cfg.blocks[k].instructions == l.blocks[k].instructions { BlockOfLayout(l, S, cfg, k); }
    CountOfSame(cfg.blocks[..m], l.blocks);
    LayoutCount(l);
  }

  lemma LayoutCount(l: Layout)
    requires Built(l)
    ensures InstructionCount(l.blocks) == |l.insns|
  {
    var m := |l.blocks|;
    if l.insns != [] {
      CountLayout(l, m);
      assert l.blocks[..m] == l.blocks;
    } else {
      assert l.blocks[..0] == [];
    }
  }

  lemma {:induction false} TightSuffix(blocks: seq<BasicBlock>, size: nat, xs: seq<BasicBlock>, k: nat)
    requires Partition(blocks, size) && |xs| == |blocks| && k < |blocks|
    requires forall i :: 0 <= i < |xs| ==> xs[i].start == blocks[i].start && xs[i].end == blocks[i].end
    ensures Tight(xs[k..], blocks[k].start)
    decreases |blocks| - k
  {
    assert BlockEnds(blocks, size, k);
    assert xs[k..][1..] == xs[k + 1..];
    if k + 1 < |blocks| { TightSuffix(blocks, size, xs, k + 1); }
  }

  lemma Meets02(l: Layout, S: seq<Entry>, cfg: FunctionCfg)
    requires Assembled(l, S, cfg)
    ensures Cfg02(cfg, l.size)
  {
    RealAll(l, S, cfg);
    BuiltPartitions(l);
    var xs := cfg.blocks[..|l.blocks|];
    forall i | 0 <= i < |xs| ensures xs[i].start == l.blocks[i].start && xs[i].end == l.blocks[i].end {
      BlockOfLayout(l, S, cfg, i);
    }
    forall i, j | 0 <= i < j < |xs| ensures StartLe(xs[i], xs[j]) {
      BlocksAscend(l.blocks, l.size, i, j);
    }
    SortOfSorted(xs, StartLe);
    TightSuffix(l.blocks, l.size, xs, 0);
    assert xs[0..] == xs;
  }

  // ------------------------------------------------------- CFG-06, CFG-11, CFG-13

  lemma ExitOrEdges(l: Layout, k: nat)
    requires Built(l) && k < |l.blocks|
    ensures IsExit(l.blocks[k]) || l.blocks[k].succs != []
    ensures l.blocks[k].terminator.SwitchTerm? ==> |l.blocks[k].succs| == |l.blocks[k].terminator.table.cases| + 1
  {
    if l.insns != [] {
      assert BlockRight(l.insns, l.size, l.leaders, l.byOffset, l.cut, l.handlers, k, l.blocks[k]);
      EndsInside(l.insns, l.size, l.cut[k + 1] - 1);
    }
  }

  lemma Meets06And11(l: Layout, S: seq<Entry>, cfg: FunctionCfg)
    requires Assembled(l, S, cfg)
    ensures Cfg06(cfg) && Cfg11(cfg)
  {
    var m := |l.blocks|;
    forall k | 0 <= k < |cfg.blocks|
      ensures IsExit(cfg.blocks[k]) || cfg.blocks[k].succs != []
      ensures cfg.blocks[k].terminator.SwitchTerm? ==> |cfg.blocks[k].succs| == |cfg.blocks[k].terminator.table.cases| + 1
    {
      if k < m {
        BlockOfLayout(l, S, cfg, k);
        ExitOrEdges(l, k);
      } else {
        DispatcherEdges(m, 0, cfg.suspendPoints);
      }
    }
  }

  // ------------------------------------------------------- CFG-07, CFG-08, CFG-09

  lemma RegionOf(l: Layout, S: seq<Entry>, cfg: FunctionCfg, r: nat)
    requires Assembled(l, S, cfg) && r < |cfg.regions|
    ensures r < |S| && RegionStarted(S, l.blocks, l.byOffset, l.size, r, cfg.regions[r])
    ensures ValidHandler(S[r].handler, l.blocks, l.byOffset, l.size)
    ensures cfg.regions[r].parent == Parent(S, r)
  {
  }

  lemma Meets07(l: Layout, S: seq<Entry>, cfg: FunctionCfg)
    requires Assembled(l, S, cfg)
    ensures Cfg07(cfg)
  {
    forall r | 0 <= r < |cfg.regions| ensures StartsWithCatch(cfg.blocks, cfg.regions[r].handlerBlock) {
      RegionOf(l, S, cfg, r);
      BlockOfLayout(l, S, cfg, cfg.regions[r].handlerBlock);
    }
  }

  lemma Meets08(l: Layout, S: seq<Entry>, cfg: FunctionCfg)
    requires Assembled(l, S, cfg) && WellIndexed(cfg)
    ensures Cfg08(cfg)
  {
    forall r | 0 <= r < |cfg.regions| ensures InsideParent(cfg.regions, r) {
      RegionOf(l, S, cfg, r);
      if cfg.regions[r].parent.Some? { RegionOf(l, S, cfg, cfg.regions[r].parent.value); }
    }
  }

  lemma Meets09(l: Layout, S: seq<Entry>, cfg: FunctionCfg)
    requires Assembled(l, S, cfg) && WellIndexed(cfg)
    ensures Cfg09(cfg)
  {
    forall r, b: nat | 0 <= r < |cfg.regions| && b in cfg.regions[r].bodyBlocks
      ensures cfg.regions[r].startPc <= cfg.blocks[b].start && cfg.blocks[b].end <= cfg.regions[r].endPc
    {
      RegionOf(l, S, cfg, r);
      assert b < |l.blocks| && Covers(S[r].handler, l.blocks[b]);
      BlockOfLayout(l, S, cfg, b);
    }
  }

  // ------------------------------------------------------- CFG-10, CFG-17 .. CFG-19

  lemma EntryHasNoIdom(blocks: seq<BasicBlock>, entry: BlockId, d: BlockId)
    requires entry < |blocks|
    ensures !IsIdom(blocks, entry, d, entry)
  {
    var w := [entry];
    assert Path(blocks, entry, w) && Last(w, entry);
    assert d in w <==> d == entry;
  }

  lemma Meets10(l: Layout, S: seq<Entry>, cfg: FunctionCfg)
    requires Assembled(l, S, cfg) && WellIndexed(cfg)
    ensures Cfg10(cfg)
  {
    if cfg.dom.idom[cfg.entry].Some? { EntryHasNoIdom(cfg.blocks, cfg.entry, cfg.dom.idom[cfg.entry].value); }
    forall b | b in cfg.rpo && b != cfg.entry ensures cfg.dom.idom[b].Some? {
      assert Reachable(cfg.blocks, cfg.entry, b);
    }
  }

  lemma DispatcherIs(l: Layout, S: seq<Entry>, cfg: FunctionCfg)
    requires Assembled(l, S, cfg) && cfg.suspendPoints != []
    ensures |cfg.blocks| == |l.blocks| + 1
    ensures cfg.blocks[|l.blocks|] == Dispatcher(|l.blocks|, 0, cfg.suspendPoints).(preds := cfg.blocks[|l.blocks|].preds)
  {
  }

  lemma DispatcherOk(id: BlockId, points: seq<SuspendPoint>, d: BasicBlock)
    requires d == Dispatcher(id, 0, points).(preds := d.preds)
    ensures d.terminator.SwitchTerm? && |d.terminator.table.cases| == |points| + 1
    ensures forall k :: 0 <= k < |points| ==> exists e :: e in d.succs && e.to == points[k].resumeBlock
  {
    DispatcherEdges(id, 0, points);
  }

  lemma StatesCount(l: Layout, S: seq<Entry>, cfg: FunctionCfg)
    requires Assembled(l, S, cfg) && cfg.suspendPoints != []
    ensures CountStates(cfg.suspendPoints)
  {
    PointStates(l.insns, l.byOffset, cfg.suspendPoints);
  }

  lemma DispatcherBlock(l: Layout, S: seq<Entry>, cfg: FunctionCfg)
    requires Assembled(l, S, cfg) && cfg.suspendPoints != []
    ensures |cfg.blocks| == |l.blocks| + 1
    ensures var d := cfg.blocks[|l.blocks|];
            && d.terminator.SwitchTerm? && |d.terminator.table.cases| == |cfg.suspendPoints| + 1
            && forall k :: 0 <= k < |cfg.suspendPoints| ==> exists e :: e in d.succs && e.to == cfg.suspendPoints[k].resumeBlock
    ensures forall k :: 0 <= k < |cfg.suspendPoints| ==> cfg.suspendPoints[k].state == k + 1
  {
    DispatcherIs(l, S, cfg);
    DispatcherOk(|l.blocks|, cfg.suspendPoints, cfg.blocks[|l.blocks|]);
    StatesCount(l, S, cfg);
  }

  lemma PointStates(insns: seq<Instruction>, byOffset: map<int, BlockId>, points: seq<SuspendPoint>)
    requires TargetsAreBlocks(insns, byOffset, |insns|) && PointsRight(insns, byOffset, |insns|, points)
    ensures CountStates(points)
  {
  }

  lemma MeetsDispatcher(l: Layout, S: seq<Entry>, cfg: FunctionCfg)
    requires Assembled(l, S, cfg) && WellIndexed(cfg)
    ensures Cfg17(cfg) && Cfg18(cfg) && Cfg19(cfg)
  {
    if cfg.suspendPoints != [] {
      DispatcherBlock(l, S, cfg);
      forall k | 0 <= k < |cfg.suspendPoints| ensures |l.blocks| in cfg.blocks[cfg.suspendPoints[k].resumeBlock].preds {
        assert IsEdge(cfg.blocks, |l.blocks|, cfg.suspendPoints[k].resumeBlock);
      }
    }
  }

  // ------------------------------------------------------------ what an edge is for

  /** An edge under its kind goes to the block that starts where control goes in that case. */
  ghost predicate EdgeMeans(blocks: seq<BasicBlock>, last: Instruction, e: Edge)
    requires e.to < |blocks|
  {
    var start := blocks[e.to].start;
    match e.kind
    case FallthroughEdge => start == last.End()
    case JumpEdge => last.kind == Jump && last.targets != [] && start == last.targets[0]
    case BranchTaken => last.kind == CondJump && last.targets != [] && start == last.targets[0]
    case BranchNotTaken => last.kind == CondJump && start == last.End()
    case SwitchCaseEdge => last.kind == Switch && last.switchTable.Some? && SomeCase(last.switchTable.value, e, start)
    case SwitchDefaultEdge => last.kind == Switch && last.switchTable.Some? && start == last.switchTable.value.defaultTarget
  }

  ghost predicate SomeCase(table: SwitchTable, e: Edge, start: int) {
    && e.caseIsString == Some(table.kind == StringSwitch)
    && exists k :: 0 <= k < |table.cases| && e.caseValue == Some(table.cases[k].value) && start == table.cases[k].target
  }

  ghost predicate HasKind(succs: seq<Edge>, kind: EdgeKind) {
    exists e :: e in succs && e.kind == kind
  }

  lemma StartInResult(l: Layout, S: seq<Entry>, cfg: FunctionCfg, t: nat)
    requires Assembled(l, S, cfg) && l.insns != [] && t < |l.leaders|
    ensures t < |cfg.blocks| && cfg.blocks[t].start == l.leaders[t]
  {
    BlockOfLayout(l, S, cfg, t);
    BlockBody(l, t);
  }

  lemma NamedInLayout(l: Layout, b: nat)
    requires Built(l) && l.insns != [] && b < |l.blocks|
    ensures l.blocks[b].instructions != []
    ensures EdgesNamed(l.blocks[b].instructions[|l.blocks[b].instructions| - 1], l.size, l.leaders, l.blocks[b].succs)
  {
    BlockBody(l, b);
    assert NamedAt(l.insns, l.size, l.leaders, l.cut, b, l.blocks[b]);
  }

  lemma NamedInResult(l: Layout, S: seq<Entry>, cfg: FunctionCfg, b: nat)
    requires Assembled(l, S, cfg) && l.insns != [] && b < |l.blocks|
    ensures b < |cfg.blocks| && cfg.blocks[b].instructions != []
    ensures EdgesNamed(cfg.blocks[b].instructions[|cfg.blocks[b].instructions| - 1], l.size, l.leaders, cfg.blocks[b].succs)
  {
    BlockOfLayout(l, S, cfg, b);
    NamedInLayout(l, b);
  }

  lemma NamedMean(leaders: seq<int>, blocks: seq<BasicBlock>, last: Instruction, size: nat, succs: seq<Edge>)
    requires EdgesNamed(last, size, leaders, succs) && |leaders| <= |blocks| && forall t: nat :: t < |leaders| ==> blocks[t].start == leaders[t]
    ensures forall e {:trigger e in succs} :: e in succs ==> e.to < |blocks| && EdgeMeans(blocks, last, e)
    ensures last.kind == CondJump && !last.IsSaveGenerator() ==> HasKind(succs, BranchTaken) && (HasKind(succs, BranchNotTaken) <==> last.End() < size)
  {
    forall e | e in succs ensures e.to < |blocks| && EdgeMeans(blocks, last, e) {
      var k :| 0 <= k < |succs| && succs[k] == e;
    }
    if last.kind == CondJump && !last.IsSaveGenerator() {
      assert succs[0] in succs;
      if last.End() < size { assert succs[1] in succs; }
    }
  }

  /** The edges out of block b mean what their kinds say; a conditional jump has one to take, and
      one not to take if anything follows it; every case of a switch has one. */
  ghost predicate EdgesMean(blocks: seq<BasicBlock>, leaders: seq<int>, size: nat, b: nat) {
    && b < |blocks| && blocks[b].instructions != [] && |leaders| <= |blocks|
    && var last, succs := blocks[b].instructions[|blocks[b].instructions| - 1], blocks[b].succs;
    && (forall t: nat :: t < |leaders| ==> blocks[t].start == leaders[t])
    && EdgesNamed(last, size, leaders, succs)
    && (forall e {:trigger e in succs} :: e in succs ==> e.to < |blocks| && EdgeMeans(blocks, last, e))
    && (last.kind == CondJump && !last.IsSaveGenerator() ==> HasKind(succs, BranchTaken) && (HasKind(succs, BranchNotTaken) <==> last.End() < size))
    && (last.kind == Switch && !last.IsSaveGenerator() ==> last.switchTable.Some? && |succs| == |last.switchTable.value.cases| + 1)
  }

  lemma EdgesMeanFrom(blocks: seq<BasicBlock>, leaders: seq<int>, size: nat, b: nat)
    requires b < |blocks| && blocks[b].instructions != [] && |leaders| <= |blocks|
    requires forall t: nat :: t < |leaders| ==> blocks[t].start == leaders[t]
    requires EdgesNamed(blocks[b].instructions[|blocks[b].instructions| - 1], size, leaders, blocks[b].succs)
    ensures EdgesMean(blocks, leaders, size, b)
  {
    NamedMean(leaders, blocks, blocks[b].instructions[|blocks[b].instructions| - 1], size, blocks[b].succs);
  }

  lemma StartsInResult(l: Layout, S: seq<Entry>, cfg: FunctionCfg)
    requires Assembled(l, S, cfg) && l.insns != []
    ensures |l.leaders| <= |cfg.blocks| && forall t: nat :: t < |l.leaders| ==> cfg.blocks[t].start == l.leaders[t]
  {
    forall t: nat | t < |l.leaders| ensures t < |cfg.blocks| && cfg.blocks[t].start == l.leaders[t] { StartInResult(l, S, cfg, t); }
  }

  /** ... of the built graph, for every block of the layout. */
  lemma ResultEdgesMean(l: Layout, S: seq<Entry>, cfg: FunctionCfg, b: nat)
    requires Assembled(l, S, cfg) && l.insns != [] && b < |l.blocks|
    ensures EdgesMean(cfg.blocks, l.leaders, l.size, b)
  {
    StartsInResult(l, S, cfg);
    NamedInResult(l, S, cfg, b);
    EdgesMeanFrom(cfg.blocks, l.leaders, l.size, b);
  }

  // ------------------------------------------------------- putting it together

  lemma LayoutBlocksOk(l: Layout)
    requires Built(l)
    ensures BlocksOk(l.blocks, l.byOffset)
    ensures l.size > 0 ==> forall b :: 0 <= b < |l.blocks| ==> l.blocks[b].start < l.blocks[b].end
  {
    forall b | 0 <= b < |l.blocks|
      ensures l.blocks[b].id == b && (l.size > 0 ==> l.blocks[b].start < l.blocks[b].end)
      ensures StartsWithCatch(l.blocks, b) ==> l.blocks[b].instructions[0].operands != []
    {
      LayoutBlock(l, b);
      if l.insns != [] { BlockBody(l, b); }
    }
  }

  /** Every save target is a leader, hence a block start. */
  lemma SavesResumeAtBlocks(l: Layout)
    requires Built(l)
    ensures TargetsAreBlocks(l.insns, l.byOffset, |l.insns|)
  {
    forall i | 0 <= i < |l.insns| && IsSaveSite(l.insns[i]) ensures l.insns[i].targets[0] in l.byOffset {
      assert LeaderFrom(l.insns[i], l.size, l.insns[i].targets[0]);
      assert l.insns[i].targets[0] in l.leaders;
    }
  }

  lemma ResumeBlocksInRange(l: Layout, points: seq<SuspendPoint>)
    requires Built(l) && TargetsAreBlocks(l.insns, l.byOffset, |l.insns|) && PointsRight(l.insns, l.byOffset, |l.insns|, points)
    ensures forall k :: 0 <= k < |points| ==> points[k].resumeBlock < |l.blocks|
  {
    var s := SaveSites(l.insns, |l.insns|);
    forall k | 0 <= k < |points| ensures points[k].resumeBlock < |l.blocks| {
      assert IsSaveSite(l.insns[s[k]]);
      var o := l.insns[s[k]].targets[0];
      assert o in l.byOffset && l.byOffset[o] < |l.leaders|;
      assert PointRight(l.insns, l.byOffset, s[k], k, points[k]);
    }
  }

  lemma RawEdgesValid(l: Layout, points: seq<SuspendPoint>)
    requires Built(l) && forall k :: 0 <= k < |points| ==> points[k].resumeBlock < |l.blocks|
    ensures EdgesValid(WithDispatcher(l.blocks, points))
  {
    BuiltEdgesValid(l);
    DispatcherEdges(|l.blocks|, 0, points);
    BuiltPartitions(l);
  }

  lemma HandlersInRange(l: Layout, S: seq<Entry>, cfg: FunctionCfg)
    requires Assembled(l, S, cfg)
    ensures InRange(cfg.blocks, cfg.exceptionSuccs)
  {
    forall a: nat, b: nat | a in cfg.exceptionSuccs && b in cfg.exceptionSuccs[a] ensures b < |cfg.blocks| {
      assert SuccsAt(S, l.handlers, l.blocks[a], l.byOffset, Lookup(cfg.exceptionSuccs, a));
      var k :| 0 <= k < |cfg.exceptionSuccs[a]| && cfg.exceptionSuccs[a][k] == b;
    }
  }

  lemma IdsRight(l: Layout, S: seq<Entry>, cfg: FunctionCfg)
    requires Assembled(l, S, cfg)
    ensures forall b :: 0 <= b < |cfg.blocks| ==> cfg.blocks[b].id == b
  {
    forall b | 0 <= b < |cfg.blocks| ensures cfg.blocks[b].id == b {
      if b < |l.blocks| {
        BlockOfLayout(l, S, cfg, b);
        LayoutBlock(l, b);
      }
    }
  }

  lemma ResultWellIndexed(l: Layout, S: seq<Entry>, cfg: FunctionCfg)
    requires Assembled(l, S, cfg)
    ensures WellIndexed(cfg)
  {
    HandlersInRange(l, S, cfg);
    IdsRight(l, S, cfg);
    forall r | 0 <= r < |cfg.regions|
      ensures cfg.regions[r].handlerBlock < |cfg.blocks|
      ensures forall b: nat :: b in cfg.regions[r].bodyBlocks ==> b < |cfg.blocks|
      ensures cfg.regions[r].parent.Some? ==> cfg.regions[r].parent.value < |cfg.regions|
    {
      RegionOf(l, S, cfg, r);
    }
    forall k | 0 <= k < |cfg.rpo| ensures cfg.rpo[k] < |cfg.blocks| {
      assert cfg.rpo[k] in cfg.rpo;
      ReachableInRange(cfg.blocks, cfg.entry, cfg.rpo[k]);
    }
    if cfg.suspendPoints != [] { ResumeBlocksInRange(l, cfg.suspendPoints); }
    BuiltPartitions(l);
  }

  lemma Meets04(l: Layout, S: seq<Entry>, cfg: FunctionCfg)
    requires Assembled(l, S, cfg)
    ensures Cfg04(cfg)
  {
  }

  lemma Meets13(l: Layout, S: seq<Entry>, cfg: FunctionCfg)
    requires Assembled(l, S, cfg)
    ensures Cfg13(cfg, l.insns)
  {
  }

  /** Every invariant but CFG-05 holds of what buildCfg returns. */
  lemma ResultMeetsInvariants(l: Layout, S: seq<Entry>, cfg: FunctionCfg, id: CheckId)
    requires Assembled(l, S, cfg) && WellIndexed(cfg) && id != CFG05
    ensures Holds(cfg, l.insns, l.size, id)
  {
    if AboutBlocks(id) { MeetsBlockChecks(l, S, cfg, id); } else { MeetsOtherChecks(l, S, cfg, id); }
  }

  predicate AboutBlocks(id: CheckId) {
    id.CFG01? || id.CFG02? || id.CFG04? || id.CFG06? || id.CFG11? || id.CFG13?
  }

  lemma MeetsBlockChecks(l: Layout, S: seq<Entry>, cfg: FunctionCfg, id: CheckId)
    requires Assembled(l, S, cfg) && WellIndexed(cfg) && AboutBlocks(id)
    ensures Holds(cfg, l.insns, l.size, id)
  {
    match id
    case CFG01 => Meets01(l, S, cfg);
    case CFG02 => Meets02(l, S, cfg);
    case CFG04 => Meets04(l, S, cfg);
    case CFG13 => Meets13(l, S, cfg);
    case _ => Meets06And11(l, S, cfg);
  }

  lemma MeetsOtherChecks(l: Layout, S: seq<Entry>, cfg: FunctionCfg, id: CheckId)
    requires Assembled(l, S, cfg) && WellIndexed(cfg) && !AboutBlocks(id) && id != CFG05
    ensures Holds(cfg, l.insns, l.size, id)
  {
    match id
    case CFG07 => Meets07(l, S, cfg);
    case CFG08 => Meets08(l, S, cfg);
    case CFG09 => Meets09(l, S, cfg);
    case CFG10 => Meets10(l, S, cfg);
    case _ => MeetsDispatcher(l, S, cfg);
  }

  /** Of the first n blocks, those control leaves the function from, ascending. */
  ghost predicate ExitsRight(blocks: seq<BasicBlock>, n: nat, exits: seq<BlockId>)
    requires n <= |blocks|
  {
    && (forall k :: 0 <= k < |exits| ==> exits[k] < n)
    && (forall b: nat :: b in exits <==> b < n && blocks[b].terminator in {ReturnTerm, ThrowTerm, UnreachableTerm})
    && forall j, k :: 0 <= j < k < |exits| ==> exits[j] < exits[k]
  }

  /** Everything that is promised of dominators, of this graph. */
  ghost predicate DomRight(cfg: FunctionCfg) {
    exists u :: Correct(cfg.blocks, cfg.entry, DomResult(cfg.rpo, cfg.dom, cfg.reducible, u))
  }

  method ExitsOf(blocks: seq<BasicBlock>) returns (exits: seq<BlockId>)
    ensures ExitsRight(blocks, |blocks|, exits)
  {
    exits := [];
    for b := 0 to |blocks|
      invariant ExitsRight(blocks, b, exits)
    {
      if IsExit(blocks[b]) { exits := exits + [b]; }
    }
  }

  /** The body of an opcode-era generator that saves its state to resume later. */
  ghost predicate Resumes(insns: seq<Instruction>, era: Era) {
    era == OpcodeEra && insns != [] && insns[0].name == StartGenerator && exists i :: 0 <= i < |insns| && IsSaveSite(insns[i])
  }

  /** Suspend points of an opcode-era generator body; none for any other function. */
  method SuspendPointsOf(insns: seq<Instruction>, byOffset: map<int, BlockId>, era: Era, ghost l: Layout) returns (r: Option<seq<SuspendPoint>>)
    requires Built(l) && l.insns == insns && l.byOffset == byOffset
    ensures r.Some? && TargetsAreBlocks(insns, byOffset, |insns|)
    ensures r.value == [] || (era == OpcodeEra && PointsRight(insns, byOffset, |insns|, r.value))
    ensures r.value != [] <==> Resumes(insns, era)
    ensures forall k :: 0 <= k < |r.value| ==> r.value[k].resumeBlock < |l.blocks|
  {
    SavesResumeAtBlocks(l);
    r := Some([]);
    if era == OpcodeEra && insns != [] && insns[0].name == StartGenerator {
      r := FindSuspendPoints(insns, byOffset);
      if i: nat :| i < |insns| && IsSaveSite(insns[i]) { assert i in SaveSites(insns, |insns|); }
      assert r.value != [] ==> IsSaveSite(insns[SaveSites(insns, |insns|)[0]]);
      ResumeBlocksInRange(l, r.value);
    }
  }

  method BuildCfg(insns: seq<Instruction>, handlers: seq<ExceptionHandler>, size: nat, at: map<int, nat>, era: Era, kind: FunctionKind, maxBlocks: nat)
    returns (r: BuildResult, ghost l: Layout, ghost S: seq<Entry>)
    requires Decoded(insns, size, at)
    ensures LeadersOf(insns, handlers, size, at, l.leaders) && !r.Internal?
    ensures r.TooComplex? <==> |l.leaders| > maxBlocks
    ensures !r.TooComplex? ==> Built(l) && l.insns == insns && l.handlers == handlers && l.size == size && l.at == at
                               && (r.Ok? <==> Acceptable(handlers, l.blocks, l.byOffset, size))
    ensures r.Ok? ==> Assembled(l, S, r.cfg) && QueryRight(r.cfg.blocks, r.cfg.entry, r.cfg.dom)
                      && (r.cfg.reducible <==> Reducible(r.cfg.blocks, r.cfg.entry))
    ensures r.Ok? ==> ExitsRight(r.cfg.blocks, |r.cfg.blocks|, r.cfg.exits) && DomRight(r.cfg)
    ensures r.Ok? ==> r.cfg.era == era && r.cfg.kind == kind && (r.cfg.suspendPoints != [] <==> Resumes(insns, era))
  {
    S := [];
    var leaders := ComputeLeaders(insns, handlers, size, at);
    l := Layout(insns, handlers, size, at, leaders, [], map[], []);
    if |leaders| > maxBlocks { return TooComplex, l, S; }
    var raw, cut := BuildBlocks(insns, leaders, size, handlers, at);
    if !raw.RawBlocks? { return Internal, l, S; }
    l := Layout(insns, handlers, size, at, leaders, raw.blocks, raw.byOffset, cut);
    LayoutBlocksOk(l);
    var carved, table := CarveRegions(handlers, raw.blocks, raw.byOffset, size);
    S := table;
    if carved.BadHandler? { return BadHandlerTable, l, S; }

    var found := SuspendPointsOf(insns, raw.byOffset, era, l);
    if found.None? { return Internal, l, S; }
    r := Finish(raw, carved.regions, carved.exceptionSuccs, found.value, era, kind, l, S);
  }

  /** Predecessors, dominators and exits. */
  method Analyse(raw: seq<BasicBlock>, entry: BlockId) returns (blocks: seq<BasicBlock>, d: Option<DomResult>, exits: seq<BlockId>)
    requires EdgesValid(raw) && entry < |raw|
    ensures |blocks| == |raw| && (forall k :: 0 <= k < |raw| ==> blocks[k] == raw[k].(preds := blocks[k].preds))
    ensures (forall k :: 0 <= k < |raw| ==> AscendingPreds(blocks[k])) && EdgesValid(blocks) && PredsReverse(blocks)
    ensures d.Some? && Correct(blocks, entry, d.value) && ExitsRight(blocks, |blocks|, exits)
  {
    blocks := ComputePreds(raw);
    d := ComputeDominators(blocks, entry);
    exits := ExitsOf(blocks);
  }

  /** The second half: the dispatcher, predecessors and dominators, put together. */
  method Finish(raw: RawBlocks, regions: seq<ExceptionRegion>, succs: map<BlockId, seq<BlockId>>, points: seq<SuspendPoint>, era: Era, kind: FunctionKind,
                ghost l: Layout, ghost S: seq<Entry>)
    returns (r: BuildResult)
    requires raw.RawBlocks? && Built(l) && raw.blocks == l.blocks && raw.byOffset == l.byOffset && BlocksOk(l.blocks, l.byOffset)
    requires RegionsRight(S, l.blocks, l.byOffset, l.size, regions) && SuccsRight(S, l.handlers, l.blocks, l.byOffset, |l.blocks|, succs)
    requires TargetsAreBlocks(l.insns, l.byOffset, |l.insns|) && (points == [] || (era == OpcodeEra && PointsRight(l.insns, l.byOffset, |l.insns|, points)))
    requires forall k :: 0 <= k < |points| ==> points[k].resumeBlock < |l.blocks|
    ensures r.Ok? && Assembled(l, S, r.cfg) && QueryRight(r.cfg.blocks, r.cfg.entry, r.cfg.dom) && (r.cfg.reducible <==> Reducible(r.cfg.blocks, r.cfg.entry))
    ensures ExitsRight(r.cfg.blocks, |r.cfg.blocks|, r.cfg.exits) && DomRight(r.cfg)
    ensures r.cfg.era == era && r.cfg.kind == kind && r.cfg.suspendPoints == points
  {
    BuiltPartitions(l);
    RawEdgesValid(l, points);
    var blocks, entry, resumeDispatch := raw.blocks, 0, None;
    if points != [] {
      blocks, entry := AddResumeDispatch(blocks, 0, points);
      resumeDispatch := Some(entry);
    }
    var dominators, exits;
    blocks, dominators, exits := Analyse(blocks, entry);
    if dominators.None? { return Internal; }
    var d := dominators.value;
    r := Ok(FunctionCfg(blocks, entry, exits, raw.byOffset, succs, regions, d.dom, d.rpo, d.reducible, era, kind, resumeDispatch, points));
  }

  // ------------------------------------------------------------ the VM's handler

  /** No entry ends inside a block: the list of misaligned entries is empty. */
  ghost predicate EndsAligned(l: Layout) {
    MisalignedRight(l.handlers, l.byOffset, l.size, [])
  }

  /** A leader is at the start of its block or a later one. */
  lemma LeaderSplits(l: Layout, o: int, k: nat)
    requires Built(l) && l.insns != [] && o in l.byOffset && k < |l.blocks|
    ensures l.blocks[k].end <= o || o <= l.blocks[k].start
  {
    var q := l.byOffset[o];
    BuiltPartitions(l);
    BlockSpan(l, q);
    BlockBody(l, q);
    if k < q { BlocksAscend(l.blocks, l.size, k, q); } else { BlocksAscend(l.blocks, l.size, q, k); }
  }

  lemma EndsBySize(l: Layout, k: nat)
    requires Built(l) && k < |l.blocks|
    ensures l.blocks[k].end <= l.size
  {
    BuiltPartitions(l);
    EndsBy(l.blocks, l.size, k);
  }

  lemma EndsBy(blocks: seq<BasicBlock>, size: nat, k: nat)
    requires Partition(blocks, size) && k < |blocks|
    ensures blocks[k].end <= size
  {
    BlocksAscend(blocks, size, k, |blocks| - 1);
  }

  lemma HandlersOk(l: Layout, S: seq<Entry>, cfg: FunctionCfg, i: nat)
    requires Assembled(l, S, cfg) && i < |l.handlers|
    ensures RangeOk(l.handlers[i], l.byOffset, l.size)
  {
    var k := Position(S, l.handlers, i);
    RegionOf(l, S, cfg, k);
  }

  /** Leaders are at every boundary, so without misaligned entries every block is aligned. */
  lemma BuiltAligned(l: Layout, S: seq<Entry>, cfg: FunctionCfg, b: nat)
    requires Assembled(l, S, cfg) && EndsAligned(l) && l.insns != [] && b < |l.blocks|
    ensures Aligned(l.handlers, l.blocks[b])
  {
    BlockNonempty(l, b);
    EndsBySize(l, b);
    forall i | 0 <= i < |l.handlers| ensures Covers(l.handlers[i], l.blocks[b]) || l.handlers[i].end <= l.blocks[b].start || l.blocks[b].end <= l.handlers[i].start {
      HandlersOk(l, S, cfg, i);
      LeaderSplits(l, l.handlers[i].start, b);
      assert i !in [];
      if l.handlers[i].end != l.size { LeaderSplits(l, l.handlers[i].end, b); }
    }
  }

  /** In a built graph without misaligned entries, where inner entries are listed first over a
      block, an exception at any pc of the block goes to the head of its exception successors:
      the entry the VM finds. */
  lemma BuiltHeadIsVmChoice(l: Layout, S: seq<Entry>, cfg: FunctionCfg, b: nat, pc: int)
    requires Assembled(l, S, cfg) && EndsAligned(l) && l.insns != []
    requires b < |l.blocks| && l.blocks[b].start <= pc < l.blocks[b].end && InnerFirst(l.handlers, l.blocks[b])
    ensures match FirstMatch(l.handlers, pc)
            case None => b !in cfg.exceptionSuccs
            case Some(f) => b in cfg.exceptionSuccs && cfg.exceptionSuccs[b] != [] && l.handlers[f].target in cfg.byOffset
                            && cfg.exceptionSuccs[b][0] == cfg.byOffset[l.handlers[f].target]
  {
    BuiltAligned(l, S, cfg, b);
    BlockNonempty(l, b);
    SuccsHeadIsVmChoice(S, l.handlers, l.blocks, l.byOffset, cfg.exceptionSuccs, b, pc);
  }
}
