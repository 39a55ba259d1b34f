// The invariants CFG-01 .. CFG-19 of src/cfg/invariants.ts: what each check asks, and the
// checker that asks it.
module Invariants {
  import opened CfgTypes
  import opened Blocks
  import opened Exceptions
  import opened Dominators
  import opened Generators
  import opened Reach
  import opened Sorting
  import opened SetOrder

  datatype Era = NoEra | OpcodeEra | LoweredEra

  datatype FunctionKind = NormalFunction | GeneratorFunction | AsyncFunction | AsyncGeneratorFunction

  datatype FunctionCfg = FunctionCfg(blocks: seq<BasicBlock>, entry: BlockId, exits: seq<BlockId>, byOffset: map<int, BlockId>,
                                     exceptionSuccs: map<BlockId, seq<BlockId>>, regions: seq<ExceptionRegion>, dom: DominatorTree,
                                     rpo: seq<BlockId>, reducible: bool, era: Era, kind: FunctionKind,
                                     resumeDispatch: Option<BlockId>, suspendPoints: seq<SuspendPoint>)

  datatype CheckId = CFG01 | CFG02 | CFG04 | CFG05 | CFG06 | CFG07 | CFG08 | CFG09 | CFG10 | CFG11 | CFG13 | CFG17 | CFG18 | CFG19

  datatype Verdict = Pass | Fail(id: CheckId)

  /** The shape the checks take for granted: indices that are indices. */
  ghost predicate WellIndexed(cfg: FunctionCfg) {
    && cfg.entry < |cfg.blocks| && |cfg.dom.idom| == |cfg.blocks|
    && EdgesValid(cfg.blocks) && InRange(cfg.blocks, cfg.exceptionSuccs)
    && (forall b :: 0 <= b < |cfg.blocks| ==> cfg.blocks[b].id == b)
    && (forall r :: 0 <= r < |cfg.regions| ==> cfg.regions[r].handlerBlock < |cfg.blocks|)
    && (forall r, b: nat :: 0 <= r < |cfg.regions| && b in cfg.regions[r].bodyBlocks ==> b < |cfg.blocks|)
    && (forall r :: 0 <= r < |cfg.regions| && cfg.regions[r].parent.Some? ==> cfg.regions[r].parent.value < |cfg.regions|)
    && (forall k :: 0 <= k < |cfg.rpo| ==> cfg.rpo[k] < |cfg.blocks|)
    && (cfg.resumeDispatch.Some? ==> cfg.resumeDispatch.value < |cfg.blocks|)
    && (forall k :: 0 <= k < |cfg.suspendPoints| ==> cfg.suspendPoints[k].resumeBlock < |cfg.blocks|)
  }

  // ------------------------------------------------------ the invariants

  function RealBlocks(blocks: seq<BasicBlock>): seq<BasicBlock> {
    if blocks == [] then []
    else
      var b := blocks[|blocks| - 1];
      if b.start >= 0 then RealBlocks(blocks[..|blocks| - 1]) + [b] else RealBlocks(blocks[..|blocks| - 1])
  }

  function InstructionCount(blocks: seq<BasicBlock>): nat {
    if blocks == [] then 0 else InstructionCount(blocks[..|blocks| - 1]) + |blocks[|blocks| - 1].instructions|
  }

  predicate StartLe(a: BasicBlock, b: BasicBlock) {
    a.start <= b.start
  }

  /** Each block starts where the one before ends, from `from` on. */
  predicate Tight(blocks: seq<BasicBlock>, from: int)
    decreases |blocks|
  {
    blocks == [] || (blocks[0].start == from && Tight(blocks[1..], blocks[0].end))
  }

  function EndOf(blocks: seq<BasicBlock>, from: int): int {
    if blocks == [] then from else blocks[|blocks| - 1].end
  }

  ghost predicate Cfg01(cfg: FunctionCfg, insns: seq<Instruction>) {
    InstructionCount(RealBlocks(cfg.blocks)) == |insns|
  }

  ghost predicate Cfg02(cfg: FunctionCfg, size: nat) {
    var ordered := Sort(RealBlocks(cfg.blocks), StartLe);
    && Tight(ordered, 0) && (size > 0 ==> EndOf(ordered, 0) == size)
    && |cfg.blocks| - |RealBlocks(cfg.blocks)| <= 1
  }

  ghost predicate Cfg04(cfg: FunctionCfg) {
    PredsReverse(cfg.blocks) && forall b :: 0 <= b < |cfg.blocks| ==> AscendingPreds(cfg.blocks[b])
  }

  predicate OpcodeGenerator(cfg: FunctionCfg) {
    cfg.era == OpcodeEra && cfg.kind != NormalFunction
  }

  ghost predicate Cfg05(cfg: FunctionCfg) {
    OpcodeGenerator(cfg) && cfg.suspendPoints != [] ==>
      forall b: nat {:trigger AnyReachable(cfg.blocks, cfg.exceptionSuccs, cfg.entry, b)} ::
        b < |cfg.blocks| ==> AnyReachable(cfg.blocks, cfg.exceptionSuccs, cfg.entry, b)
  }

  predicate IsExit(b: BasicBlock) {
    b.terminator.ReturnTerm? || b.terminator.ThrowTerm? || b.terminator.UnreachableTerm?
  }

  ghost predicate Cfg06(cfg: FunctionCfg) {
    forall b :: 0 <= b < |cfg.blocks| ==> IsExit(cfg.blocks[b]) || cfg.blocks[b].succs != []
  }

  ghost predicate Cfg07(cfg: FunctionCfg) {
    forall r :: 0 <= r < |cfg.regions| ==> StartsWithCatch(cfg.blocks, cfg.regions[r].handlerBlock)
  }

  predicate InsideParent(regions: seq<ExceptionRegion>, r: nat)
    requires r < |regions| && (regions[r].parent.Some? ==> regions[r].parent.value < |regions|)
  {
    match regions[r].parent
    case None => true
    case Some(p) => regions[p].startPc <= regions[r].startPc && regions[r].endPc <= regions[p].endPc
  }

  ghost predicate Cfg08(cfg: FunctionCfg)
    requires WellIndexed(cfg)
  {
    forall r :: 0 <= r < |cfg.regions| ==> InsideParent(cfg.regions, r)
  }

  ghost predicate Cfg09(cfg: FunctionCfg)
    requires WellIndexed(cfg)
  {
    forall r, b: nat :: 0 <= r < |cfg.regions| && b in cfg.regions[r].bodyBlocks ==>
      cfg.regions[r].startPc <= cfg.blocks[b].start && cfg.blocks[b].end <= cfg.regions[r].endPc
  }

  ghost predicate Cfg10(cfg: FunctionCfg)
    requires WellIndexed(cfg)
  {
    && cfg.dom.idom[cfg.entry] == None
    && forall b :: b in cfg.rpo && b != cfg.entry ==> cfg.dom.idom[b].Some?
  }

  ghost predicate Cfg11(cfg: FunctionCfg) {
    forall b :: 0 <= b < |cfg.blocks| && cfg.blocks[b].terminator.SwitchTerm? ==>
      |cfg.blocks[b].succs| == |cfg.blocks[b].terminator.table.cases| + 1
  }

  ghost predicate Cfg13(cfg: FunctionCfg, insns: seq<Instruction>) {
    forall i {:trigger IsSaveSite(insns[i])} :: 0 <= i < |insns| && IsSaveSite(insns[i]) ==> insns[i].targets[0] in cfg.byOffset
  }

  predicate NeedsDispatcher(cfg: FunctionCfg) {
    cfg.era == OpcodeEra && cfg.suspendPoints != []
  }

  ghost predicate Cfg17(cfg: FunctionCfg) {
    NeedsDispatcher(cfg) ==> cfg.resumeDispatch == Some(cfg.entry)
  }

  ghost predicate Cfg18(cfg: FunctionCfg)
    requires WellIndexed(cfg)
  {
    NeedsDispatcher(cfg) && cfg.resumeDispatch.Some? ==>
      forall k :: 0 <= k < |cfg.suspendPoints| ==> cfg.resumeDispatch.value in cfg.blocks[cfg.suspendPoints[k].resumeBlock].preds
  }

  ghost predicate Cfg19(cfg: FunctionCfg)
    requires WellIndexed(cfg)
  {
    NeedsDispatcher(cfg) && cfg.resumeDispatch.Some? ==>
      var d := cfg.blocks[cfg.resumeDispatch.value];
      && d.terminator.SwitchTerm? && |d.terminator.table.cases| == |cfg.suspendPoints| + 1
      && forall k :: 0 <= k < |cfg.suspendPoints| ==> cfg.suspendPoints[k].state == k + 1
  }

  /** What one check asks. */
  ghost predicate Holds(cfg: FunctionCfg, insns: seq<Instruction>, size: nat, id: CheckId)
    requires WellIndexed(cfg)
  {
    match id
    case CFG01 => Cfg01(cfg, insns)
    case CFG02 => Cfg02(cfg, size)
    case CFG04 => Cfg04(cfg)
    case CFG05 => Cfg05(cfg)
    case CFG06 => Cfg06(cfg)
    case CFG07 => Cfg07(cfg)
    case CFG08 => Cfg08(cfg)
    case CFG09 => Cfg09(cfg)
    case CFG10 => Cfg10(cfg)
    case CFG11 => Cfg11(cfg)
    case CFG13 => Cfg13(cfg, insns)
    case CFG17 => Cfg17(cfg)
    case CFG18 => Cfg18(cfg)
    case CFG19 => Cfg19(cfg)
  }

  // -------------------------------------------------------- the checker

  lemma CountStep(blocks: seq<BasicBlock>, k: nat)
    requires k < |blocks|
    ensures blocks[..k + 1][..k] == blocks[..k] && blocks[..k + 1][k] == blocks[k]
  {
  }

  method Check01(cfg: FunctionCfg, insns: seq<Instruction>) returns (ok: bool)
    ensures ok <==> Cfg01(cfg, insns)
  {
    var count := 0;
    for k := 0 to |cfg.blocks|
      invariant count == InstructionCount(RealBlocks(cfg.blocks[..k]))
    {
      CountStep(cfg.blocks, k);
      var b := cfg.blocks[k];
      if b.start >= 0 {
        count := count + |b.instructions|;
        assert (RealBlocks(cfg.blocks[..k]) + [b])[..|RealBlocks(cfg.blocks[..k])|] == RealBlocks(cfg.blocks[..k]);
      }
    }
    assert cfg.blocks[..|cfg.blocks|] == cfg.blocks;
    ok := count == |insns|;
  }

  method Check02(cfg: FunctionCfg, size: nat) returns (ok: bool)
    ensures ok <==> Cfg02(cfg, size)
  {
    var bodies := RealBlocks(cfg.blocks);
    var ordered := Sort(bodies, StartLe);
    var cursor := 0;
    for k := 0 to |ordered|
      invariant cursor == EndOf(ordered[..k], 0)
      invariant Tight(ordered, 0) <==> Tight(ordered[k..], cursor)
    {
      var b := ordered[k];
      assert ordered[k..][1..] == ordered[k + 1..];
      if b.start != cursor { return false; }
      cursor := b.end;
    }
    assert ordered[..|ordered|] == ordered;
    if size > 0 && cursor != size { return false; }
    ok := |cfg.blocks| - |bodies| <= 1;
  }

  method Check04(cfg: FunctionCfg) returns (ok: bool)
    requires WellIndexed(cfg)
    ensures ok <==> Cfg04(cfg)
  {
    var expected := CollectPreds(cfg.blocks);
    for b := 0 to |cfg.blocks|
      invariant forall x: nat :: x < b ==> cfg.blocks[x].preds == Ascending(expected[x])
    {
      var want := Ascending(expected[b]);
      if cfg.blocks[b].preds != want {
        if Cfg04(cfg) {
          SameAscending(cfg, expected, b);
          assert false;
        }
        return false;
      }
    }
    PredsFromSets(cfg, expected);
    ok := true;
  }

  lemma SameAscending(cfg: FunctionCfg, expected: seq<set<int>>, b: nat)
    requires PredSets(cfg.blocks, expected, |cfg.blocks|) && Cfg04(cfg) && b < |cfg.blocks|
    ensures cfg.blocks[b].preds == Ascending(expected[b])
  {
    var preds: seq<int> := cfg.blocks[b].preds;
    assert AscendingPreds(cfg.blocks[b]);
    forall x ensures x in preds <==> x in Ascending(expected[b]) {
      assert x in expected[b] <==> 0 <= x < |cfg.blocks| && IsEdge(cfg.blocks, x, b);
    }
    AscendingUnique(preds, Ascending(expected[b]));
  }

  lemma PredsFromSets(cfg: FunctionCfg, expected: seq<set<int>>)
    requires PredSets(cfg.blocks, expected, |cfg.blocks|)
    requires forall x: nat :: x < |cfg.blocks| ==> cfg.blocks[x].preds == Ascending(expected[x])
    ensures Cfg04(cfg)
  {
    forall b: nat, p: nat | b < |cfg.blocks| ensures p in cfg.blocks[b].preds <==> IsEdge(cfg.blocks, p, b) {
      assert p in expected[b] <==> 0 <= p < |cfg.blocks| && IsEdge(cfg.blocks, p, b);
    }
    forall b | 0 <= b < |cfg.blocks| ensures AscendingPreds(cfg.blocks[b]) {
      assert cfg.blocks[b].preds == Ascending(expected[b]);
    }
  }

  method Check05(cfg: FunctionCfg) returns (ok: bool)
    requires WellIndexed(cfg)
    ensures ok <==> Cfg05(cfg)
  {
    var reachable := ReachableBlocks(cfg.blocks, cfg.exceptionSuccs, cfg.entry);
    for b := 0 to |cfg.blocks|
      invariant OpcodeGenerator(cfg) && cfg.suspendPoints != [] ==> forall x: nat :: x < b ==> x in reachable
    {
      if b in reachable { continue; }
      if OpcodeGenerator(cfg) && cfg.suspendPoints != [] {
        assert !AnyReachable(cfg.blocks, cfg.exceptionSuccs, cfg.entry, b);
        return false;
      }
    }
    ok := true;
  }

  method Check06(cfg: FunctionCfg) returns (ok: bool)
    ensures ok <==> Cfg06(cfg)
  {
    for b := 0 to |cfg.blocks|
      invariant forall x :: 0 <= x < b ==> IsExit(cfg.blocks[x]) || cfg.blocks[x].succs != []
    {
      if !IsExit(cfg.blocks[b]) && |cfg.blocks[b].succs| == 0 { return false; }
    }
    ok := true;
  }

  method Check07(cfg: FunctionCfg) returns (ok: bool)
    ensures ok <==> Cfg07(cfg)
  {
    for r := 0 to |cfg.regions|
      invariant forall x :: 0 <= x < r ==> StartsWithCatch(cfg.blocks, cfg.regions[x].handlerBlock)
    {
      if !StartsWithCatch(cfg.blocks, cfg.regions[r].handlerBlock) { return false; }
    }
    ok := true;
  }

  method Check08(cfg: FunctionCfg) returns (ok: bool)
    requires WellIndexed(cfg)
    ensures ok <==> Cfg08(cfg)
  {
    for r := 0 to |cfg.regions|
      invariant forall x :: 0 <= x < r ==> InsideParent(cfg.regions, x)
    {
      if !InsideParent(cfg.regions, r) { return false; }
    }
    ok := true;
  }

  method Check09(cfg: FunctionCfg) returns (ok: bool)
    requires WellIndexed(cfg)
    ensures ok <==> Cfg09(cfg)
  {
    for r := 0 to |cfg.regions|
      invariant forall x, b: nat :: 0 <= x < r && b in cfg.regions[x].bodyBlocks ==>
        cfg.regions[x].startPc <= cfg.blocks[b].start && cfg.blocks[b].end <= cfg.regions[x].endPc
    {
      var region := cfg.regions[r];
      if exists id: nat :: id in region.bodyBlocks && (cfg.blocks[id].start < region.startPc || cfg.blocks[id].end > region.endPc) { return false; }
    }
    ok := true;
  }

  method Check10(cfg: FunctionCfg) returns (ok: bool)
    requires WellIndexed(cfg)
    ensures ok <==> Cfg10(cfg)
  {
    if cfg.dom.idom[cfg.entry] != None { return false; }
    for k := 0 to |cfg.rpo|
      invariant forall x :: 0 <= x < k && cfg.rpo[x] != cfg.entry ==> cfg.dom.idom[cfg.rpo[x]].Some?
    {
      var b := cfg.rpo[k];
      assert b in cfg.rpo;
      if b == cfg.entry { continue; }
      if cfg.dom.idom[b] == None { return false; }
    }
    ok := true;
  }

  method Check11(cfg: FunctionCfg) returns (ok: bool)
    ensures ok <==> Cfg11(cfg)
  {
    for b := 0 to |cfg.blocks|
      invariant forall x :: 0 <= x < b && cfg.blocks[x].terminator.SwitchTerm? ==>
        |cfg.blocks[x].succs| == |cfg.blocks[x].terminator.table.cases| + 1
    {
      if !cfg.blocks[b].terminator.SwitchTerm? { continue; }
      var want := |cfg.blocks[b].terminator.table.cases| + 1;
      if |cfg.blocks[b].succs| != want { return false; }
    }
    ok := true;
  }

  method Check13(cfg: FunctionCfg, insns: seq<Instruction>) returns (ok: bool)
    ensures ok <==> Cfg13(cfg, insns)
  {
    for i := 0 to |insns|
      invariant forall x {:trigger IsSaveSite(insns[x])} :: 0 <= x < i && IsSaveSite(insns[x]) ==> insns[x].targets[0] in cfg.byOffset
    {
      if !IsSaveSite(insns[i]) { continue; }
      if insns[i].targets[0] !in cfg.byOffset { return false; }
    }
    ok := true;
  }

  method CheckDispatcher(cfg: FunctionCfg) returns (v: Verdict)
    requires WellIndexed(cfg)
    ensures v.Pass? <==> Cfg17(cfg) && Cfg18(cfg) && Cfg19(cfg)
    ensures v.Fail? ==> v.id in {CFG17, CFG18, CFG19} && (v.id == CFG17 <==> !Cfg17(cfg)) && (v.id == CFG18 <==> Cfg17(cfg) && !Cfg18(cfg))
  {
    if !NeedsDispatcher(cfg) { return Pass; }
    if cfg.resumeDispatch == None { return Fail(CFG17); }
    if cfg.entry != cfg.resumeDispatch.value { return Fail(CFG17); }
    for k := 0 to |cfg.suspendPoints|
      invariant forall x :: 0 <= x < k ==> cfg.resumeDispatch.value in cfg.blocks[cfg.suspendPoints[x].resumeBlock].preds
    {
      if cfg.resumeDispatch.value !in cfg.blocks[cfg.suspendPoints[k].resumeBlock].preds { return Fail(CFG18); }
    }
    var d := cfg.blocks[cfg.resumeDispatch.value];
    if !d.terminator.SwitchTerm? { return Fail(CFG19); }
    if |d.terminator.table.cases| != |cfg.suspendPoints| + 1 { return Fail(CFG19); }
    for k := 0 to |cfg.suspendPoints|
      invariant forall x :: 0 <= x < k ==> cfg.suspendPoints[x].state == x + 1
    {
      if cfg.suspendPoints[k].state != k + 1 { return Fail(CFG19); }
    }
    v := Pass;
  }

  method CheckBlocks(cfg: FunctionCfg, insns: seq<Instruction>, size: nat) returns (v: Verdict)
    requires WellIndexed(cfg)
    ensures v.Pass? ==> Cfg01(cfg, insns) && Cfg02(cfg, size) && Cfg04(cfg) && Cfg05(cfg) && Cfg06(cfg)
    ensures v.Fail? ==> !Holds(cfg, insns, size, v.id)
  {
    var ok := Check01(cfg, insns);
    if !ok { return Fail(CFG01); }
    ok := Check02(cfg, size);
    if !ok { return Fail(CFG02); }
    ok := Check04(cfg);
    if !ok { return Fail(CFG04); }
    ok := Check05(cfg);
    if !ok { return Fail(CFG05); }
    ok := Check06(cfg);
    if !ok { return Fail(CFG06); }
    v := Pass;
  }

  method CheckRegions(cfg: FunctionCfg, insns: seq<Instruction>, size: nat) returns (v: Verdict)
    requires WellIndexed(cfg)
    ensures v.Pass? ==> Cfg07(cfg) && Cfg08(cfg) && Cfg09(cfg) && Cfg10(cfg) && Cfg11(cfg) && Cfg13(cfg, insns)
    ensures v.Fail? ==> !Holds(cfg, insns, size, v.id)
  {
    var ok := Check07(cfg);
    if !ok { return Fail(CFG07); }
    ok := Check08(cfg);
    if !ok { return Fail(CFG08); }
    ok := Check09(cfg);
    if !ok { return Fail(CFG09); }
    ok := Check10(cfg);
    if !ok { return Fail(CFG10); }
    ok := Check11(cfg);
    if !ok { return Fail(CFG11); }
    ok := Check13(cfg, insns);
    if !ok { return Fail(CFG13); }
    v := Pass;
  }

  /** The checker: it passes exactly when every invariant holds, and it names a broken one. */
  method CheckCfgInvariants(cfg: FunctionCfg, insns: seq<Instruction>, size: nat) returns (v: Verdict)
    requires WellIndexed(cfg)
    ensures v.Pass? <==> forall id :: Holds(cfg, insns, size, id)
    ensures v.Fail? ==> !Holds(cfg, insns, size, v.id)
  {
    v := CheckBlocks(cfg, insns, size);
    if v.Fail? { return; }
    v := CheckRegions(cfg, insns, size);
    if v.Fail? { return; }
    v := CheckDispatcher(cfg);
    if v.Fail? { assert !Holds(cfg, insns, size, v.id); }
  }
}
