// Two function bodies for the environment graph, each the decoding of bytes: the graph buildCfg
// makes of each, and what the tracker sees in it.
module EnvPrograms {
  import opened CfgTypes
  import opened SetOrder
  import opened Blocks
  import opened BlockFlow
  import opened Regions
  import opened Exceptions
  import opened Dominators
  import opened Generators
  import opened Invariants
  import opened Reach
  import opened BuildCfg
  import opened CheckedCfg
  import opened Decode
  import opened Programs
  import opened EnvState
  import opened EnvFlow
  import opened EnvOps
  import opened EnvCollect

  function JumpTo(offset: nat, target: nat): Instruction {
    Instruction(offset, 2, JMP, [target - offset], Jump, [target], None)
  }

  lemma TopLevelSpelled(offset: nat)
    ensures Spelled(HBC98, 65, Insn(offset, 6, CREATE_TOP_LEVEL_ENVIRONMENT, [0, 1]))
  {
    TablesOk();
    Starts([Reg8, UInt32]);
    PlainIsSpelled(HBC98, 65, Insn(offset, 6, CREATE_TOP_LEVEL_ENVIRONMENT, [0, 1]));
  }

  lemma InnerSpelled(offset: nat, dst: Reg, src: Reg)
    requires dst < 100 && src < 100
    ensures Spelled(HBC98, 66, Insn(offset, 7, CREATE_ENVIRONMENT, [dst, src, 1]))
  {
    TablesOk();
    Starts([Reg8, Reg8, UInt32]);
    PlainIsSpelled(HBC98, 66, Insn(offset, 7, CREATE_ENVIRONMENT, [dst, src, 1]));
  }

  lemma MoveSpelled(offset: nat, dst: Reg, src: Reg)
    requires dst < 100 && src < 100
    ensures Spelled(HBC98, 16, Insn(offset, 3, MOV, [dst, src]))
  {
    TablesOk();
    Starts([Reg8, Reg8]);
    PlainIsSpelled(HBC98, 16, Insn(offset, 3, MOV, [dst, src]));
  }

  lemma ReadsSpelled(offset: nat, dst: Reg, src: Reg, n: nat)
    requires dst < 100 && src < 100 && n < 100
    ensures Spelled(HBC98, 53, Insn(offset, 4, GET_ENVIRONMENT, [dst, src, n])) && Spelled(HBC98, 59, Insn(offset, 4, LOAD_FROM_ENVIRONMENT, [dst, src, n]))
  {
    TablesOk();
    Starts([Reg8, Reg8, UInt8]);
    PlainIsSpelled(HBC98, 53, Insn(offset, 4, GET_ENVIRONMENT, [dst, src, n]));
    PlainIsSpelled(HBC98, 59, Insn(offset, 4, LOAD_FROM_ENVIRONMENT, [dst, src, n]));
  }

  lemma StoreSpelled(offset: nat)
    ensures Spelled(HBC98, 75, Insn(offset, 6, PUT_BY_ID, [1, 2, 0, 0]))
  {
    TablesOk();
    Starts([Reg8, Reg8, UInt8, UInt16]);
    PlainIsSpelled(HBC98, 75, Insn(offset, 6, PUT_BY_ID, [1, 2, 0, 0]));
  }

  lemma EndsSpelled(offset: nat, r: Reg)
    requires r < 100
    ensures Spelled(HBC98, 118, Instruction(offset, 2, OpName.Ret, [r], Return, [], None))
    ensures Spelled(HBC98, 119, Instruction(offset, 2, OpName.Catch, [r], CatchInstr, [], None))
  {
    TablesOk();
    Starts([Reg8]);
    PlainIsSpelled(HBC98, 118, Instruction(offset, 2, OpName.Ret, [r], Return, [], None));
    PlainIsSpelled(HBC98, 119, Instruction(offset, 2, OpName.Catch, [r], CatchInstr, [], None));
  }

  // ---------------------------------------------------------------- both bodies

  /** A property store that may raise, protected by the handler at 14. The code after it and the
      handler each create an environment in register 0; at 22 a slot of it is read. */
  function SilentBody(): Body {
    Body([Insn(0, 6, PUT_BY_ID, [1, 2, 0, 0]), Insn(6, 6, CREATE_TOP_LEVEL_ENVIRONMENT, [0, 1]), JumpTo(12, 22),
          Instruction(14, 2, OpName.Catch, [5], CatchInstr, [], None), Insn(16, 6, CREATE_TOP_LEVEL_ENVIRONMENT, [0, 1]),
          Insn(22, 4, LOAD_FROM_ENVIRONMENT, [1, 0, 0]), Instruction(26, 2, OpName.Ret, [1], Return, [], None)],
         [ExceptionHandler(0, 6, 14)], 28, map[0 := 0, 6 := 1, 12 := 2, 14 := 3, 16 := 4, 22 := 5, 26 := 6])
  }

  /** Two nested environments, and a loop that makes a third inside the one register 2 holds:
      the outer one the first time round, the inner one from then on. It reads a slot of that
      third environment's parent. */
  function LoopingBody(): Body {
    Body([Insn(0, 6, CREATE_TOP_LEVEL_ENVIRONMENT, [0, 1]), Insn(6, 7, CREATE_ENVIRONMENT, [1, 0, 1]), Insn(13, 3, MOV, [2, 0]),
          Insn(16, 7, CREATE_ENVIRONMENT, [3, 2, 1]), Insn(23, 4, GET_ENVIRONMENT, [4, 3, 1]), Insn(27, 4, LOAD_FROM_ENVIRONMENT, [5, 4, 0]),
          Insn(31, 3, MOV, [2, 1]), JumpTo(34, 16)],
         [], 36, map[0 := 0, 6 := 1, 13 := 2, 16 := 3, 23 := 4, 27 := 5, 31 := 6, 34 := 7])
  }

  lemma SilentTiles()
    ensures var p := SilentBody(); Tiles(p.insns, p.size)
  {
    var p := SilentBody();
    forall i {:trigger Adjacent(p.insns, i)} | 0 < i < |p.insns| ensures Adjacent(p.insns, i) {}
  }

  lemma SilentInverts()
    ensures var p := SilentBody(); Inverts(p.insns, p.at)
  {
  }

  lemma SilentTargets()
    ensures var p := SilentBody(); TargetsStart(p.insns, p.size)
  {
    var p := SilentBody();
    assert p.insns[5].offset == 22;
    assert StartsAt(p.insns, 22);
  }

  const SILENT_CODES: seq<Byte> := [75, 65, 174, 119, 65, 59, 118]

  lemma SilentSpelled(i: nat)
    requires i < 7
    ensures Spelled(HBC98, SILENT_CODES[i], SilentBody().insns[i])
  {
    if i == 0 { StoreSpelled(0); }
    if i == 1 { TopLevelSpelled(6); }
    if i == 2 { TablesOk(); JumpIsSpelled(HBC98, 174, JumpTo(12, 22)); }
    if i == 3 { EndsSpelled(14, 5); }
    if i == 4 { TopLevelSpelled(16); }
    if i == 5 { ReadsSpelled(22, 1, 0, 0); }
    if i == 6 { EndsSpelled(26, 1); }
  }

  lemma SilentDecodes()
    ensures IsDecoded(SilentBody())
  {
    TablesOk();
    SilentTiles();
    SilentInverts();
    SilentTargets();
    forall i | 0 <= i < 7 ensures Spelled(HBC98, SILENT_CODES[i], SilentBody().insns[i]) { SilentSpelled(i); }
    SpelledIsDecoded(SilentBody(), HBC98, SILENT_CODES);
  }

  lemma LoopingTiles()
    ensures var p := LoopingBody(); Tiles(p.insns, p.size)
  {
    var p := LoopingBody();
    forall i {:trigger Adjacent(p.insns, i)} | 0 < i < |p.insns| ensures Adjacent(p.insns, i) {}
  }

  lemma LoopingInverts()
    ensures var p := LoopingBody(); Inverts(p.insns, p.at)
  {
  }

  lemma LoopingTargets()
    ensures var p := LoopingBody(); TargetsStart(p.insns, p.size)
  {
    var p := LoopingBody();
    assert p.insns[3].offset == 16;
    assert StartsAt(p.insns, 16);
  }

  const LOOPING_CODES: seq<Byte> := [65, 66, 16, 66, 53, 59, 16, 174]

  lemma LoopingSpelled(i: nat)
    requires i < 8
    ensures Spelled(HBC98, LOOPING_CODES[i], LoopingBody().insns[i])
  {
    if i == 0 { TopLevelSpelled(0); }
    if i == 1 { InnerSpelled(6, 1, 0); }
    if i == 2 { MoveSpelled(13, 2, 0); }
    if i == 3 { InnerSpelled(16, 3, 2); }
    if i == 4 { ReadsSpelled(23, 4, 3, 1); }
    if i == 5 { ReadsSpelled(27, 5, 4, 0); }
    if i == 6 { MoveSpelled(31, 2, 1); }
    if i == 7 { TablesOk(); JumpIsSpelled(HBC98, 174, JumpTo(34, 16)); }
  }

  lemma LoopingDecodes()
    ensures IsDecoded(LoopingBody())
  {
    TablesOk();
    LoopingTiles();
    LoopingInverts();
    LoopingTargets();
    forall i | 0 <= i < 8 ensures Spelled(HBC98, LOOPING_CODES[i], LoopingBody().insns[i]) { LoopingSpelled(i); }
    SpelledIsDecoded(LoopingBody(), HBC98, LOOPING_CODES);
  }

  // --------------------------------------------------------------- their leaders

  lemma SilentLeader(o: int)
    ensures var p := SilentBody(); Leader(p.insns, p.handlers, p.size, p.at, o) <==> o in [0, 6, 14, 22]
  {
    var p := SilentBody();
    if o == 22 || o == 14 { assert LeaderFrom(p.insns[2], p.size, o); }
    if o == 6 { assert LeaderOfHandler(p.handlers[0], p.size, p.at, o); }
    if i :| 0 <= i < |p.insns| && LeaderFrom(p.insns[i], p.size, o) { assert i == 2; }
    if k :| 0 <= k < |p.handlers| && LeaderOfHandler(p.handlers[k], p.size, p.at, o) { assert k == 0; }
  }

  lemma LoopingLeader(o: int)
    ensures var p := LoopingBody(); Leader(p.insns, p.handlers, p.size, p.at, o) <==> o in [0, 16]
  {
    var p := LoopingBody();
    if o == 16 { assert LeaderFrom(p.insns[7], p.size, o); }
    if i :| 0 <= i < |p.insns| && LeaderFrom(p.insns[i], p.size, o) { assert i == 7; }
  }

  /** All of ts is t, and there is something in ts. */
  predicate Only(ts: seq<nat>, t: nat) {
    ts != [] && forall j :: 0 <= j < |ts| ==> ts[j] == t
  }

  /** An edge goes to a block its block's last instruction continues at. */
  lemma GoesWhere(l: Layout, k: nat, j: nat)
    requires Built(l) && l.insns != [] && k < |l.leaders| && j < |l.blocks[k].succs|
    ensures l.cut[k + 1] <= |l.insns| && l.blocks[k].succs[j].to < |l.leaders|
    ensures ContinuesAt(l.insns[l.cut[k + 1] - 1], l.size, l.leaders[l.blocks[k].succs[j].to])
  {
    BlockBody(l, k);
    assert l.blocks[k].succs[j] in l.blocks[k].succs;
  }

  /** A block whose last instruction continues at one offset only goes to the block there. */
  lemma OneTarget(l: Layout, k: nat, t: nat)
    requires Built(l) && l.insns != [] && k < |l.leaders| && t < |l.leaders|
    requires l.cut[k + 1] <= |l.insns|
    requires forall o {:trigger ContinuesAt(l.insns[l.cut[k + 1] - 1], l.size, o)} :: ContinuesAt(l.insns[l.cut[k + 1] - 1], l.size, o) <==> o == l.leaders[t]
    ensures Only(Targets(l.blocks[k].succs), t)
  {
    BlockBody(l, k);
    assert ContinuesAt(l.insns[l.cut[k + 1] - 1], l.size, l.leaders[t]);
    var e :| e in l.blocks[k].succs && e.to == t;
    forall j | 0 <= j < |l.blocks[k].succs| ensures l.blocks[k].succs[j].to == t { GoesWhere(l, k, j); }
  }

  lemma NoTarget(l: Layout, k: nat)
    requires Built(l) && l.insns != [] && k < |l.leaders| && l.cut[k + 1] <= |l.insns|
    requires forall o {:trigger ContinuesAt(l.insns[l.cut[k + 1] - 1], l.size, o)} :: !ContinuesAt(l.insns[l.cut[k + 1] - 1], l.size, o)
    ensures Targets(l.blocks[k].succs) == []
  {
    if l.blocks[k].succs != [] { GoesWhere(l, k, 0); }
  }

  // ---------------------------------------------------------------- their graphs

  ghost predicate SilentBlocks(l: Layout) {
    && |l.blocks| == |l.leaders| == 4 && |l.insns| == 7 && l.leaders == [0, 6, 14, 22]
    && l.blocks[0].instructions == l.insns[0..1] && l.blocks[1].instructions == l.insns[1..3]
    && l.blocks[2].instructions == l.insns[3..5] && l.blocks[3].instructions == l.insns[5..7]
    && Only(Targets(l.blocks[0].succs), 1) && Only(Targets(l.blocks[1].succs), 3) && Only(Targets(l.blocks[2].succs), 3)
    && Targets(l.blocks[3].succs) == []
    && l.blocks[0].start == 0 && l.blocks[0].end == 6 && l.blocks[1].start == 6 && l.blocks[2].start == 14 && l.blocks[3].start == 22
  }

  lemma SilentLayout(l: Layout)
    requires LayoutOf(l, SilentBody())
    ensures SilentBlocks(l)
  {
    var p := SilentBody();
    forall o ensures Leader(p.insns, p.handlers, p.size, p.at, o) <==> o in [0, 6, 14, 22] { SilentLeader(o); }
    LeadersAre(l, p, [0, 6, 14, 22]);
    assert l.cut[0] == 0 && l.cut[1] == 1 && l.cut[2] == 3 && l.cut[3] == 5 && l.cut[4] == 7;
    SilentBodies(l);
    SilentEdges(l);
    SilentLastEdges(l);
  }

  lemma SilentBodies(l: Layout)
    requires LayoutOf(l, SilentBody()) && l.leaders == [0, 6, 14, 22] && |l.blocks| == 4 && l.cut == [0, 1, 3, 5, 7]
    ensures l.blocks[0].instructions == l.insns[0..1] && l.blocks[1].instructions == l.insns[1..3]
    ensures l.blocks[2].instructions == l.insns[3..5] && l.blocks[3].instructions == l.insns[5..7]
    ensures l.blocks[0].start == 0 && l.blocks[0].end == 6 && l.blocks[1].start == 6 && l.blocks[2].start == 14 && l.blocks[3].start == 22
  {
    BlockIs(l, 0);
    BlockIs(l, 1);
    BlockIs(l, 2);
    BlockIs(l, 3);
  }

  lemma SilentEdges(l: Layout)
    requires LayoutOf(l, SilentBody()) && l.leaders == [0, 6, 14, 22] && |l.blocks| == 4 && l.cut == [0, 1, 3, 5, 7]
    ensures Only(Targets(l.blocks[0].succs), 1) && Only(Targets(l.blocks[1].succs), 3)
  {
    OneTarget(l, 0, 1);
    OneTarget(l, 1, 3);
  }

  lemma SilentLastEdges(l: Layout)
    requires LayoutOf(l, SilentBody()) && l.leaders == [0, 6, 14, 22] && |l.blocks| == 4 && l.cut == [0, 1, 3, 5, 7]
    ensures Only(Targets(l.blocks[2].succs), 3) && Targets(l.blocks[3].succs) == []
  {
    OneTarget(l, 2, 3);
    NoTarget(l, 3);
  }

  ghost predicate LoopingBlocks(l: Layout) {
    && |l.blocks| == |l.leaders| == 2 && |l.insns| == 8 && l.leaders == [0, 16]
    && l.blocks[0].instructions == l.insns[0..3] && l.blocks[1].instructions == l.insns[3..8]
    && Only(Targets(l.blocks[0].succs), 1) && Only(Targets(l.blocks[1].succs), 1)
  }

  lemma LoopingEdges(l: Layout)
    requires LayoutOf(l, LoopingBody()) && l.leaders == [0, 16] && |l.blocks| == 2 && l.cut == [0, 3, 8]
    ensures Only(Targets(l.blocks[0].succs), 1) && Only(Targets(l.blocks[1].succs), 1)
  {
    OneTarget(l, 0, 1);
    OneTarget(l, 1, 1);
  }

  lemma LoopingLayout(l: Layout)
    requires LayoutOf(l, LoopingBody())
    ensures LoopingBlocks(l)
  {
    var p := LoopingBody();
    forall o ensures Leader(p.insns, p.handlers, p.size, p.at, o) <==> o in [0, 16] { LoopingLeader(o); }
    LeadersAre(l, p, [0, 16]);
    assert l.cut[0] == 0 && l.cut[1] == 3 && l.cut[2] == 8;
    BlockIs(l, 0);
    BlockIs(l, 1);
    LoopingEdges(l);
  }

  // --------------------------------------------- what the tracker is given of them

  lemma {:induction false} NoneSaved(insns: seq<Instruction>, n: nat)
    requires n <= |insns| && forall i :: 0 <= i < n ==> !IsSaveSite(insns[i])
    ensures SaveSites(insns, n) == []
  {
    if n > 0 { NoneSaved(insns, n - 1); }
  }

  /** A body without saves: no dispatcher, and the blocks of the layout. */
  lemma NoSaves(l: Layout, S: seq<Entry>, cfg: FunctionCfg)
    requires Assembled(l, S, cfg) && forall i :: 0 <= i < |l.insns| ==> !IsSaveSite(l.insns[i])
    ensures cfg.suspendPoints == [] && cfg.entry == 0 && |cfg.blocks| == |l.blocks|
    ensures forall k :: 0 <= k < |l.blocks| ==> cfg.blocks[k] == l.blocks[k].(preds := cfg.blocks[k].preds)
  {
    NoneSaved(l.insns, |l.insns|);
  }

  lemma HasMember(ts: seq<nat>)
    requires ts != []
    ensures exists t: nat :: t in ts
  {
    assert ts[0] in ts;
  }

  lemma NoResumes(cfg: FunctionCfg, g: Flow)
    requires FlowOf(cfg, g) && cfg.suspendPoints == []
    ensures |g.resumes| == |g.code| && forall b :: 0 <= b < |g.code| ==> g.resumes[b] == []
  {
    forall b | 0 <= b < |g.code| ensures g.resumes[b] == [] {
      if g.resumes[b] != [] { HasMember(g.resumes[b]); }
    }
  }

  lemma EdgeOnly(blocks: seq<BasicBlock>, a: nat, t: nat, b: nat)
    requires a < |blocks| && Only(Targets(blocks[a].succs), t)
    ensures IsEdge(blocks, a, b) <==> b == t
  {
    var succs := blocks[a].succs;
    assert succs[0] in succs && Targets(succs)[0] == succs[0].to;
    if e :| e in succs && e.to == b {
      var j :| 0 <= j < |succs| && succs[j] == e;
      assert Targets(succs)[j] == b;
    }
  }

  lemma NoEdge(blocks: seq<BasicBlock>, a: nat, b: nat)
    requires a < |blocks| && Targets(blocks[a].succs) == []
    ensures !IsEdge(blocks, a, b)
  {
    assert |Targets(blocks[a].succs)| == |blocks[a].succs|;
  }

  lemma EntryReachable(blocks: seq<BasicBlock>)
    requires blocks != []
    ensures Reachable(blocks, 0, 0)
  {
    assert Path(blocks, 0, [0]) && Last([0], 0);
  }

  lemma SelfDominates(blocks: seq<BasicBlock>, entry: nat, b: nat)
    requires Reachable(blocks, entry, b)
    ensures Dominates(blocks, entry, b, b)
  {
  }

  // ------------------------------------------------------------- the first body

  ghost predicate SilentGraph(blocks: seq<BasicBlock>) {
    |blocks| == 4 && Only(Targets(blocks[0].succs), 1) && Only(Targets(blocks[1].succs), 3) && Only(Targets(blocks[2].succs), 3) && Targets(blocks[3].succs) == []
  }

  lemma SilentReach(blocks: seq<BasicBlock>, b: nat)
    requires SilentGraph(blocks)
    ensures Reachable(blocks, 0, b) <==> b == 0 || b == 1 || b == 3
  {
    EntryReachable(blocks);
    EdgeOnly(blocks, 0, 1, 1);
    EdgeOnly(blocks, 1, 3, 3);
    ReachableStep(blocks, 0, 0, 1);
    ReachableStep(blocks, 0, 1, 3);
    if Reachable(blocks, 0, b) {
      var w :| Path(blocks, 0, w) && Last(w, b);
      SilentPath(blocks, w);
    }
  }

  lemma SilentPath(blocks: seq<BasicBlock>, w: seq<BlockId>)
    requires SilentGraph(blocks) && Path(blocks, 0, w)
    ensures w[|w| - 1] == 0 || w[|w| - 1] == 1 || w[|w| - 1] == 3
  {
    var s: set<BlockId> := {0, 1, 3};
    forall a: nat, b: nat | a in s && b < |blocks| && IsEdge(blocks, a, b) ensures b in s {
      EdgeOnly(blocks, 0, 1, b);
      EdgeOnly(blocks, 1, 3, b);
      NoEdge(blocks, 3, b);
    }
    ClosedHoldsPath(blocks, 0, s, w);
  }

  lemma SilentDominates(blocks: seq<BasicBlock>)
    requires SilentGraph(blocks)
    ensures Dominates(blocks, 0, 1, 3)
  {
    SilentReach(blocks, 1);
    SilentReach(blocks, 3);
    forall w | Path(blocks, 0, w) && Last(w, 3) ensures 1 in w {
      var a := w[|w| - 2];
      SilentPath(blocks, w[..|w| - 1]);
      EdgeOnly(blocks, 0, 1, 3);
      NoEdge(blocks, 3, 3);
      assert a == 1;
    }
  }

  lemma SilentOrder(blocks: seq<BasicBlock>, rpo: seq<BlockId>)
    requires SilentGraph(blocks) && OrderRight(blocks, 0, rpo)
    ensures rpo == [0, 1, 3]
  {
    forall b: nat ensures b in rpo <==> b == 0 || b == 1 || b == 3 { SilentReach(blocks, b); }
    SilentDominates(blocks);
    forall j, k | 0 <= j < k < |rpo| ensures rpo[j] < rpo[k] {
      assert rpo[j] in rpo && rpo[k] in rpo;
      SelfDominates(blocks, 0, rpo[k]);
      SelfDominates(blocks, 0, 0);
    }
    AscendingUnique(rpo, [0, 1, 3]);
  }

  /** What the tracker sees in the first body, with the nodes its two sites get. */
  function SilentCode(before: Node, inside: Node): seq<seq<EnvInsn>> {
    [[EnvInsn.Other([])], [CreateEnv(0, before, Root), EnvInsn.Other([])], [EnvInsn.Other([5]), CreateEnv(0, inside, Root)],
     [LoadSlot(1, 0, 0), EnvInsn.Other([])]]
  }

  ghost predicate SilentShape(g: Flow, before: Node, inside: Node) {
    && g.code == SilentCode(before, inside)
    && |g.succs| == 4 && Only(g.succs[0], 1) && Only(g.succs[1], 3) && Only(g.succs[2], 3) && g.succs[3] == []
    && g.handlers == [[2], [], [], []] && g.resumes == [[], [], [], []] && g.rpo == [0, 1, 3] && g.entry == 0
  }

  lemma SeesNothing(insn: Instruction, e: EnvInsn)
    requires Tracks(insn, e) && !IsTracked(insn.name) && (insn.kind == Jump || insn.kind == Return || insn.name == PUT_BY_ID)
    ensures e == EnvInsn.Other([])
  {
  }

  lemma SeesCatch(insn: Instruction, e: EnvInsn, r: Reg)
    requires Tracks(insn, e) && insn.name == OpName.Catch && insn.operands == [r]
    ensures e == EnvInsn.Other([r])
  {
    assert e.writes == [r];
  }

  lemma SeesTopLevel(insn: Instruction, e: EnvInsn, r: Reg)
    requires Tracks(insn, e) && insn.name == CREATE_TOP_LEVEL_ENVIRONMENT && Operand(insn, 0, r)
    ensures e.CreateEnv? && e == CreateEnv(r, e.node, Root)
  {
  }

  lemma SeesInner(insn: Instruction, e: EnvInsn, r: Reg, p: Reg)
    requires Tracks(insn, e) && insn.name == CREATE_ENVIRONMENT && |insn.operands| == 3 && Operand(insn, 0, r) && Operand(insn, 1, p)
    ensures e.CreateEnv? && e == CreateEnv(r, e.node, InReg(p))
  {
  }

  lemma SeesOther(insn: Instruction, e: EnvInsn, seen: EnvInsn)
    requires Tracks(insn, e) && Tracks(insn, seen) && !seen.CreateEnv? && !seen.Other?
    ensures e == seen
  {
    TracksOne(insn, e, seen);
  }

  /** A block of one instruction, or of two, seen one by one. */
  lemma SeenOne(cfg: FunctionCfg, g: Flow, b: nat, x: Instruction)
    requires FlowOf(cfg, g) && b < |cfg.blocks| && cfg.blocks[b].instructions == [x]
    ensures |g.code| == |cfg.blocks| && |g.code[b]| == 1 && Tracks(x, g.code[b][0]) && g.code[b] == [g.code[b][0]]
  {
    assert EnvOps.BodyOf(cfg.blocks[b].instructions, g.code[b]);
    assert Tracks(cfg.blocks[b].instructions[0], g.code[b][0]);
  }

  lemma SeenTwo(cfg: FunctionCfg, g: Flow, b: nat, x: Instruction, y: Instruction)
    requires FlowOf(cfg, g) && b < |cfg.blocks| && cfg.blocks[b].instructions == [x, y]
    ensures |g.code| == |cfg.blocks| && |g.code[b]| == 2 && Tracks(x, g.code[b][0]) && Tracks(y, g.code[b][1])
    ensures g.code[b] == [g.code[b][0], g.code[b][1]]
  {
    assert EnvOps.BodyOf(cfg.blocks[b].instructions, g.code[b]);
    assert Tracks(cfg.blocks[b].instructions[0], g.code[b][0]) && Tracks(cfg.blocks[b].instructions[1], g.code[b][1]);
  }

  lemma SilentSeenFirst(cfg: FunctionCfg, g: Flow)
    requires FlowOf(cfg, g) && |cfg.blocks| == 4
    requires var p := SilentBody().insns; cfg.blocks[0].instructions == [p[0]] && cfg.blocks[1].instructions == [p[1], p[2]]
    ensures |g.code| == 4 && |g.code[1]| == 2 && g.code[1][0].CreateEnv?
    ensures g.code[0] == [EnvInsn.Other([])] && g.code[1] == [CreateEnv(0, g.code[1][0].node, Root), EnvInsn.Other([])]
  {
    var p := SilentBody().insns;
    SeenOne(cfg, g, 0, p[0]);
    SeenTwo(cfg, g, 1, p[1], p[2]);
    SeesNothing(p[0], g.code[0][0]);
    SeesTopLevel(p[1], g.code[1][0], 0);
    SeesNothing(p[2], g.code[1][1]);
  }

  lemma SilentSeenLast(cfg: FunctionCfg, g: Flow)
    requires FlowOf(cfg, g) && |cfg.blocks| == 4
    requires var p := SilentBody().insns; cfg.blocks[2].instructions == [p[3], p[4]] && cfg.blocks[3].instructions == [p[5], p[6]]
    ensures |g.code| == 4 && |g.code[2]| == 2 && g.code[2][1].CreateEnv?
    ensures g.code[2] == [EnvInsn.Other([5]), CreateEnv(0, g.code[2][1].node, Root)] && g.code[3] == [LoadSlot(1, 0, 0), EnvInsn.Other([])]
  {
    var p := SilentBody().insns;
    SeenTwo(cfg, g, 2, p[3], p[4]);
    SeenTwo(cfg, g, 3, p[5], p[6]);
    SeesCatch(p[3], g.code[2][0], 5);
    SeesTopLevel(p[4], g.code[2][1], 0);
    SeesOther(p[5], g.code[3][0], LoadSlot(1, 0, 0));
    SeesNothing(p[6], g.code[3][1]);
  }

  ghost predicate SilentHandled(succs: map<BlockId, seq<BlockId>>) {
    succs.Keys == {0} && succs[0] == [2]
  }

  /** The handler protects the first block alone. */
  lemma SilentHandlers(l: Layout, S: seq<Entry>, succs: map<BlockId, seq<BlockId>>)
    requires LayoutOf(l, SilentBody()) && SilentBlocks(l) && SuccsRight(S, l.handlers, l.blocks, l.byOffset, |l.blocks|, succs)
    ensures SilentHandled(succs)
  {
    BlockNumber(l, 2);
    OneHandler(S, l.handlers, l.blocks, l.byOffset, succs, 0);
    OneHandler(S, l.handlers, l.blocks, l.byOffset, succs, 1);
    OneHandler(S, l.handlers, l.blocks, l.byOffset, succs, 2);
    OneHandler(S, l.handlers, l.blocks, l.byOffset, succs, 3);
    SilentUncovered(l);
    HandledFrom(succs);
  }

  lemma HandledFrom(succs: map<BlockId, seq<BlockId>>)
    requires Lookup(succs, 0) == Some([2]) && Lookup(succs, 1) == None && Lookup(succs, 2) == None && Lookup(succs, 3) == None
    requires forall b :: b in succs ==> b < 4
    ensures SilentHandled(succs)
  {
    assert forall b: nat :: b in succs <==> b == 0;
  }

  lemma SilentUncovered(l: Layout)
    requires LayoutOf(l, SilentBody()) && SilentBlocks(l)
    ensures Covers(l.handlers[0], l.blocks[0]) && !Covers(l.handlers[0], l.blocks[1])
    ensures !Covers(l.handlers[0], l.blocks[2]) && !Covers(l.handlers[0], l.blocks[3])
  {
    BlockNonempty(l, 1);
    BlockNonempty(l, 2);
    BlockNonempty(l, 3);
  }

  /** The graph of the first body: instructions, edges, handlers and order. */
  ghost predicate SilentCfg(cfg: FunctionCfg) {
    && SilentGraph(cfg.blocks) && SilentHandled(cfg.exceptionSuccs) && cfg.suspendPoints == [] && cfg.entry == 0 && cfg.rpo == [0, 1, 3]
    && var p := SilentBody().insns;
    && cfg.blocks[0].instructions == [p[0]] && cfg.blocks[1].instructions == [p[1], p[2]]
    && cfg.blocks[2].instructions == [p[3], p[4]] && cfg.blocks[3].instructions == [p[5], p[6]]
  }

  /** A result's blocks, handlers and order are those of its layout. */
  lemma PartsOf(l: Layout, S: seq<Entry>, cfg: FunctionCfg)
    requires Assembled(l, S, cfg) && forall i :: 0 <= i < |l.insns| ==> !IsSaveSite(l.insns[i])
    ensures cfg.suspendPoints == [] && cfg.entry == 0 && |cfg.blocks| == |l.blocks|
    ensures forall k {:trigger cfg.blocks[k]} :: 0 <= k < |l.blocks| ==> cfg.blocks[k].instructions == l.blocks[k].instructions && cfg.blocks[k].succs == l.blocks[k].succs
    ensures SuccsRight(S, l.handlers, l.blocks, l.byOffset, |l.blocks|, cfg.exceptionSuccs) && OrderRight(cfg.blocks, 0, cfg.rpo)
  {
    NoSaves(l, S, cfg);
  }

  lemma NeverSaves()
    ensures forall i :: 0 <= i < |SilentBody().insns| ==> !IsSaveSite(SilentBody().insns[i])
    ensures forall i :: 0 <= i < |LoopingBody().insns| ==> !IsSaveSite(LoopingBody().insns[i])
  {
  }

  /** Whatever buildCfg makes of the first body is this graph. */
  lemma SilentBuilt(l: Layout, S: seq<Entry>, cfg: FunctionCfg)
    requires Assembled(l, S, cfg) && LayoutOf(l, SilentBody())
    ensures SilentCfg(cfg)
  {
    SilentLayout(l);
    NeverSaves();
    PartsOf(l, S, cfg);
    SilentHandlers(l, S, cfg.exceptionSuccs);
    SilentParts(l, cfg);
  }

  lemma SilentParts(l: Layout, cfg: FunctionCfg)
    requires SilentBlocks(l) && l.insns == SilentBody().insns && |cfg.blocks| == |l.blocks| && cfg.entry == 0 && cfg.suspendPoints == []
    requires forall k {:trigger cfg.blocks[k]} :: 0 <= k < |l.blocks| ==> cfg.blocks[k].instructions == l.blocks[k].instructions && cfg.blocks[k].succs == l.blocks[k].succs
    requires SilentHandled(cfg.exceptionSuccs) && OrderRight(cfg.blocks, 0, cfg.rpo)
    ensures SilentCfg(cfg)
  {
    assert SilentGraph(cfg.blocks);
    SilentOrder(cfg.blocks, cfg.rpo);
    var p := l.insns;
    assert p[0..1] == [p[0]] && p[1..3] == [p[1], p[2]] && p[3..5] == [p[3], p[4]] && p[5..7] == [p[5], p[6]];
  }

  /** Whatever flow graph the tracker is given of it has this shape. */
  lemma SilentFlow(cfg: FunctionCfg, g: Flow)
    requires SilentCfg(cfg) && FlowOf(cfg, g)
    ensures |g.code| == 4 && |g.code[1]| == 2 && |g.code[2]| == 2 && g.code[1][0].CreateEnv? && g.code[2][1].CreateEnv?
    ensures SilentShape(g, g.code[1][0].node, g.code[2][1].node)
  {
    NoResumes(cfg, g);
    SilentSeenFirst(cfg, g);
    SilentSeenLast(cfg, g);
    FlowParts(cfg, g);
    assert g.resumes == [[], [], [], []];
    assert g.handlers == [[2], [], [], []];
  }

  lemma FlowParts(cfg: FunctionCfg, g: Flow)
    requires FlowOf(cfg, g)
    ensures |g.succs| == |g.handlers| == |g.code| == |cfg.blocks| && g.rpo == cfg.rpo && g.entry == cfg.entry
    ensures forall b {:trigger g.succs[b]} :: 0 <= b < |g.code| ==> g.succs[b] == Targets(cfg.blocks[b].succs)
    ensures forall b {:trigger g.handlers[b]} :: 0 <= b < |g.code| ==> g.handlers[b] == if b in cfg.exceptionSuccs then cfg.exceptionSuccs[b] else []
  {
  }

  // ------------------------------------------------------------ the second body

  ghost predicate LoopingGraph(blocks: seq<BasicBlock>) {
    |blocks| == 2 && Only(Targets(blocks[0].succs), 1) && Only(Targets(blocks[1].succs), 1)
  }

  lemma LoopingReach(blocks: seq<BasicBlock>, b: nat)
    requires LoopingGraph(blocks)
    ensures Reachable(blocks, 0, b) <==> b < 2
  {
    EntryReachable(blocks);
    EdgeOnly(blocks, 0, 1, 1);
    ReachableStep(blocks, 0, 0, 1);
    if Reachable(blocks, 0, b) { ReachableInRange(blocks, 0, b); }
  }

  lemma LoopingOrder(blocks: seq<BasicBlock>, rpo: seq<BlockId>)
    requires LoopingGraph(blocks) && OrderRight(blocks, 0, rpo)
    ensures rpo == [0, 1]
  {
    forall b: nat ensures b in rpo <==> b < 2 { LoopingReach(blocks, b); }
    forall j, k | 0 <= j < k < |rpo| ensures rpo[j] < rpo[k] {
      assert rpo[j] in rpo && rpo[k] in rpo;
      SelfDominates(blocks, 0, rpo[k]);
      SelfDominates(blocks, 0, 0);
    }
    AscendingUnique(rpo, [0, 1]);
  }

  /** What the tracker sees in the second body, with the nodes its three sites get. */
  function LoopingCode(outer: Node, inner: Node, each: Node): seq<seq<EnvInsn>> {
    [[CreateEnv(0, outer, Root), CreateEnv(1, inner, InReg(0)), Move(2, 0)],
     [CreateEnv(3, each, InReg(2)), GetEnvAbove(4, 3, 1), LoadSlot(5, 4, 0), Move(2, 1), EnvInsn.Other([])]]
  }

  ghost predicate LoopingShape(g: Flow, outer: Node, inner: Node, each: Node) {
    && g.code == LoopingCode(outer, inner, each)
    && |g.succs| == 2 && Only(g.succs[0], 1) && Only(g.succs[1], 1)
    && g.handlers == [[], []] && g.resumes == [[], []] && g.rpo == [0, 1] && g.entry == 0
  }

  lemma LoopingSeenFirst(cfg: FunctionCfg, g: Flow)
    requires FlowOf(cfg, g) && |cfg.blocks| == 2
    requires var p := LoopingBody().insns; cfg.blocks[0].instructions == [p[0], p[1], p[2]]
    ensures |g.code| == 2 && |g.code[0]| == 3 && g.code[0][0].CreateEnv? && g.code[0][1].CreateEnv?
    ensures g.code[0] == [CreateEnv(0, g.code[0][0].node, Root), CreateEnv(1, g.code[0][1].node, InReg(0)), Move(2, 0)]
  {
    var p := LoopingBody().insns;
    SeenAll(cfg, g, 0, [p[0], p[1], p[2]]);
    SeesTopLevel(p[0], g.code[0][0], 0);
    SeesInner(p[1], g.code[0][1], 1, 0);
    SeesOther(p[2], g.code[0][2], Move(2, 0));
  }

  lemma SeenAll(cfg: FunctionCfg, g: Flow, b: nat, insns: seq<Instruction>)
    requires FlowOf(cfg, g) && b < |cfg.blocks| && cfg.blocks[b].instructions == insns
    ensures |g.code| == |cfg.blocks| && |g.code[b]| == |insns| && forall k {:trigger g.code[b][k]} :: 0 <= k < |insns| ==> Tracks(insns[k], g.code[b][k])
  {
    assert EnvOps.BodyOf(cfg.blocks[b].instructions, g.code[b]);
  }

  lemma LoopingTracked(cfg: FunctionCfg, g: Flow)
    requires FlowOf(cfg, g) && |cfg.blocks| == 2
    requires var p := LoopingBody().insns; cfg.blocks[1].instructions == [p[3], p[4], p[5], p[6], p[7]]
    ensures |g.code| == 2 && |g.code[1]| == 5
    ensures var p, c := LoopingBody().insns, g.code[1];
            Tracks(p[3], c[0]) && Tracks(p[4], c[1]) && Tracks(p[5], c[2]) && Tracks(p[6], c[3]) && Tracks(p[7], c[4])
  {
    var p := LoopingBody().insns;
    var insns := [p[3], p[4], p[5], p[6], p[7]];
    SeenAll(cfg, g, 1, insns);
    assert Tracks(insns[0], g.code[1][0]) && Tracks(insns[1], g.code[1][1]) && Tracks(insns[2], g.code[1][2]);
    assert Tracks(insns[3], g.code[1][3]) && Tracks(insns[4], g.code[1][4]);
  }

  lemma LoopingSeenLast(cfg: FunctionCfg, g: Flow)
    requires FlowOf(cfg, g) && |cfg.blocks| == 2
    requires var p := LoopingBody().insns; cfg.blocks[1].instructions == [p[3], p[4], p[5], p[6], p[7]]
    ensures |g.code| == 2 && |g.code[1]| == 5 && g.code[1][0].CreateEnv?
    ensures g.code[1] == [CreateEnv(3, g.code[1][0].node, InReg(2)), GetEnvAbove(4, 3, 1), LoadSlot(5, 4, 0), Move(2, 1), EnvInsn.Other([])]
  {
    var p := LoopingBody().insns;
    LoopingTracked(cfg, g);
    SeesInner(p[3], g.code[1][0], 3, 2);
    SeesOther(p[4], g.code[1][1], GetEnvAbove(4, 3, 1));
    SeesOther(p[5], g.code[1][2], LoadSlot(5, 4, 0));
    SeesOther(p[6], g.code[1][3], Move(2, 1));
    SeesNothing(p[7], g.code[1][4]);
  }

  lemma NoHandlers(l: Layout, S: seq<Entry>, cfg: FunctionCfg)
    requires Assembled(l, S, cfg) && l.handlers == []
    ensures cfg.exceptionSuccs == map[]
  {
    forall b: nat | b < |l.blocks| ensures b !in cfg.exceptionSuccs {
      assert SuccsAt(S, l.handlers, l.blocks[b], l.byOffset, Lookup(cfg.exceptionSuccs, b));
      assert NestingOrder(S, l.blocks[b]) == [];
    }
  }

  ghost predicate LoopingCfg(cfg: FunctionCfg) {
    && LoopingGraph(cfg.blocks) && cfg.exceptionSuccs == map[] && cfg.suspendPoints == [] && cfg.entry == 0 && cfg.rpo == [0, 1]
    && var p := LoopingBody().insns;
    && cfg.blocks[0].instructions == [p[0], p[1], p[2]] && cfg.blocks[1].instructions == [p[3], p[4], p[5], p[6], p[7]]
  }

  lemma LoopingBuilt(l: Layout, S: seq<Entry>, cfg: FunctionCfg)
    requires Assembled(l, S, cfg) && LayoutOf(l, LoopingBody())
    ensures LoopingCfg(cfg)
  {
    LoopingLayout(l);
    NeverSaves();
    PartsOf(l, S, cfg);
    NoHandlers(l, S, cfg);
    LoopingParts(l, cfg);
  }

  lemma LoopingParts(l: Layout, cfg: FunctionCfg)
    requires LoopingBlocks(l) && l.insns == LoopingBody().insns && |cfg.blocks| == |l.blocks| && cfg.entry == 0 && cfg.suspendPoints == []
    requires forall k {:trigger cfg.blocks[k]} :: 0 <= k < |l.blocks| ==> cfg.blocks[k].instructions == l.blocks[k].instructions && cfg.blocks[k].succs == l.blocks[k].succs
    requires cfg.exceptionSuccs == map[] && OrderRight(cfg.blocks, 0, cfg.rpo)
    ensures LoopingCfg(cfg)
  {
    assert LoopingGraph(cfg.blocks);
    LoopingOrder(cfg.blocks, cfg.rpo);
    var p := l.insns;
    assert p[0..3] == [p[0], p[1], p[2]] && p[3..8] == [p[3], p[4], p[5], p[6], p[7]];
  }

  lemma LoopingFlow(cfg: FunctionCfg, g: Flow)
    requires LoopingCfg(cfg) && FlowOf(cfg, g)
    ensures |g.code| == 2 && |g.code[0]| == 3 && |g.code[1]| == 5 && g.code[0][0].CreateEnv? && g.code[0][1].CreateEnv? && g.code[1][0].CreateEnv?
    ensures LoopingShape(g, g.code[0][0].node, g.code[0][1].node, g.code[1][0].node)
  {
    NoResumes(cfg, g);
    LoopingSeenFirst(cfg, g);
    LoopingSeenLast(cfg, g);
    FlowParts(cfg, g);
    assert g.resumes == [[], []] && g.handlers == [[], []];
  }

  // ------------------------------------------------------------ building them

  lemma SilentAccepted(l: Layout)
    requires LayoutOf(l, SilentBody())
    ensures Acceptable(l.handlers, l.blocks, l.byOffset, l.size)
  {
    SilentLayout(l);
    BlockNumber(l, 0);
    BlockNumber(l, 2);
    assert l.blocks[2].instructions[0] == l.insns[3];
  }

  /** A flow graph made of the parts of a built graph. */
  lemma FlowFrom(cfg: FunctionCfg, g: Flow)
    requires WellFormed(g) && |cfg.blocks| == |g.code| && InRange(cfg.blocks, cfg.exceptionSuccs) && cfg.suspendPoints == []
    requires cfg.entry == g.entry && cfg.entry < |cfg.blocks| && cfg.rpo == g.rpo
    requires forall b {:trigger g.succs[b]} :: 0 <= b < |g.code| ==> g.succs[b] == Targets(cfg.blocks[b].succs)
    requires forall b {:trigger g.handlers[b]} :: 0 <= b < |g.code| ==> g.handlers[b] == if b in cfg.exceptionSuccs then cfg.exceptionSuccs[b] else []
    requires forall b {:trigger g.resumes[b]} :: 0 <= b < |g.code| ==> g.resumes[b] == []
    requires CodeOf(cfg.blocks, g.code)
    ensures FlowOf(cfg, g)
  {
  }

  lemma SilentCodeFits(cfg: FunctionCfg)
    requires SilentCfg(cfg)
    ensures CodeOf(cfg.blocks, SilentCode(0, 1))
  {
    var p, code := SilentBody().insns, SilentCode(0, 1);
    assert EnvOps.BodyOf([p[0]], code[0]);
    assert EnvOps.BodyOf([p[1], p[2]], code[1]);
    assert EnvOps.BodyOf([p[3], p[4]], code[2]);
    assert EnvOps.BodyOf([p[5], p[6]], code[3]);
  }

  lemma SilentWellFormed(g: Flow, before: Node, inside: Node)
    requires SilentShape(g, before, inside)
    ensures WellFormed(g)
  {
    assert g.rpo[0] == 0;
  }

  /** buildCfg on a body with few blocks. */
  method MakeCfg(p: Body, ghost leaders: seq<int>) returns (r: BuildResult, ghost l: Layout, ghost S: seq<Entry>)
    requires IsDecoded(p) && p.insns != [] && Ascends(leaders) && |leaders| <= 1000
    requires forall o :: Leader(p.insns, p.handlers, p.size, p.at, o) <==> o in leaders
    ensures LayoutOf(l, p) && (r.Ok? <==> Acceptable(p.handlers, l.blocks, l.byOffset, p.size))
    ensures r.Ok? ==> Assembled(l, S, r.cfg) && InRange(r.cfg.blocks, r.cfg.exceptionSuccs)
  {
    DecodedFits(p);
    r, l, S := BuildCfg.BuildCfg(p.insns, p.handlers, p.size, p.at, NoEra, NormalFunction, 1000);
    FewLeaders(p, l.leaders, leaders);
    if r.Ok? { ResultWellIndexed(l, S, r.cfg); }
  }

  method MakeSilent() returns (cfg: FunctionCfg)
    ensures SilentCfg(cfg) && InRange(cfg.blocks, cfg.exceptionSuccs)
  {
    SilentDecodes();
    ghost var p := SilentBody();
    forall o ensures Leader(p.insns, p.handlers, p.size, p.at, o) <==> o in [0, 6, 14, 22] { SilentLeader(o); }
    ghost var l, S;
    var r;
    r, l, S := MakeCfg(SilentBody(), [0, 6, 14, 22]);
    SilentAccepted(l);
    SilentBuilt(l, S, r.cfg);
    cfg := r.cfg;
  }

  /** The first body, through buildCfg, to what the tracker is given. */
  method BuildSilent() returns (cfg: FunctionCfg, g: Flow)
    ensures SilentCfg(cfg) && FlowOf(cfg, g) && SilentShape(g, 0, 1)
  {
    cfg := MakeSilent();
    var succs := [Targets(cfg.blocks[0].succs), Targets(cfg.blocks[1].succs), Targets(cfg.blocks[2].succs), Targets(cfg.blocks[3].succs)];
    g := Flow(SilentCode(0, 1), succs, [cfg.exceptionSuccs[0], [], [], []], [[], [], [], []], cfg.rpo, cfg.entry);
    SilentWellFormed(g, 0, 1);
    SilentCodeFits(cfg);
    FlowFrom(cfg, g);
  }

  lemma LoopingCodeFits(cfg: FunctionCfg)
    requires LoopingCfg(cfg)
    ensures CodeOf(cfg.blocks, LoopingCode(0, 1, 2))
  {
    var p, code := LoopingBody().insns, LoopingCode(0, 1, 2);
    assert EnvOps.BodyOf([p[0], p[1], p[2]], code[0]);
    assert EnvOps.BodyOf([p[3], p[4], p[5], p[6], p[7]], code[1]);
  }

  lemma LoopingWellFormed(g: Flow, outer: Node, inner: Node, each: Node)
    requires LoopingShape(g, outer, inner, each)
    ensures WellFormed(g)
  {
    assert g.rpo[0] == 0;
  }

  method MakeLooping() returns (cfg: FunctionCfg)
    ensures LoopingCfg(cfg) && InRange(cfg.blocks, cfg.exceptionSuccs)
  {
    LoopingDecodes();
    ghost var p := LoopingBody();
    forall o ensures Leader(p.insns, p.handlers, p.size, p.at, o) <==> o in [0, 16] { LoopingLeader(o); }
    ghost var l, S;
    var r;
    r, l, S := MakeCfg(LoopingBody(), [0, 16]);
    assert Acceptable([], l.blocks, l.byOffset, 36);
    LoopingBuilt(l, S, r.cfg);
    cfg := r.cfg;
  }

  /** The second body, through buildCfg, to what the tracker is given. */
  method BuildLooping() returns (cfg: FunctionCfg, g: Flow)
    ensures LoopingCfg(cfg) && FlowOf(cfg, g) && LoopingShape(g, 0, 1, 2)
  {
    cfg := MakeLooping();
    g := Flow(LoopingCode(0, 1, 2), [Targets(cfg.blocks[0].succs), Targets(cfg.blocks[1].succs)], [[], []], [[], []], cfg.rpo, cfg.entry);
    LoopingWellFormed(g, 0, 1, 2);
    LoopingCodeFits(cfg);
    FlowFrom(cfg, g);
  }
}
