// Leaders, basic blocks and normal edges (src/cfg/blocks.ts).
module Blocks {
  import opened CfgTypes
  import opened SetOrder

  // -------------------------------------------------------- decoder's promise

  ghost predicate Adjacent(insns: seq<Instruction>, i: int)
    requires 0 < i < |insns|
  {
    insns[i - 1].End() == insns[i].offset
  }

  ghost predicate Tiles(insns: seq<Instruction>, size: nat) {
    && (|insns| == 0 ==> size == 0)
    && (|insns| > 0 ==> insns[0].offset == 0 && insns[|insns| - 1].End() == size)
    && (forall i :: 0 <= i < |insns| ==> insns[i].length > 0)
    && forall i {:trigger Adjacent(insns, i)} :: 0 < i < |insns| ==> Adjacent(insns, i)
  }

  /** at inverts the instruction offsets. */
  ghost predicate Inverts(insns: seq<Instruction>, at: map<int, nat>) {
    && (forall i :: 0 <= i < |insns| ==> insns[i].offset in at && at[insns[i].offset] == i)
    && (forall o {:trigger at[o]} {:trigger o in at} :: o in at ==> at[o] < |insns| && insns[at[o]].offset == o)
  }

  ghost predicate TargetsOk(insn: Instruction, at: map<int, nat>) {
    && (forall t :: t in insn.targets ==> t in at)
    && match insn.kind
       case Jump => |insn.targets| == 1
       case CondJump => |insn.targets| == 1
       case Switch => insn.switchTable.Some? && insn.targets == [insn.switchTable.value.defaultTarget] + CaseTargets(insn.switchTable.value.cases)
       case _ => insn.targets == []
  }

  function CaseTargets(cases: seq<SwitchCase>): (r: seq<int>)
    ensures |r| == |cases| && forall k :: 0 <= k < |cases| ==> r[k] == cases[k].target
  {
    if cases == [] then [] else [cases[0].target] + CaseTargets(cases[1..])
  }

  /** What decodeFunction guarantees about a function it returns. */
  ghost predicate Decoded(insns: seq<Instruction>, size: nat, at: map<int, nat>) {
    && Tiles(insns, size) && Inverts(insns, at)
    && (forall i {:trigger TargetsOk(insns[i], at)} :: 0 <= i < |insns| ==> TargetsOk(insns[i], at))
    && (forall i :: 0 <= i < |insns| && insns[i].IsSaveGenerator() ==> insns[i].kind == CondJump)
    && (forall i :: 0 <= i < |insns| && insns[i].name in {Catch, Ret} ==> insns[i].operands != [])
  }

  lemma {:induction false} OffsetsIncrease(insns: seq<Instruction>, size: nat, i: nat, j: nat)
    requires Tiles(insns, size) && i < j < |insns|
    ensures insns[i].offset < insns[i].End() <= insns[j].offset < insns[j].End()
    decreases j
  {
    assert Adjacent(insns, j);
    if i + 1 < j { OffsetsIncrease(insns, size, i, j - 1); }
  }

  lemma EndsInside(insns: seq<Instruction>, size: nat, i: nat)
    requires Tiles(insns, size) && i < |insns|
    ensures insns[i].End() <= size && (insns[i].End() == size <==> i == |insns| - 1)
    ensures i + 1 < |insns| ==> insns[i + 1].offset == insns[i].End()
  {
    if i + 1 < |insns| {
      OffsetsIncrease(insns, size, i, |insns| - 1);
      assert Adjacent(insns, i + 1);
    }
  }

  // --------------------------------------------------------------- leaders

  /** The instruction ends a block: rule 4. */
  predicate EndsBlock(insn: Instruction) {
    (!insn.FallsThrough() || insn.kind == CondJump) && !insn.IsSaveGenerator()
  }

  /** Rules 1-7: why an offset starts a block. */
  ghost predicate Leader(insns: seq<Instruction>, handlers: seq<ExceptionHandler>, size: nat, at: map<int, nat>, o: int) {
    o == 0 || FromInsns(insns, size, |insns|, o) || FromHandlers(handlers, size, at, |handlers|, o)
  }

  /** One of the first n instructions makes o a leader. */
  ghost predicate FromInsns(insns: seq<Instruction>, size: nat, n: nat, o: int)
    requires n <= |insns|
  {
    exists i :: 0 <= i < n && LeaderFrom(insns[i], size, o)
  }

  ghost predicate FromHandlers(handlers: seq<ExceptionHandler>, size: nat, at: map<int, nat>, n: nat, o: int)
    requires n <= |handlers|
  {
    exists k :: 0 <= k < n && LeaderOfHandler(handlers[k], size, at, o)
  }

  ghost predicate LeaderFrom(insn: Instruction, size: nat, o: int) {
    o in insn.targets || (insn.kind != Normal && insn.kind != CatchInstr && !insn.IsSaveGenerator() && o == insn.End() < size)
  }

  ghost predicate LeaderOfHandler(h: ExceptionHandler, size: nat, at: map<int, nat>, o: int) {
    o in at && (o == h.target || o == h.start || (o == h.end && o < size))
  }

  lemma FromNextInsn(insns: seq<Instruction>, size: nat, n: nat, o: int)
    requires n < |insns|
    ensures FromInsns(insns, size, n + 1, o) <==> FromInsns(insns, size, n, o) || LeaderFrom(insns[n], size, o)
  {
  }

  lemma FromNextHandler(handlers: seq<ExceptionHandler>, size: nat, at: map<int, nat>, n: nat, o: int)
    requires n < |handlers|
    ensures FromHandlers(handlers, size, at, n + 1, o) <==> FromHandlers(handlers, size, at, n, o) || LeaderOfHandler(handlers[n], size, at, o)
  {
  }

  method AddFromInsn(insn: Instruction, bytecodeSize: nat, before: set<int>) returns (leaders: set<int>)
    ensures forall o :: o in leaders <==> o in before || LeaderFrom(insn, bytecodeSize, o)
  {
    leaders := before + (set t | t in insn.targets);
    if EndsBlock(insn) {
      var next := insn.End();
      if next < bytecodeSize { leaders := leaders + {next}; }
    }
  }

  method AddFromHandler(h: ExceptionHandler, bytecodeSize: nat, at: map<int, nat>, before: set<int>) returns (leaders: set<int>)
    ensures forall o :: o in leaders <==> o in before || LeaderOfHandler(h, bytecodeSize, at, o)
  {
    leaders := before;
    if h.target in at { leaders := leaders + {h.target}; }
    if h.start in at { leaders := leaders + {h.start}; }
    if h.end < bytecodeSize && h.end in at { leaders := leaders + {h.end}; }
  }

  method ComputeLeaders(insns: seq<Instruction>, handlers: seq<ExceptionHandler>, bytecodeSize: nat, at: map<int, nat>) returns (r: seq<int>)
    ensures forall i, j :: 0 <= i < j < |r| ==> r[i] < r[j]
    ensures forall o :: o in r <==> Leader(insns, handlers, bytecodeSize, at, o)
  {
    var leaders := {0};
    for i := 0 to |insns|
      invariant forall o :: o in leaders <==> o == 0 || FromInsns(insns, bytecodeSize, i, o)
    {
      leaders := AddFromInsn(insns[i], bytecodeSize, leaders);
      forall o { FromNextInsn(insns, bytecodeSize, i, o); }
    }
    for k := 0 to |handlers|
      invariant forall o :: o in leaders <==> o == 0 || FromInsns(insns, bytecodeSize, |insns|, o) || FromHandlers(handlers, bytecodeSize, at, k, o)
    {
      leaders := AddFromHandler(handlers[k], bytecodeSize, at, leaders);
      forall o { FromNextHandler(handlers, bytecodeSize, at, k, o); }
    }
    r := Ascending(leaders);
  }

  // ---------------------------------------------------------------- blocks

  function TerminatorFor(last: Instruction): Terminator
    requires last.kind == Switch ==> last.switchTable.Some?
  {
    if last.IsSaveGenerator() then FallthroughTerm
    else
      match last.kind
      case Jump => JumpTerm
      case CondJump => BranchTerm
      case Switch => SwitchTerm(last.switchTable.value, false)
      case Return => ReturnTerm
      case Throw => ThrowTerm
      case Unreachable => UnreachableTerm
      case _ => FallthroughTerm
  }

  /** An edge to the block at `offset`; None is E_JUMP_MISALIGNED. */
  function To(id: BlockId, byOffset: map<int, BlockId>, offset: int, kind: EdgeKind, caseValue: Option<int>, caseIsString: Option<bool>): Option<Edge> {
    if offset in byOffset then Some(Edge(id, byOffset[offset], kind, caseValue, caseIsString)) else None
  }

  function Both(a: Option<seq<Edge>>, e: Option<Edge>): Option<seq<Edge>> {
    if a.Some? && e.Some? then Some(a.value + [e.value]) else None
  }

  function CaseEdges(id: BlockId, byOffset: map<int, BlockId>, cases: seq<SwitchCase>, isString: bool): Option<seq<Edge>> {
    if cases == [] then Some([])
    else
      var c := cases[|cases| - 1];
      Both(CaseEdges(id, byOffset, cases[..|cases| - 1], isString), To(id, byOffset, c.target, SwitchCaseEdge, Some(c.value), Some(isString)))
  }

  /** The normal edges out of a block whose last instruction is `last`. */
  function SuccsFor(id: BlockId, byOffset: map<int, BlockId>, last: Instruction, term: Terminator, size: nat): Option<seq<Edge>>
    requires (term.JumpTerm? || term.BranchTerm?) ==> |last.targets| > 0
  {
    var end := last.End();
    match term
    case JumpTerm => Both(Some([]), To(id, byOffset, last.targets[0], JumpEdge, None, None))
    case BranchTerm =>
      var taken := Both(Some([]), To(id, byOffset, last.targets[0], BranchTaken, None, None));
      if end < size then Both(taken, To(id, byOffset, end, BranchNotTaken, None, None)) else taken
    case SwitchTerm(table, _) =>
      Both(CaseEdges(id, byOffset, table.cases, table.kind == StringSwitch), To(id, byOffset, table.defaultTarget, SwitchDefaultEdge, None, None))
    case FallthroughTerm => if end < size then Both(Some([]), To(id, byOffset, end, FallthroughEdge, None, None)) else Some([])
    case _ => Some([])
  }

  /** The block made from one nonempty slice. */
  function BlockFor(id: BlockId, start: int, body: seq<Instruction>, byOffset: map<int, BlockId>, size: nat, handlers: seq<ExceptionHandler>): Option<BasicBlock>
    requires body != []
    requires var last := body[|body| - 1]; (last.kind == Switch ==> last.switchTable.Some?) && (last.kind in {Jump, CondJump} ==> |last.targets| > 0)
  {
    var last := body[|body| - 1];
    var term := TerminatorFor(last);
    match SuccsFor(id, byOffset, last, term, size)
    case None => None
    case Some(succs) =>
      var finalTerm := if term == FallthroughTerm && succs == [] then UnreachableTerm else term;
      var isEntry := exists k :: 0 <= k < |handlers| && handlers[k].target == start;
      var register := if isEntry && body[0].name == Catch && body[0].operands != [] then Some(body[0].operands[0]) else None;
      Some(BasicBlock(id, start, last.End(), body, finalTerm, succs, [], isEntry, register))
  }

  datatype RawBlocks = RawBlocks(blocks: seq<BasicBlock>, byOffset: map<int, BlockId>)
                     | PrecedesLeader | EmptyBlock | Misaligned

  /** Block k holds the instructions cut[k] .. cut[k + 1]. */
  ghost predicate Cuts(insns: seq<Instruction>, at: map<int, nat>, leaders: seq<int>, cut: seq<nat>) {
    && |cut| == |leaders| + 1 && cut[|leaders|] == |insns| && cut[0] == 0
    && (forall k :: 0 <= k < |leaders| ==> leaders[k] in at && cut[k] == at[leaders[k]])
    && (forall j, k :: 0 <= j < k < |cut| ==> cut[j] < cut[k])
  }

  ghost predicate LeadersOf(insns: seq<Instruction>, handlers: seq<ExceptionHandler>, size: nat, at: map<int, nat>, leaders: seq<int>) {
    && (forall i, j :: 0 <= i < j < |leaders| ==> leaders[i] < leaders[j])
    && forall o :: o in leaders <==> Leader(insns, handlers, size, at, o)
  }

  lemma LeaderIsInstruction(insns: seq<Instruction>, handlers: seq<ExceptionHandler>, size: nat, at: map<int, nat>, o: int)
    requires Decoded(insns, size, at) && insns != [] && Leader(insns, handlers, size, at, o)
    ensures o in at
  {
    if o == 0 {
      assert insns[0].offset in at;
    } else if i :| 0 <= i < |insns| && LeaderFrom(insns[i], size, o) {
      assert TargetsOk(insns[i], at);
      EndsInside(insns, size, i);
    }
  }

  lemma OffsetOrder(insns: seq<Instruction>, size: nat, at: map<int, nat>, x: int, y: int)
    requires Decoded(insns, size, at) && x in at && y in at
    ensures x < y <==> at[x] < at[y]
    ensures at[x] < |insns| && at[y] < |insns| && insns[at[x]].offset == x && insns[at[y]].offset == y
  {
    if at[x] < at[y] { OffsetsIncrease(insns, size, at[x], at[y]); }
    if at[y] < at[x] { OffsetsIncrease(insns, size, at[y], at[x]); }
  }

  lemma CutsExist(insns: seq<Instruction>, handlers: seq<ExceptionHandler>, size: nat, at: map<int, nat>, leaders: seq<int>) returns (cut: seq<nat>)
    requires Decoded(insns, size, at) && insns != [] && LeadersOf(insns, handlers, size, at, leaders)
    ensures Cuts(insns, at, leaders, cut)
  {
    cut := [];
    while |cut| < |leaders|
      invariant |cut| <= |leaders|
      invariant forall k :: 0 <= k < |cut| ==> leaders[k] in at && cut[k] == at[leaders[k]] && cut[k] < |insns|
      invariant forall j, k :: 0 <= j < k < |cut| ==> cut[j] < cut[k]
    {
      var o := leaders[|cut|];
      assert o in leaders;
      LeaderIsInstruction(insns, handlers, size, at, o);
      forall j | 0 <= j < |cut| ensures cut[j] < at[o] { OffsetOrder(insns, size, at, leaders[j], o); }
      cut := cut + [at[o]];
    }
    assert 0 in leaders;
    assert insns[0].offset in at;
    forall k | 0 <= k < |leaders| ensures cut[0] <= cut[k] {}
    var z :| 0 <= z < |leaders| && leaders[z] == 0;
    cut := cut + [|insns|];
  }

  // Which offsets the last instruction of a block continues at.

  /** Offsets an instruction can continue at. SaveGenerator only falls through. */
  ghost predicate ContinuesAt(insn: Instruction, size: nat, o: int) {
    if insn.IsSaveGenerator() then o == insn.End() < size
    else (o in insn.targets) || (insn.FallsThrough() && o == insn.End() < size)
  }

  ghost predicate Inverse(leaders: seq<int>, byOffset: map<int, BlockId>) {
    && (forall k: nat :: k < |leaders| ==> leaders[k] in byOffset && byOffset[leaders[k]] == k)
    && (forall o {:trigger byOffset[o]} {:trigger o in byOffset} :: o in byOffset ==> byOffset[o] < |leaders| && leaders[byOffset[o]] == o)
  }

  /** The block id, with its edges, as the instructions say it should be. */
  ghost predicate BlockRight(insns: seq<Instruction>, size: nat, leaders: seq<int>, byOffset: map<int, BlockId>, cut: seq<nat>, handlers: seq<ExceptionHandler>, id: nat, b: BasicBlock)
    requires id < |leaders| && |cut| == |leaders| + 1 && cut[id] < cut[id + 1] <= |insns|
  {
    var last := insns[cut[id + 1] - 1];
    && b.id == id && b.start == leaders[id] && b.end == last.End() && b.instructions == insns[cut[id]..cut[id + 1]] && b.preds == []
    && (b.isHandlerEntry <==> exists k :: 0 <= k < |handlers| && handlers[k].target == b.start)
    && (b.catchRegister == if b.isHandlerEntry && insns[cut[id]].name == Catch && insns[cut[id]].operands != [] then Some(insns[cut[id]].operands[0]) else None)
    && TerminatorRight(last, size, b.terminator)
    && EdgesRight(id, last, size, leaders, b.succs)
  }

  /** The edge is of this kind and goes to the block that starts at o. */
  ghost predicate LeadsTo(leaders: seq<int>, e: Edge, o: int, kind: EdgeKind, caseValue: Option<int>, caseIsString: Option<bool>) {
    e.to < |leaders| && leaders[e.to] == o && e.kind == kind && e.caseValue == caseValue && e.caseIsString == caseIsString
  }

  /** What each edge is for, in order: a conditional jump is taken to its target and not taken
      to what follows it, a switch goes to its cases, each under its value, and then to its
      default. */
  ghost predicate EdgesNamed(last: Instruction, size: nat, leaders: seq<int>, succs: seq<Edge>) {
    var end := last.End();
    if last.IsSaveGenerator() || last.kind in {Normal, CatchInstr} then
      |succs| == (if end < size then 1 else 0) && (end < size ==> LeadsTo(leaders, succs[0], end, FallthroughEdge, None, None))
    else
      match last.kind
      case Jump => last.targets != [] && |succs| == 1 && LeadsTo(leaders, succs[0], last.targets[0], JumpEdge, None, None)
      case CondJump =>
        && last.targets != [] && |succs| == (if end < size then 2 else 1)
        && LeadsTo(leaders, succs[0], last.targets[0], BranchTaken, None, None)
        && (end < size ==> LeadsTo(leaders, succs[1], end, BranchNotTaken, None, None))
      case Switch => last.switchTable.Some? && CasesNamed(last.switchTable.value, leaders, succs)
      case _ => succs == []
  }

  ghost predicate CasesNamed(table: SwitchTable, leaders: seq<int>, succs: seq<Edge>) {
    && |succs| == |table.cases| + 1
    && (forall k {:trigger succs[k]} :: 0 <= k < |table.cases| ==>
          LeadsTo(leaders, succs[k], table.cases[k].target, SwitchCaseEdge, Some(table.cases[k].value), Some(table.kind == StringSwitch)))
    && LeadsTo(leaders, succs[|table.cases|], table.defaultTarget, SwitchDefaultEdge, None, None)
  }

  /** The edges of block id are named by the last instruction of its slice. */
  ghost predicate NamedAt(insns: seq<Instruction>, size: nat, leaders: seq<int>, cut: seq<nat>, id: nat, b: BasicBlock) {
    id + 1 < |cut| && 0 < cut[id + 1] <= |insns| && EdgesNamed(insns[cut[id + 1] - 1], size, leaders, b.succs)
  }

  ghost predicate AllNamed(insns: seq<Instruction>, size: nat, leaders: seq<int>, cut: seq<nat>, blocks: seq<BasicBlock>) {
    forall id: nat {:trigger NamedAt(insns, size, leaders, cut, id, blocks[id])} :: id < |blocks| ==> NamedAt(insns, size, leaders, cut, id, blocks[id])
  }

  lemma NamedMore(insns: seq<Instruction>, size: nat, leaders: seq<int>, cut: seq<nat>, blocks: seq<BasicBlock>, b: BasicBlock)
    requires AllNamed(insns, size, leaders, cut, blocks) && NamedAt(insns, size, leaders, cut, |blocks|, b)
    ensures AllNamed(insns, size, leaders, cut, blocks + [b])
  {
    forall id: nat | id < |blocks + [b]| ensures NamedAt(insns, size, leaders, cut, id, (blocks + [b])[id]) {
      if id < |blocks| { assert NamedAt(insns, size, leaders, cut, id, blocks[id]); }
    }
  }

  /** The edges go exactly to the blocks that start where `last` continues. */
  ghost predicate EdgesRight(id: BlockId, last: Instruction, size: nat, leaders: seq<int>, succs: seq<Edge>) {
    && (forall e :: e in succs ==> e.from == id && e.to < |leaders|)
    && (forall t: nat :: t < |leaders| ==> ((exists e :: e in succs && e.to == t) <==> ContinuesAt(last, size, leaders[t])))
    && (last.kind == Switch && !last.IsSaveGenerator() ==> last.switchTable.Some? && |succs| == |last.switchTable.value.cases| + 1)
    && (succs == [] ==> last.kind in {Return, Throw, Unreachable} || (last.FallsThrough() && last.End() >= size && (last.kind == CondJump ==> last.IsSaveGenerator())))
  }

  ghost predicate TerminatorRight(last: Instruction, size: nat, term: Terminator) {
    if last.IsSaveGenerator() || last.kind in {Normal, CatchInstr} then
      term == if last.End() < size then FallthroughTerm else UnreachableTerm
    else
      match last.kind
      case Jump => term == JumpTerm
      case CondJump => term == BranchTerm
      case Switch => last.switchTable.Some? && term == SwitchTerm(last.switchTable.value, false)
      case Return => term == ReturnTerm
      case Throw => term == ThrowTerm
      case _ => term == UnreachableTerm
  }

  lemma {:induction false} CaseEdgesRight(id: BlockId, leaders: seq<int>, byOffset: map<int, BlockId>, cases: seq<SwitchCase>, isString: bool)
    requires Inverse(leaders, byOffset) && forall k :: 0 <= k < |cases| ==> cases[k].target in byOffset
    ensures var r := CaseEdges(id, byOffset, cases, isString);
            r.Some? && |r.value| == |cases|
            && forall k :: 0 <= k < |cases| ==> r.value[k] == Edge(id, byOffset[cases[k].target], SwitchCaseEdge, Some(cases[k].value), Some(isString))
  {
    if cases != [] {
      CaseEdgesRight(id, leaders, byOffset, cases[..|cases| - 1], isString);
    }
  }

  /** The edges of a switch: one per case, then the default. */
  lemma SwitchEdges(id: BlockId, leaders: seq<int>, byOffset: map<int, BlockId>, last: Instruction, size: nat)
    requires Inverse(leaders, byOffset) && last.kind == Switch && !last.IsSaveGenerator() && last.switchTable.Some?
    requires last.targets == [last.switchTable.value.defaultTarget] + CaseTargets(last.switchTable.value.cases)
    requires forall k :: 0 <= k < |last.targets| ==> last.targets[k] in byOffset
    ensures var r := SuccsFor(id, byOffset, last, TerminatorFor(last), size);
            r.Some? && |r.value| == |last.targets|
            && (forall k :: 0 <= k < |r.value| ==> r.value[k].from == id && r.value[k].to < |leaders|)
            && (forall k :: 1 <= k < |last.targets| ==> leaders[r.value[k - 1].to] == last.targets[k])
            && leaders[r.value[|r.value| - 1].to] == last.targets[0]
  {
    var table := last.switchTable.value;
    forall k | 0 <= k < |table.cases| ensures table.cases[k].target in byOffset {
      assert CaseTargets(table.cases)[k] == last.targets[k + 1];
    }
    CaseEdgesRight(id, leaders, byOffset, table.cases, table.kind == StringSwitch);
    assert last.targets[0] in byOffset;
    assert TerminatorFor(last) == SwitchTerm(table, false);
  }

  lemma SwitchEdgesRight(id: BlockId, leaders: seq<int>, byOffset: map<int, BlockId>, last: Instruction, size: nat)
    requires Inverse(leaders, byOffset) && last.kind == Switch && !last.IsSaveGenerator() && last.switchTable.Some?
    requires last.targets == [last.switchTable.value.defaultTarget] + CaseTargets(last.switchTable.value.cases)
    requires forall k :: 0 <= k < |last.targets| ==> last.targets[k] in byOffset
    ensures var r := SuccsFor(id, byOffset, last, TerminatorFor(last), size);
            r.Some? && EdgesRight(id, last, size, leaders, r.value)
  {
    SwitchEdges(id, leaders, byOffset, last, size);
    var r := SuccsFor(id, byOffset, last, TerminatorFor(last), size).value;
    EdgesFollowTargets(leaders, byOffset, last.targets, r);
  }

  /** Edges that go to the blocks of the targets, in any order. */
  lemma EdgesFollowTargets(leaders: seq<int>, byOffset: map<int, BlockId>, targets: seq<int>, r: seq<Edge>)
    requires Inverse(leaders, byOffset) && |r| == |targets| > 0
    requires forall k :: 0 <= k < |r| ==> r[k].to < |leaders|
    requires forall k :: 1 <= k < |targets| ==> leaders[r[k - 1].to] == targets[k]
    requires leaders[r[|r| - 1].to] == targets[0]
    ensures forall t: nat :: t < |leaders| ==> ((exists e :: e in r && e.to == t) <==> leaders[t] in targets)
  {
    forall t: nat | t < |leaders| ensures (exists e :: e in r && e.to == t) <==> leaders[t] in targets {
      if leaders[t] in targets {
        var k :| 0 <= k < |targets| && targets[k] == leaders[t];
        var e := r[if k == 0 then |r| - 1 else k - 1];
        assert byOffset[leaders[e.to]] == e.to;
        assert e in r && e.to == t;
      }
      if e :| e in r && e.to == t {
        var k :| 0 <= k < |r| && r[k] == e;
        if k < |r| - 1 { assert targets[k + 1] == leaders[r[k + 1 - 1].to]; }
      }
    }
  }

  lemma PlainEdgesRight(id: BlockId, leaders: seq<int>, byOffset: map<int, BlockId>, at: map<int, nat>, last: Instruction, size: nat)
    requires Inverse(leaders, byOffset) && TargetsOk(last, at) && (last.kind != Switch || last.IsSaveGenerator())
    requires last.IsSaveGenerator() ==> last.kind == CondJump
    requires (forall k :: 0 <= k < |last.targets| ==> last.targets[k] in byOffset) && (last.FallsThrough() && last.End() < size ==> last.End() in byOffset)
    ensures var r := SuccsFor(id, byOffset, last, TerminatorFor(last), size);
            r.Some? && EdgesRight(id, last, size, leaders, r.value)
  {
    var r := SuccsFor(id, byOffset, last, TerminatorFor(last), size).value;
    if last.kind in {Jump, CondJump} { assert last.targets[0] in last.targets && last.targets == [last.targets[0]]; }
    forall t: nat | t < |leaders| ensures (exists e :: e in r && e.to == t) <==> ContinuesAt(last, size, leaders[t]) {
      if ContinuesAt(last, size, leaders[t]) {
        assert r[0] in r;
        assert r[|r| - 1] in r;
      }
    }
  }

  lemma SwitchEdgesNamed(id: BlockId, leaders: seq<int>, byOffset: map<int, BlockId>, last: Instruction, size: nat)
    requires Inverse(leaders, byOffset) && last.kind == Switch && !last.IsSaveGenerator() && last.switchTable.Some?
    requires last.targets == [last.switchTable.value.defaultTarget] + CaseTargets(last.switchTable.value.cases)
    requires forall k :: 0 <= k < |last.targets| ==> last.targets[k] in byOffset
    ensures var r := SuccsFor(id, byOffset, last, TerminatorFor(last), size);
            r.Some? && EdgesNamed(last, size, leaders, r.value)
  {
    var table := last.switchTable.value;
    forall k | 0 <= k < |table.cases| ensures table.cases[k].target in byOffset {
      assert CaseTargets(table.cases)[k] == last.targets[k + 1];
    }
    CaseEdgesRight(id, leaders, byOffset, table.cases, table.kind == StringSwitch);
    assert last.targets[0] in byOffset;
  }

  lemma PlainEdgesNamed(id: BlockId, leaders: seq<int>, byOffset: map<int, BlockId>, at: map<int, nat>, last: Instruction, size: nat)
    requires Inverse(leaders, byOffset) && TargetsOk(last, at) && (last.kind != Switch || last.IsSaveGenerator())
    requires last.IsSaveGenerator() ==> last.kind == CondJump
    requires (forall k :: 0 <= k < |last.targets| ==> last.targets[k] in byOffset) && (last.FallsThrough() && last.End() < size ==> last.End() in byOffset)
    ensures var r := SuccsFor(id, byOffset, last, TerminatorFor(last), size);
            r.Some? && EdgesNamed(last, size, leaders, r.value)
  {
    if last.kind in {Jump, CondJump} { assert last.targets[0] in last.targets; }
  }

  lemma EdgesOfBlockRight(insns: seq<Instruction>, handlers: seq<ExceptionHandler>, size: nat, at: map<int, nat>, leaders: seq<int>,
                          byOffset: map<int, BlockId>, cut: seq<nat>, id: nat)
    requires Decoded(insns, size, at) && insns != [] && LeadersOf(insns, handlers, size, at, leaders)
    requires Cuts(insns, at, leaders, cut) && Inverse(leaders, byOffset) && id < |leaders|
    ensures TargetsOk(insns[cut[id + 1] - 1], at)
    ensures var last := insns[cut[id + 1] - 1];
            var r := SuccsFor(id, byOffset, last, TerminatorFor(last), size);
            r.Some? && EdgesRight(id, last, size, leaders, r.value) && EdgesNamed(last, size, leaders, r.value)
  {
    var last := insns[cut[id + 1] - 1];
    assert TargetsOk(last, at);
    forall k | 0 <= k < |last.targets| ensures last.targets[k] in byOffset {
      assert LeaderFrom(last, size, last.targets[k]);
      assert last.targets[k] in leaders;
    }
    EndsInside(insns, size, cut[id + 1] - 1);
    if last.End() < size {
      assert id + 1 < |leaders|;
      assert leaders[id + 1] == last.End();
    }
    if last.kind == Switch && !last.IsSaveGenerator() {
      SwitchEdgesRight(id, leaders, byOffset, last, size);
      SwitchEdgesNamed(id, leaders, byOffset, last, size);
    } else {
      PlainEdgesRight(id, leaders, byOffset, at, last, size);
      PlainEdgesNamed(id, leaders, byOffset, at, last, size);
    }
  }

  /** BlockFor, once its edges exist and are right. */
  lemma BlockFromEdges(insns: seq<Instruction>, handlers: seq<ExceptionHandler>, size: nat, at: map<int, nat>, leaders: seq<int>,
                       byOffset: map<int, BlockId>, cut: seq<nat>, id: nat, body: seq<Instruction>)
    requires id < |leaders| && |cut| == |leaders| + 1 && cut[id] < cut[id + 1] <= |insns| && body == insns[cut[id]..cut[id + 1]]
    requires TargetsOk(insns[cut[id + 1] - 1], at)
    requires insns[cut[id + 1] - 1].IsSaveGenerator() ==> insns[cut[id + 1] - 1].kind == CondJump
    requires var last := insns[cut[id + 1] - 1];
             var r := SuccsFor(id, byOffset, last, TerminatorFor(last), size);
             r.Some? && EdgesRight(id, last, size, leaders, r.value) && EdgesNamed(last, size, leaders, r.value)
    ensures body[|body| - 1] == insns[cut[id + 1] - 1]
    ensures var r := BlockFor(id, leaders[id], body, byOffset, size, handlers);
            r.Some? && BlockRight(insns, size, leaders, byOffset, cut, handlers, id, r.value) && NamedAt(insns, size, leaders, cut, id, r.value)
  {
    var last := insns[cut[id + 1] - 1];
    assert body[|body| - 1] == last && body[0] == insns[cut[id]];
    var succs := SuccsFor(id, byOffset, last, TerminatorFor(last), size).value;
    if TerminatorFor(last) == FallthroughTerm && last.End() < size {
      assert succs != [];
    }
  }

  /** No validated block is refused, and each comes out right. */
  lemma BlockForRight(insns: seq<Instruction>, handlers: seq<ExceptionHandler>, size: nat, at: map<int, nat>, leaders: seq<int>,
                      byOffset: map<int, BlockId>, cut: seq<nat>, id: nat, body: seq<Instruction>)
    requires Decoded(insns, size, at) && insns != [] && LeadersOf(insns, handlers, size, at, leaders)
    requires Cuts(insns, at, leaders, cut) && Inverse(leaders, byOffset) && id < |leaders| && body == insns[cut[id]..cut[id + 1]]
    ensures body != [] && TargetsOk(body[|body| - 1], at)
    ensures var r := BlockFor(id, leaders[id], body, byOffset, size, handlers);
            r.Some? && BlockRight(insns, size, leaders, byOffset, cut, handlers, id, r.value) && NamedAt(insns, size, leaders, cut, id, r.value)
  {
    EdgesOfBlockRight(insns, handlers, size, at, leaders, byOffset, cut, id);
    BlockFromEdges(insns, handlers, size, at, leaders, byOffset, cut, id, body);
  }

  // ------------------------------------------------------- the builder itself

  const NO_INSTRUCTIONS: seq<Instruction> := []

  function EmptyFunctionBlock(): BasicBlock {
    BasicBlock(0, 0, 0, NO_INSTRUCTIONS, ReturnTerm, [], [], false, None)
  }

  /** What the built blocks are: the slices of the instruction stream, or the one empty block. */
  ghost predicate BuiltRight(insns: seq<Instruction>, handlers: seq<ExceptionHandler>, size: nat, leaders: seq<int>,
                             blocks: seq<BasicBlock>, byOffset: map<int, BlockId>, cut: seq<nat>)
  {
    && Inverse(leaders, byOffset) && |blocks| == |leaders|
    && if insns == [] then blocks == [BasicBlock(0, 0, 0, NO_INSTRUCTIONS, ReturnTerm, [], [], false, None)] && leaders == [0]
       else
         && |cut| == |leaders| + 1 && cut[|leaders|] == |insns| && cut[0] == 0
         && (forall j, k :: 0 <= j < k < |cut| ==> cut[j] < cut[k])
         && (forall k :: 0 <= k < |leaders| ==> insns[cut[k]].offset == leaders[k])
         && (forall id: nat {:trigger blocks[id]} :: id < |leaders| ==> BlockRight(insns, size, leaders, byOffset, cut, handlers, id, blocks[id]))
         && AllNamed(insns, size, leaders, cut, blocks)
  }

  /** Where the slicing loop stands after n instructions: in slice cur. */
  ghost predicate Slicing(insns: seq<Instruction>, cut: seq<nat>, slices: seq<seq<Instruction>>, cur: int, n: nat)
    requires n <= |insns| && |cut| == |slices| + 1 && forall k :: 0 <= k < |cut| ==> cut[k] <= |insns|
  {
    && (if n == 0 then cur == -1 else 0 <= cur < |slices| && cut[cur] < n <= cut[cur + 1])
    && (forall k :: 0 <= k < |slices| && k < cur ==> cut[k] <= cut[k + 1] && slices[k] == insns[cut[k]..cut[k + 1]])
    && (n > 0 ==> slices[cur] == insns[cut[cur]..n])
    && (forall k :: 0 <= k < |slices| && k > cur ==> slices[k] == [])
  }

  lemma CutIsNext(cut: seq<nat>, cur: int, k: nat)
    requires forall j, k :: 0 <= j < k < |cut| ==> cut[j] < cut[k]
    requires k < |cut| && -1 <= cur < |cut| - 1 && (if cur == -1 then cut[k] == cut[0] else cut[cur] < cut[k] <= cut[cur + 1])
    ensures k == cur + 1
  {
  }

  /** The slice instruction n goes to: the one it leads, or the current one. */
  lemma SliceOf(insns: seq<Instruction>, leaders: seq<int>, byOffset: map<int, BlockId>, at: map<int, nat>, cut: seq<nat>, cur: int, n: nat, cur': int)
    requires Inverts(insns, at) && Cuts(insns, at, leaders, cut) && Inverse(leaders, byOffset) && n < |insns|
    requires if n == 0 then cur == -1 else 0 <= cur < |leaders| && cut[cur] < n <= cut[cur + 1]
    requires cur' == if insns[n].offset in byOffset then byOffset[insns[n].offset] else cur
    ensures 0 <= cur' < |leaders| && cut[cur'] <= n < cut[cur' + 1]
    ensures if cur' == cur then cut[cur] < n else cur' == cur + 1 && cut[cur'] == n
  {
    forall k | 0 <= k < |leaders| ensures insns[cut[k]].offset == leaders[k] && leaders[k] in byOffset {
      assert leaders[k] in at;
    }
    if insns[n].offset in byOffset {
      assert leaders[cur'] == insns[n].offset;
      CutIsNext(cut, cur, cur');
    }
  }

  lemma SliceStep(insns: seq<Instruction>, leaders: seq<int>, byOffset: map<int, BlockId>, at: map<int, nat>, cut: seq<nat>,
                  slices: seq<seq<Instruction>>, cur: int, n: nat, cur': int)
    requires Inverts(insns, at) && Cuts(insns, at, leaders, cut) && Inverse(leaders, byOffset) && |slices| == |leaders| && n < |insns|
    requires Slicing(insns, cut, slices, cur, n)
    requires cur' == if insns[n].offset in byOffset then byOffset[insns[n].offset] else cur
    ensures 0 <= cur' < |slices| && Slicing(insns, cut, slices[cur' := slices[cur'] + [insns[n]]], cur', n + 1)
  {
    SliceOf(insns, leaders, byOffset, at, cut, cur, n, cur');
    assert slices[cur'] + [insns[n]] == insns[cut[cur']..n + 1];
  }

  method SliceInstructions(insns: seq<Instruction>, leaders: seq<int>, byOffset: map<int, BlockId>, ghost at: map<int, nat>, ghost cut: seq<nat>)
    returns (slices: seq<seq<Instruction>>, ok: bool)
    requires Inverts(insns, at) && Cuts(insns, at, leaders, cut) && Inverse(leaders, byOffset)
    ensures ok && |slices| == |leaders| && Slicing(insns, cut, slices, |leaders| - 1, |insns|)
  {
    slices, ok := seq(|leaders|, i => []), true;
    var cur := -1;
    for n := 0 to |insns|
      invariant |slices| == |leaders| && Slicing(insns, cut, slices, cur, n)
    {
      var insn := insns[n];
      ghost var before := cur;
      if insn.offset in byOffset { cur := byOffset[insn.offset]; }
      SliceStep(insns, leaders, byOffset, at, cut, slices, before, n, cur);
      if cur < 0 { return slices, false; }
      slices := slices[cur := slices[cur] + [insn]];
    }
    if |insns| > 0 { CutIsNext(cut, cur, |leaders|); }
  }

  method IndexLeaders(leaders: seq<int>) returns (byOffset: map<int, BlockId>)
    requires forall i, j :: 0 <= i < j < |leaders| ==> leaders[i] < leaders[j]
    ensures Inverse(leaders, byOffset)
  {
    byOffset := map[];
    for i := 0 to |leaders|
      invariant forall k: nat :: k < i ==> leaders[k] in byOffset && byOffset[leaders[k]] == k
      invariant forall o {:trigger byOffset[o]} {:trigger o in byOffset} :: o in byOffset ==> byOffset[o] < i && leaders[byOffset[o]] == o
    {
      byOffset := byOffset[leaders[i] := i];
    }
  }

  method BuildBlocks(insns: seq<Instruction>, leaders: seq<int>, bytecodeSize: nat, handlers: seq<ExceptionHandler>, ghost at: map<int, nat>)
    returns (r: RawBlocks, ghost cut: seq<nat>)
    requires Decoded(insns, bytecodeSize, at) && LeadersOf(insns, handlers, bytecodeSize, at, leaders)
    ensures r.RawBlocks? && BuiltRight(insns, handlers, bytecodeSize, leaders, r.blocks, r.byOffset, cut)
  {
    var byOffset := IndexLeaders(leaders);
    cut := [];
    var slices: seq<seq<Instruction>> := seq(|leaders|, i => []);
    if insns == [] {
      EmptyLeaders(handlers, bytecodeSize, at, leaders);
    } else {
      cut := CutsExist(insns, handlers, bytecodeSize, at, leaders);
      var ok;
      slices, ok := SliceInstructions(insns, leaders, byOffset, at, cut);
      if !ok { return PrecedesLeader, cut; }
    }
    r := MakeBlocks(insns, leaders, bytecodeSize, handlers, byOffset, slices, at, cut);
    if insns != [] { CutsLead(insns, at, leaders, cut); }
  }

  lemma CutsLead(insns: seq<Instruction>, at: map<int, nat>, leaders: seq<int>, cut: seq<nat>)
    requires Inverts(insns, at) && Cuts(insns, at, leaders, cut)
    ensures forall k :: 0 <= k < |leaders| ==> cut[k] < |insns| && insns[cut[k]].offset == leaders[k]
  {
    forall k | 0 <= k < |leaders| ensures cut[k] < |insns| && insns[cut[k]].offset == leaders[k] {
      assert leaders[k] in at;
    }
  }

  lemma SliceIsBody(insns: seq<Instruction>, at: map<int, nat>, leaders: seq<int>, cut: seq<nat>, slices: seq<seq<Instruction>>, id: nat)
    requires Cuts(insns, at, leaders, cut) && |slices| == |leaders| && Slicing(insns, cut, slices, |leaders| - 1, |insns|) && id < |leaders|
    ensures cut[id] < cut[id + 1] && slices[id] == insns[cut[id]..cut[id + 1]] && slices[id] != []
  {
  }

  /** The blocks made so far are right. */
  ghost predicate BlocksRight(insns: seq<Instruction>, size: nat, leaders: seq<int>, byOffset: map<int, BlockId>, at: map<int, nat>, cut: seq<nat>,
                              handlers: seq<ExceptionHandler>, blocks: seq<BasicBlock>)
    requires |blocks| <= |leaders| && Cuts(insns, at, leaders, cut)
  {
    && (forall k: nat {:trigger blocks[k]} :: k < |blocks| ==> BlockRight(insns, size, leaders, byOffset, cut, handlers, k, blocks[k]))
    && AllNamed(insns, size, leaders, cut, blocks)
  }

  lemma BlocksMore(insns: seq<Instruction>, size: nat, leaders: seq<int>, byOffset: map<int, BlockId>, at: map<int, nat>, cut: seq<nat>,
                   handlers: seq<ExceptionHandler>, blocks: seq<BasicBlock>, b: BasicBlock)
    requires |blocks| < |leaders| && Cuts(insns, at, leaders, cut) && BlocksRight(insns, size, leaders, byOffset, at, cut, handlers, blocks)
    requires BlockRight(insns, size, leaders, byOffset, cut, handlers, |blocks|, b) && NamedAt(insns, size, leaders, cut, |blocks|, b)
    ensures BlocksRight(insns, size, leaders, byOffset, at, cut, handlers, blocks + [b])
  {
    NamedMore(insns, size, leaders, cut, blocks, b);
  }

  /** One slice turned into a block; None is E_JUMP_MISALIGNED, which does not happen. */
  method MakeBlock(insns: seq<Instruction>, leaders: seq<int>, bytecodeSize: nat, handlers: seq<ExceptionHandler>, byOffset: map<int, BlockId>,
                   body: seq<Instruction>, blocks: seq<BasicBlock>, ghost at: map<int, nat>, ghost cut: seq<nat>)
    returns (r: Option<seq<BasicBlock>>)
    requires Decoded(insns, bytecodeSize, at) && insns != [] && LeadersOf(insns, handlers, bytecodeSize, at, leaders) && Inverse(leaders, byOffset)
    requires Cuts(insns, at, leaders, cut) && |blocks| < |leaders| && body == insns[cut[|blocks|]..cut[|blocks| + 1]]
    requires BlocksRight(insns, bytecodeSize, leaders, byOffset, at, cut, handlers, blocks)
    ensures r.Some? && |r.value| == |blocks| + 1 && BlocksRight(insns, bytecodeSize, leaders, byOffset, at, cut, handlers, r.value)
  {
    var id := |blocks|;
    BlockForRight(insns, handlers, bytecodeSize, at, leaders, byOffset, cut, id, body);
    var b := BlockFor(id, leaders[id], body, byOffset, bytecodeSize, handlers);
    if b.None? { return None; }
    BlocksMore(insns, bytecodeSize, leaders, byOffset, at, cut, handlers, blocks, b.value);
    r := Some(blocks + [b.value]);
  }

  /** The slices, in order, turned into blocks. */
  method MakeBlocks(insns: seq<Instruction>, leaders: seq<int>, bytecodeSize: nat, handlers: seq<ExceptionHandler>, byOffset: map<int, BlockId>,
                    slices: seq<seq<Instruction>>, ghost at: map<int, nat>, ghost cut: seq<nat>)
    returns (r: RawBlocks)
    requires Decoded(insns, bytecodeSize, at) && LeadersOf(insns, handlers, bytecodeSize, at, leaders) && Inverse(leaders, byOffset)
    requires |slices| == |leaders|
    requires if insns == [] then leaders == [0] && slices == [[]]
             else Cuts(insns, at, leaders, cut) && Slicing(insns, cut, slices, |leaders| - 1, |insns|)
    ensures r.RawBlocks? && r.byOffset == byOffset && |r.blocks| == |leaders|
    ensures if insns == [] then r.blocks == [EmptyFunctionBlock()] else BlocksRight(insns, bytecodeSize, leaders, byOffset, at, cut, handlers, r.blocks)
  {
    var blocks: seq<BasicBlock> := [];
    for id := 0 to |leaders|
      invariant |blocks| == id
      invariant if insns == [] then blocks == [EmptyFunctionBlock()][..id] else BlocksRight(insns, bytecodeSize, leaders, byOffset, at, cut, handlers, blocks)
    {
      var body := slices[id];
      if insns != [] { SliceIsBody(insns, at, leaders, cut, slices, id); }
      if body == [] {
        if bytecodeSize != 0 || |leaders| != 1 { return EmptyBlock; }
        blocks := blocks + [EmptyFunctionBlock()];
      } else {
        var more := MakeBlock(insns, leaders, bytecodeSize, handlers, byOffset, body, blocks, at, cut);
        if more.None? { return Misaligned; }
        blocks := more.value;
      }
    }
    r := RawBlocks(blocks, byOffset);
  }

  lemma FirstTwo(leaders: seq<int>)
    requires forall i, j :: 0 <= i < j < |leaders| ==> leaders[i] < leaders[j]
    ensures |leaders| > 1 ==> leaders[0] < leaders[1]
  {
  }

  lemma EmptyLeaders(handlers: seq<ExceptionHandler>, size: nat, at: map<int, nat>, leaders: seq<int>)
    requires Decoded([], size, at) && LeadersOf([], handlers, size, at, leaders)
    ensures leaders == [0]
  {
    FirstTwo(leaders);
    assert Leader([], handlers, size, at, 0);
    assert 0 in leaders;
    forall k | 0 <= k < |leaders| ensures leaders[k] == 0 {
      assert leaders[k] in leaders;
      assert Leader([], handlers, size, at, leaders[k]);
    }
  }

  /** The predecessor sets after the edges of the first n blocks. */
  ghost predicate PredSets(blocks: seq<BasicBlock>, preds: seq<set<int>>, n: nat) {
    |preds| == |blocks| && forall t: nat, p {:trigger p in preds[t]} :: t < |blocks| ==> (p in preds[t] <==> 0 <= p < n && IsEdge(blocks, p, t))
  }

  /** The same, with the first k edges of block n added. */
  ghost predicate PredSetsWithin(blocks: seq<BasicBlock>, before: seq<set<int>>, preds: seq<set<int>>, n: nat, k: nat)
    requires n < |blocks| && k <= |blocks[n].succs|
  {
    && |preds| == |before| == |blocks|
    && forall t: nat, p {:trigger p in preds[t]} :: t < |blocks| ==>
         (p in preds[t] <==> p in before[t] || (p == n && exists j :: 0 <= j < k && blocks[n].succs[j].to == t))
  }

  lemma PredSetsNext(blocks: seq<BasicBlock>, before: seq<set<int>>, preds: seq<set<int>>, n: nat)
    requires n < |blocks| && PredSets(blocks, before, n) && PredSetsWithin(blocks, before, preds, n, |blocks[n].succs|)
    ensures PredSets(blocks, preds, n + 1)
  {
    forall t: nat, p | t < |blocks| ensures p in preds[t] <==> 0 <= p < n + 1 && IsEdge(blocks, p, t) {
      assert p in preds[t] <==> p in before[t] || (p == n && exists j :: 0 <= j < |blocks[n].succs| && blocks[n].succs[j].to == t);
      if p == n && IsEdge(blocks, p, t) {
        var e :| e in blocks[n].succs && e.to == t;
        var j :| 0 <= j < |blocks[n].succs| && blocks[n].succs[j] == e;
      }
      if p == n && exists j :: 0 <= j < |blocks[n].succs| && blocks[n].succs[j].to == t {
        var j :| 0 <= j < |blocks[n].succs| && blocks[n].succs[j].to == t;
        assert blocks[n].succs[j] in blocks[n].succs;
      }
    }
  }

  method CollectPreds(blocks: seq<BasicBlock>) returns (preds: seq<set<int>>)
    requires EdgesValid(blocks)
    ensures PredSets(blocks, preds, |blocks|)
  {
    preds := seq(|blocks|, i => {});
    for b := 0 to |blocks|
      invariant PredSets(blocks, preds, b)
    {
      ghost var before := preds;
      for k := 0 to |blocks[b].succs|
        invariant PredSetsWithin(blocks, before, preds, b, k)
      {
        var e := blocks[b].succs[k];
        assert e in blocks[b].succs;
        preds := preds[e.to := preds[e.to] + {e.from}];
      }
      PredSetsNext(blocks, before, preds, b);
    }
  }

  ghost predicate AscendingPreds(b: BasicBlock) {
    forall j, k :: 0 <= j < k < |b.preds| ==> b.preds[j] < b.preds[k]
  }

  /** preds becomes the reverse of all succs, ascending and without duplicates. */
  method ComputePreds(blocks: seq<BasicBlock>) returns (r: seq<BasicBlock>)
    requires EdgesValid(blocks)
    ensures |r| == |blocks| && forall b :: 0 <= b < |blocks| ==> r[b] == blocks[b].(preds := r[b].preds) && AscendingPreds(r[b])
    ensures EdgesValid(r) && PredsReverse(r)
  {
    var preds := CollectPreds(blocks);
    r := [];
    for b := 0 to |blocks|
      invariant |r| == b
      invariant forall k :: 0 <= k < b ==> r[k] == blocks[k].(preds := r[k].preds) && AscendingPreds(r[k])
      invariant forall t: nat, p: nat {:trigger p in r[t].preds} :: t < b ==> (p in r[t].preds <==> p in preds[t])
    {
      var sorted := Ascending(preds[b]);
      forall k | 0 <= k < |sorted| ensures 0 <= sorted[k] {
        assert sorted[k] in preds[b];
      }
      r := r + [blocks[b].(preds := Nats(sorted))];
    }
    PredsAttached(blocks, preds, r);
  }

  lemma PredsAttached(blocks: seq<BasicBlock>, preds: seq<set<int>>, r: seq<BasicBlock>)
    requires EdgesValid(blocks) && PredSets(blocks, preds, |blocks|) && |r| == |blocks|
    requires forall b :: 0 <= b < |blocks| ==> r[b] == blocks[b].(preds := r[b].preds)
    requires forall t: nat, p: nat {:trigger p in r[t].preds} :: t < |r| ==> (p in r[t].preds <==> p in preds[t])
    ensures EdgesValid(r) && PredsReverse(r)
  {
    forall b: nat, p: nat | b < |r| ensures p in r[b].preds <==> IsEdge(r, p, b) {
      assert p in preds[b] <==> 0 <= p < |blocks| && IsEdge(blocks, p, b);
    }
  }

  function Nats(s: seq<int>): (r: seq<nat>)
    requires forall k :: 0 <= k < |s| ==> 0 <= s[k]
    ensures r == s
  {
    if s == [] then [] else [s[0]] + Nats(s[1..])
  }
}
