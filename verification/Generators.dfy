// Suspend points and the synthetic resume dispatcher (src/cfg/generators.ts:167-236).
module Generators {
  import opened CfgTypes
  import opened Blocks

  datatype SuspendPoint = SuspendPoint(state: nat, saveOffset: nat, resumeBlock: BlockId, canonical: bool, retRegister: Option<int>)

  /** A SaveGenerator with a target to resume at. */
  predicate IsSaveSite(insn: Instruction) {
    insn.IsSaveGenerator() && insn.targets != []
  }

  /** The indices of the save sites among the first n instructions, ascending. */
  function SaveSites(insns: seq<Instruction>, n: nat): (r: seq<nat>)
    requires n <= |insns|
    ensures forall k :: 0 <= k < |r| ==> r[k] < n && IsSaveSite(insns[r[k]])
    ensures forall j, k :: 0 <= j < k < |r| ==> r[j] < r[k]
    ensures forall i: nat :: i < n && IsSaveSite(insns[i]) ==> i in r
  {
    if n == 0 then []
    else if IsSaveSite(insns[n - 1]) then SaveSites(insns, n - 1) + [n - 1]
    else SaveSites(insns, n - 1)
  }

  /** The suspend point of the SaveGenerator at index i, as the k-th of the function. */
  function PointAt(insns: seq<Instruction>, byOffset: map<int, BlockId>, i: nat, k: nat): SuspendPoint
    requires i < |insns| && insns[i].targets != [] && insns[i].targets[0] in byOffset
  {
    var canonical := i + 1 < |insns| && insns[i + 1].name == Ret;
    SuspendPoint(k + 1, insns[i].offset, byOffset[insns[i].targets[0]], canonical,
                 if canonical && insns[i + 1].operands != [] then Some(insns[i + 1].operands[0]) else None)
  }

  /** Every save among the first n instructions resumes at a block start. */
  ghost predicate TargetsAreBlocks(insns: seq<Instruction>, byOffset: map<int, BlockId>, n: nat)
    requires n <= |insns|
  {
    forall i {:trigger IsSaveSite(insns[i])} :: 0 <= i < n && IsSaveSite(insns[i]) ==> insns[i].targets[0] in byOffset
  }

  /** The k-th save, at index i: its state, where it resumes, and the return it is followed by. */
  ghost predicate PointRight(insns: seq<Instruction>, byOffset: map<int, BlockId>, i: nat, k: nat, p: SuspendPoint)
    requires i < |insns| && insns[i].targets != [] && insns[i].targets[0] in byOffset
  {
    && p.state == k + 1 && p.saveOffset == insns[i].offset && p.resumeBlock == byOffset[insns[i].targets[0]]
    && (p.canonical <==> i + 1 < |insns| && insns[i + 1].name == Ret)
    && if p.canonical && insns[i + 1].operands != [] then p.retRegister == Some(insns[i + 1].operands[0]) else p.retRegister == None
  }

  ghost predicate PointsRight(insns: seq<Instruction>, byOffset: map<int, BlockId>, n: nat, points: seq<SuspendPoint>)
    requires n <= |insns| && TargetsAreBlocks(insns, byOffset, n)
  {
    && |points| == |SaveSites(insns, n)|
    && forall k :: 0 <= k < |points| ==> PointRight(insns, byOffset, SaveSites(insns, n)[k], k, points[k])
  }

  /** None is E_JUMP_MISALIGNED. The instructions come in offset order, so the sort and
      renumbering at the end of the source's loop change nothing. */
  method FindSuspendPoints(insns: seq<Instruction>, byOffset: map<int, BlockId>) returns (r: Option<seq<SuspendPoint>>)
    ensures r.Some? <==> TargetsAreBlocks(insns, byOffset, |insns|)
    ensures r.Some? ==> PointsRight(insns, byOffset, |insns|, r.value)
  {
    var out: seq<SuspendPoint> := [];
    for i := 0 to |insns|
      invariant TargetsAreBlocks(insns, byOffset, i) && PointsRight(insns, byOffset, i, out)
    {
      var insn := insns[i];
      if !insn.IsSaveGenerator() || insn.targets == [] { continue; }
      assert IsSaveSite(insns[i]);
      if insn.targets[0] !in byOffset { return None; }
      out := out + [PointAt(insns, byOffset, i, |out|)];
    }
    r := Some(out);
  }

  /** The saves come in ascending offset order, so the states count up with the offsets. */
  lemma PointsAscend(insns: seq<Instruction>, size: nat, byOffset: map<int, BlockId>, points: seq<SuspendPoint>, j: nat, k: nat)
    requires Tiles(insns, size) && TargetsAreBlocks(insns, byOffset, |insns|) && PointsRight(insns, byOffset, |insns|, points) && j < k < |points|
    ensures points[j].saveOffset < points[k].saveOffset && points[j].state < points[k].state
  {
    var s := SaveSites(insns, |insns|);
    OffsetsIncrease(insns, size, s[j], s[k]);
  }

  function DispatchCases(points: seq<SuspendPoint>): (r: seq<SwitchCase>)
    ensures |r| == |points| && forall k :: 0 <= k < |r| ==> r[k] == SwitchCase(points[k].state, -1)
  {
    if points == [] then [] else DispatchCases(points[..|points| - 1]) + [SwitchCase(points[|points| - 1].state, -1)]
  }

  function DispatchEdges(id: BlockId, points: seq<SuspendPoint>): (r: seq<Edge>)
    ensures |r| == |points| && forall k :: 0 <= k < |r| ==> r[k] == Edge(id, points[k].resumeBlock, SwitchCaseEdge, Some(points[k].state), None)
  {
    if points == [] then []
    else DispatchEdges(id, points[..|points| - 1]) + [Edge(id, points[|points| - 1].resumeBlock, SwitchCaseEdge, Some(points[|points| - 1].state), None)]
  }

  /** The synthetic block: case 0 is the real entry, case k the k-th suspend point. */
  function Dispatcher(id: BlockId, realEntry: BlockId, points: seq<SuspendPoint>): BasicBlock {
    var table := SwitchTable(UintSwitch, -1, 0, -1, 0, |points|, [SwitchCase(0, -1)] + DispatchCases(points));
    var succs := [Edge(id, realEntry, SwitchCaseEdge, Some(0), None)] + DispatchEdges(id, points) + [Edge(id, realEntry, SwitchDefaultEdge, None, None)];
    BasicBlock(id, -1, -1, NO_INSTRUCTIONS, SwitchTerm(table, true), succs, [], false, None)
  }

  /** The dispatcher's edges: the real entry and every resume block, nothing else. */
  lemma DispatcherEdges(id: BlockId, realEntry: BlockId, points: seq<SuspendPoint>)
    ensures var d := Dispatcher(id, realEntry, points);
            && |d.succs| == |d.terminator.table.cases| + 1 == |points| + 2
            && (forall e :: e in d.succs ==> e.from == id && (e.to == realEntry || exists k :: 0 <= k < |points| && e.to == points[k].resumeBlock))
            && (exists e :: e in d.succs && e.to == realEntry)
            && (forall k :: 0 <= k < |points| ==> exists e :: e in d.succs && e.to == points[k].resumeBlock)
  {
    var d := Dispatcher(id, realEntry, points);
    var es := DispatchEdges(id, points);
    assert d.succs[0] in d.succs;
    forall k | 0 <= k < |points| ensures exists e :: e in d.succs && e.to == points[k].resumeBlock {
      assert d.succs[k + 1] == es[k];
      assert d.succs[k + 1] in d.succs;
    }
    forall e | e in d.succs ensures e.from == id && (e.to == realEntry || exists k :: 0 <= k < |points| && e.to == points[k].resumeBlock) {
      if e in es {
        var k :| 0 <= k < |es| && es[k] == e;
        assert e.to == points[k].resumeBlock;
      }
    }
  }

  /** The dispatcher as a switch on the generator's state: case 0 to the real entry, case k to the
      k-th suspend point, and anything else to the real entry. It owns no bytes. */
  ghost predicate DispatcherRight(d: BasicBlock, id: BlockId, realEntry: BlockId, points: seq<SuspendPoint>) {
    && d.id == id && d.start == -1 && d.end == -1 && d.instructions == NO_INSTRUCTIONS && !d.isHandlerEntry && d.catchRegister == None
    && d.terminator.SwitchTerm? && d.terminator.synthetic
    && d.terminator.table.min == 0 && d.terminator.table.max == |points| && |d.terminator.table.cases| == |points| + 1 && |d.succs| == |points| + 2
    && CasesCount(d.terminator.table.cases) && StatesGo(d.succs, id, realEntry, points)
  }

  ghost predicate CasesCount(cases: seq<SwitchCase>) {
    forall k {:trigger cases[k]} :: 0 <= k < |cases| ==> cases[k].value == k
  }

  ghost predicate StatesGo(succs: seq<Edge>, id: BlockId, realEntry: BlockId, points: seq<SuspendPoint>)
    requires |succs| == |points| + 2
  {
    && (forall k {:trigger succs[k]} :: 0 <= k <= |points| ==>
          succs[k] == Edge(id, if k == 0 then realEntry else points[k - 1].resumeBlock, SwitchCaseEdge, Some(k), None))
    && succs[|points| + 1] == Edge(id, realEntry, SwitchDefaultEdge, None, None)
  }

  lemma EdgesGo(id: BlockId, realEntry: BlockId, points: seq<SuspendPoint>, succs: seq<Edge>)
    requires CountStates(points)
    requires succs == [Edge(id, realEntry, SwitchCaseEdge, Some(0), None)] + DispatchEdges(id, points) + [Edge(id, realEntry, SwitchDefaultEdge, None, None)]
    ensures |succs| == |points| + 2 && StatesGo(succs, id, realEntry, points)
  {
    var es := DispatchEdges(id, points);
    forall k | 0 <= k <= |points|
      ensures succs[k] == Edge(id, if k == 0 then realEntry else points[k - 1].resumeBlock, SwitchCaseEdge, Some(k), None)
    {
      if k > 0 {
        assert succs[k] == es[k - 1];
        assert points[k - 1].state == k;
      }
    }
  }

  lemma CasesGo(points: seq<SuspendPoint>)
    requires CountStates(points)
    ensures CasesCount([SwitchCase(0, -1)] + DispatchCases(points))
  {
    var cases := [SwitchCase(0, -1)] + DispatchCases(points);
    forall k | 0 <= k < |cases| ensures cases[k].value == k {
      if k > 0 { assert points[k - 1].state == k; }
    }
  }

  lemma DispatcherIsRight(id: BlockId, realEntry: BlockId, points: seq<SuspendPoint>)
    requires CountStates(points)
    ensures DispatcherRight(Dispatcher(id, realEntry, points), id, realEntry, points)
  {
    EdgesGo(id, realEntry, points, Dispatcher(id, realEntry, points).succs);
    CasesGo(points);
  }

  /** States count from one, in order. */
  ghost predicate CountStates(points: seq<SuspendPoint>) {
    forall k {:trigger points[k]} :: 0 <= k < |points| ==> points[k].state == k + 1
  }

  /** The dispatcher sends state 0 to the real entry and state k to the k-th suspend point. */
  ghost predicate SendsStates(d: BasicBlock, realEntry: BlockId, points: seq<SuspendPoint>) {
    forall e {:trigger e in d.succs} :: e in d.succs && e.caseValue.Some? ==>
      if e.caseValue == Some(0) then e.to == realEntry else 1 <= e.caseValue.value <= |points| && e.to == points[e.caseValue.value - 1].resumeBlock
  }

  lemma DispatcherSends(id: BlockId, realEntry: BlockId, points: seq<SuspendPoint>)
    requires CountStates(points)
    ensures SendsStates(Dispatcher(id, realEntry, points), realEntry, points)
  {
    var d, es := Dispatcher(id, realEntry, points), DispatchEdges(id, points);
    var first, last := Edge(id, realEntry, SwitchCaseEdge, Some(0), None), Edge(id, realEntry, SwitchDefaultEdge, None, None);
    assert d.succs == [first] + es + [last];
    forall e | e in d.succs && e.caseValue.Some?
      ensures if e.caseValue == Some(0) then e.to == realEntry else 1 <= e.caseValue.value <= |points| && e.to == points[e.caseValue.value - 1].resumeBlock
    {
      if e != first {
        assert e in es;
        var k :| 0 <= k < |es| && es[k] == e;
        assert points[k].state == k + 1;
      }
    }
  }

  /** The appended graph: every block and edge is as it was, and one block is added that owns no
      bytes. Its edges go to the real entry and the resume blocks, to nothing else, and by
      generator state they go where that state left off. */
  lemma DispatchExtendsGraph(blocks: seq<BasicBlock>, realEntry: BlockId, points: seq<SuspendPoint>, r: seq<BasicBlock>)
    requires r == blocks + [Dispatcher(|blocks|, realEntry, points)] && CountStates(points)
    ensures r[..|blocks|] == blocks
    ensures forall a: nat, b: nat {:trigger IsEdge(r, a, b)} :: a < |blocks| ==> (IsEdge(r, a, b) <==> IsEdge(blocks, a, b))
    ensures forall b: nat {:trigger IsEdge(r, |blocks|, b)} ::
              IsEdge(r, |blocks|, b) <==> b == realEntry || exists k :: 0 <= k < |points| && points[k].resumeBlock == b
    ensures SendsStates(r[|blocks|], realEntry, points) && DispatcherRight(r[|blocks|], |blocks|, realEntry, points)
    ensures EdgesValid(blocks) && realEntry < |blocks| && (forall k :: 0 <= k < |points| ==> points[k].resumeBlock < |blocks|) ==> EdgesValid(r)
  {
    DispatcherEdges(|blocks|, realEntry, points);
    DispatcherSends(|blocks|, realEntry, points);
    DispatcherIsRight(|blocks|, realEntry, points);
    forall a: nat, b: nat | a < |blocks| ensures IsEdge(r, a, b) <==> IsEdge(blocks, a, b) { assert r[a] == blocks[a]; }
  }

  method AddResumeDispatch(blocks: seq<BasicBlock>, realEntry: BlockId, points: seq<SuspendPoint>) returns (r: seq<BasicBlock>, id: BlockId)
    ensures id == |blocks| && r == blocks + [Dispatcher(id, realEntry, points)]
  {
    id := |blocks|;
    r := blocks + [Dispatcher(id, realEntry, points)];
  }
}
