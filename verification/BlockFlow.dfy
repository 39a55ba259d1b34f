// What the built blocks mean: they partition the function and their edges are
// exactly the steps the instructions can take.
module BlockFlow {
  import opened CfgTypes
  import opened Blocks

  /** The machine's view: instruction i can be followed by instruction j. A SaveGenerator
      records its target for later and just falls through. */
  ghost predicate CanStep(insns: seq<Instruction>, i: nat, j: nat) {
    i < |insns| && j < |insns| &&
    var a := insns[i];
    if a.IsSaveGenerator() then j == i + 1
    else
      match a.kind
      case Jump => a.targets != [] && insns[j].offset == a.targets[0]
      case CondJump => (a.targets != [] && insns[j].offset == a.targets[0]) || j == i + 1
      case Switch =>
        a.switchTable.Some? && (insns[j].offset == a.switchTable.value.defaultTarget
                                || exists c :: c in a.switchTable.value.cases && c.target == insns[j].offset)
      case Return => false
      case Throw => false
      case Unreachable => false
      case _ => j == i + 1
  }

  ghost predicate LastOf(b: BasicBlock, x: Instruction) {
    b.instructions != [] && b.instructions[|b.instructions| - 1] == x
  }

  ghost predicate FirstOf(b: BasicBlock, x: Instruction) {
    b.instructions != [] && b.instructions[0] == x
  }

  /** x is directly followed by y inside the block. */
  ghost predicate Inside(b: BasicBlock, x: Instruction, y: Instruction) {
    exists k :: 0 <= k < |b.instructions| - 1 && b.instructions[k] == x && b.instructions[k + 1] == y
  }

  /** The blocks' view of the same thing. */
  ghost predicate Flows(blocks: seq<BasicBlock>, x: Instruction, y: Instruction) {
    || (exists b :: 0 <= b < |blocks| && Inside(blocks[b], x, y))
    || (exists a: nat, b: nat :: a < |blocks| && b < |blocks| && IsEdge(blocks, a, b) && LastOf(blocks[a], x) && FirstOf(blocks[b], y))
  }

  /** Everything the builder was given and returned. */
  datatype Layout = Layout(insns: seq<Instruction>, handlers: seq<ExceptionHandler>, size: nat, at: map<int, nat>, leaders: seq<int>,
                           blocks: seq<BasicBlock>, byOffset: map<int, BlockId>, cut: seq<nat>)

  ghost predicate Built(l: Layout) {
    && Decoded(l.insns, l.size, l.at) && LeadersOf(l.insns, l.handlers, l.size, l.at, l.leaders)
    && BuiltRight(l.insns, l.handlers, l.size, l.leaders, l.blocks, l.byOffset, l.cut)
  }

  lemma SwitchTargets(insn: Instruction, at: map<int, nat>, o: int)
    requires TargetsOk(insn, at) && insn.kind == Switch
    ensures o in insn.targets <==> o == insn.switchTable.value.defaultTarget || exists c :: c in insn.switchTable.value.cases && c.target == o
  {
    var cases := insn.switchTable.value.cases;
    assert forall k :: 0 <= k < |cases| ==> insn.targets[k + 1] == cases[k].target;
    if o in insn.targets {
      var k :| 0 <= k < |insn.targets| && insn.targets[k] == o;
      if k > 0 { assert cases[k - 1] in cases; }
    }
    if c :| c in cases && c.target == o {
      var k :| 0 <= k < |cases| && cases[k] == c;
      assert insn.targets[k + 1] in insn.targets;
    }
    assert insn.targets[0] in insn.targets;
  }

  lemma NextOffset(insns: seq<Instruction>, size: nat, at: map<int, nat>, i: nat, j: nat)
    requires Decoded(insns, size, at) && i < |insns| && j < |insns|
    ensures insns[j].offset == insns[i].End() < size <==> j == i + 1
  {
    EndsInside(insns, size, i);
    if i + 1 < |insns| { assert at[insns[i + 1].offset] == i + 1 && at[insns[j].offset] == j; }
  }

  lemma ContinuesIffStep(insns: seq<Instruction>, size: nat, at: map<int, nat>, i: nat, j: nat)
    requires Decoded(insns, size, at) && i < |insns| && j < |insns|
    ensures ContinuesAt(insns[i], size, insns[j].offset) <==> CanStep(insns, i, j)
  {
    var a := insns[i];
    assert TargetsOk(a, at);
    NextOffset(insns, size, at, i, j);
    if a.kind == Switch { SwitchTargets(a, at, insns[j].offset); }
  }

  lemma BlockAt(insns: seq<Instruction>, leaders: seq<int>, cut: seq<nat>, i: nat) returns (k: nat)
    requires |cut| == |leaders| + 1 && cut[|leaders|] == |insns| && cut[0] == 0 && i < |insns|
    requires forall j, k :: 0 <= j < k < |cut| ==> cut[j] < cut[k]
    ensures k < |leaders| && cut[k] <= i < cut[k + 1]
  {
    k := 0;
    while cut[k + 1] <= i
      invariant k < |leaders| && cut[k] <= i
      decreases |leaders| - k
    {
      k := k + 1;
    }
  }

  lemma OffsetUnique(insns: seq<Instruction>, at: map<int, nat>, x: nat, y: nat)
    requires Inverts(insns, at) && x < |insns| && y < |insns| && insns[x].offset == insns[y].offset
    ensures x == y
  {
    assert at[insns[x].offset] == x && at[insns[y].offset] == y;
  }

  /** The block that a leading instruction starts. */
  lemma LedBlock(l: Layout, j: nat) returns (b: nat)
    requires Built(l) && j < |l.insns| && Leader(l.insns, l.handlers, l.size, l.at, l.insns[j].offset)
    ensures b < |l.leaders| && l.leaders[b] == l.insns[j].offset && l.cut[b] == j
  {
    assert l.insns[j].offset in l.leaders;
    b :| 0 <= b < |l.leaders| && l.leaders[b] == l.insns[j].offset;
    OffsetUnique(l.insns, l.at, l.cut[b], j);
  }

  lemma BlockBody(l: Layout, k: nat)
    requires Built(l) && l.insns != [] && k < |l.leaders|
    ensures l.cut[k] < l.cut[k + 1] <= |l.insns| && l.blocks[k].instructions == l.insns[l.cut[k]..l.cut[k + 1]]
    ensures EdgesRight(k, l.insns[l.cut[k + 1] - 1], l.size, l.leaders, l.blocks[k].succs)
    ensures l.blocks[k].id == k && l.blocks[k].start == l.leaders[k] == l.insns[l.cut[k]].offset && l.blocks[k].end == l.insns[l.cut[k + 1] - 1].End()
    ensures FirstOf(l.blocks[k], l.insns[l.cut[k]]) && LastOf(l.blocks[k], l.insns[l.cut[k + 1] - 1])
  {
    assert BlockRight(l.insns, l.size, l.leaders, l.byOffset, l.cut, l.handlers, k, l.blocks[k]);
  }

  /** An instruction that is not the last of its block only falls through. */
  lemma MiddleFallsThrough(l: Layout, i: nat, k: nat)
    requires Built(l) && l.insns != [] && k < |l.leaders| && l.cut[k] <= i && i + 1 < l.cut[k + 1]
    ensures i < |l.insns| && l.insns[i].FallsThrough() && (l.insns[i].kind == CondJump ==> l.insns[i].IsSaveGenerator())
  {
    EndsInside(l.insns, l.size, i);
    if EndsBlock(l.insns[i]) {
      assert LeaderFrom(l.insns[i], l.size, l.insns[i + 1].offset);
      var b := LedBlock(l, i + 1);
    }
  }

  /** What the last instruction of a block steps to starts a block. */
  lemma StepFromLast(l: Layout, k: nat, j: nat)
    requires Built(l) && l.insns != [] && k < |l.leaders| && CanStep(l.insns, l.cut[k + 1] - 1, j)
    ensures Leader(l.insns, l.handlers, l.size, l.at, l.insns[j].offset)
  {
    var i := l.cut[k + 1] - 1;
    ContinuesIffStep(l.insns, l.size, l.at, i, j);
    if !(l.insns[j].offset in l.insns[i].targets) {
      NextOffset(l.insns, l.size, l.at, i, j);
      assert l.leaders[k + 1] in l.leaders;
    } else {
      assert LeaderFrom(l.insns[i], l.size, l.insns[j].offset);
    }
  }

  /** A step inside a block. */
  lemma StepInside(l: Layout, i: nat, j: nat, k: nat)
    requires Built(l) && CanStep(l.insns, i, j) && k < |l.leaders| && l.cut[k] <= i && i + 1 < l.cut[k + 1]
    ensures Flows(l.blocks, l.insns[i], l.insns[j])
  {
    BlockBody(l, k);
    MiddleFallsThrough(l, i, k);
    var x := i - l.cut[k];
    assert l.blocks[k].instructions[x] == l.insns[i] && l.blocks[k].instructions[x + 1] == l.insns[j];
  }

  /** A step along an edge. */
  lemma StepAcross(l: Layout, k: nat, j: nat)
    requires Built(l) && l.insns != [] && k < |l.leaders| && CanStep(l.insns, l.cut[k + 1] - 1, j)
    ensures Flows(l.blocks, l.insns[l.cut[k + 1] - 1], l.insns[j])
  {
    BlockBody(l, k);
    StepFromLast(l, k, j);
    var b := LedBlock(l, j);
    BlockBody(l, b);
    ContinuesIffStep(l.insns, l.size, l.at, l.cut[k + 1] - 1, j);
    assert IsEdge(l.blocks, k, b);
  }

  /** A step of the instructions is a step of the blocks. */
  lemma StepFlows(l: Layout, i: nat, j: nat)
    requires Built(l) && CanStep(l.insns, i, j)
    ensures Flows(l.blocks, l.insns[i], l.insns[j])
  {
    var k := BlockHolding(l, i);
    if i + 1 < l.cut[k + 1] { StepInside(l, i, j, k); } else { StepAcross(l, k, j); }
  }

  lemma BlockHolding(l: Layout, i: nat) returns (k: nat)
    requires Built(l) && i < |l.insns|
    ensures k < |l.leaders| && |l.cut| == |l.leaders| + 1 && l.cut[k] <= i < l.cut[k + 1]
  {
    k := BlockAt(l.insns, l.leaders, l.cut, i);
  }

  lemma SameInstruction(l: Layout, x: nat, y: nat)
    requires Built(l) && x < |l.insns| && y < |l.insns| && l.insns[x] == l.insns[y]
    ensures x == y
  {
    OffsetUnique(l.insns, l.at, x, y);
  }

  lemma InsideSteps(l: Layout, i: nat, j: nat, k: nat)
    requires Built(l) && i < |l.insns| && j < |l.insns| && k < |l.blocks| && Inside(l.blocks[k], l.insns[i], l.insns[j])
    ensures CanStep(l.insns, i, j)
  {
    BlockBody(l, k);
    var body := l.blocks[k].instructions;
    var x :| 0 <= x < |body| - 1 && body[x] == l.insns[i] && body[x + 1] == l.insns[j];
    SameInstruction(l, l.cut[k] + x, i);
    SameInstruction(l, l.cut[k] + x + 1, j);
    MiddleFallsThrough(l, i, k);
  }

  /** The last instruction of a block is the one its slice ends with. */
  lemma LastIsEnd(l: Layout, i: nat, a: nat)
    requires Built(l) && i < |l.insns| && a < |l.blocks| && LastOf(l.blocks[a], l.insns[i])
    ensures l.cut[a + 1] == i + 1
  {
    BlockBody(l, a);
    SameInstruction(l, l.cut[a + 1] - 1, i);
  }

  lemma FirstIsCut(l: Layout, j: nat, b: nat)
    requires Built(l) && j < |l.insns| && b < |l.blocks| && FirstOf(l.blocks[b], l.insns[j])
    ensures b < |l.leaders| && l.cut[b] == j && l.leaders[b] == l.insns[j].offset
  {
    BlockBody(l, b);
    SameInstruction(l, l.cut[b], j);
  }

  /** An edge continues at the start of its target. */
  lemma EdgeGoesOn(l: Layout, i: nat, a: nat, b: nat)
    requires Built(l) && i < |l.insns| && a < |l.leaders| && b < |l.leaders| && l.cut[a + 1] == i + 1 && IsEdge(l.blocks, a, b)
    ensures ContinuesAt(l.insns[i], l.size, l.leaders[b])
  {
    BlockBody(l, a);
  }

  lemma EdgeSteps(l: Layout, i: nat, j: nat, a: nat, b: nat)
    requires Built(l) && i < |l.insns| && j < |l.insns| && a < |l.blocks| && b < |l.blocks|
    requires IsEdge(l.blocks, a, b) && LastOf(l.blocks[a], l.insns[i]) && FirstOf(l.blocks[b], l.insns[j])
    ensures CanStep(l.insns, i, j)
  {
    LastIsEnd(l, i, a);
    FirstIsCut(l, j, b);
    EdgeGoesOn(l, i, a, b);
    ContinuesIffStep(l.insns, l.size, l.at, i, j);
  }

  /** A step of the blocks is a step of the instructions. */
  lemma FlowSteps(l: Layout, i: nat, j: nat)
    requires Built(l) && i < |l.insns| && j < |l.insns| && Flows(l.blocks, l.insns[i], l.insns[j])
    ensures CanStep(l.insns, i, j)
  {
    if k :| 0 <= k < |l.blocks| && Inside(l.blocks[k], l.insns[i], l.insns[j]) {
      InsideSteps(l, i, j, k);
    } else {
      var a: nat, b: nat :| a < |l.blocks| && b < |l.blocks| && IsEdge(l.blocks, a, b) && LastOf(l.blocks[a], l.insns[i]) && FirstOf(l.blocks[b], l.insns[j]);
      EdgeSteps(l, i, j, a, b);
    }
  }

  /** Block building preserves control flow, both ways. */
  lemma FlowPreserved(l: Layout, i: nat, j: nat)
    requires Built(l) && i < |l.insns| && j < |l.insns|
    ensures CanStep(l.insns, i, j) <==> Flows(l.blocks, l.insns[i], l.insns[j])
  {
    if CanStep(l.insns, i, j) { StepFlows(l, i, j); }
    if Flows(l.blocks, l.insns[i], l.insns[j]) { FlowSteps(l, i, j); }
  }

  // ------------------------------------------------------- the partition

  /** The blocks tile [0, size) in id order. */
  ghost predicate Partition(blocks: seq<BasicBlock>, size: nat) {
    && |blocks| > 0 && blocks[0].start == 0 && blocks[|blocks| - 1].end == size
    && forall k: nat {:trigger BlockEnds(blocks, size, k)} :: k < |blocks| ==> BlockEnds(blocks, size, k)
  }

  ghost predicate BlockEnds(blocks: seq<BasicBlock>, size: nat, k: nat)
    requires k < |blocks|
  {
    && blocks[k].id == k && 0 <= blocks[k].start && (blocks[k].start < blocks[k].end || (size == 0 && blocks[k].start == blocks[k].end))
    && (k + 1 < |blocks| ==> blocks[k].end == blocks[k + 1].start)
  }

  /** Ids follow offsets. */
  lemma {:induction false} BlocksAscend(blocks: seq<BasicBlock>, size: nat, a: nat, b: nat)
    requires Partition(blocks, size) && a <= b < |blocks|
    ensures blocks[a].start <= blocks[b].start && (a < b ==> blocks[a].end <= blocks[b].start) && blocks[a].end <= blocks[b].end
    decreases b
  {
    if a < b {
      assert BlockEnds(blocks, size, b) && BlockEnds(blocks, size, b - 1);
      BlocksAscend(blocks, size, a, b - 1);
    }
  }

  lemma BlockNonempty(l: Layout, k: nat)
    requires Built(l) && l.insns != [] && k < |l.blocks|
    ensures l.blocks[k].id == k && 0 <= l.blocks[k].start < l.blocks[k].end
  {
    BlockBody(l, k);
    var first, last := l.cut[k], l.cut[k + 1] - 1;
    if first < last { OffsetsIncrease(l.insns, l.size, first, last); }
  }

  lemma BlockSpan(l: Layout, k: nat)
    requires Built(l) && l.insns != [] && k < |l.blocks|
    ensures |l.cut| == |l.blocks| + 1 && l.cut[0] == 0 && l.cut[|l.blocks|] == |l.insns|
    ensures l.cut[k] < l.cut[k + 1] <= |l.insns|
    ensures l.blocks[k].start == l.insns[l.cut[k]].offset && l.blocks[k].end == l.insns[l.cut[k + 1] - 1].End()
  {
    BlockBody(l, k);
  }

  lemma BlockMeetsNext(l: Layout, k: nat)
    requires Built(l) && l.insns != [] && k + 1 < |l.blocks|
    ensures l.blocks[k].end == l.blocks[k + 1].start
  {
    BlockSpan(l, k);
    BlockSpan(l, k + 1);
    EndsInside(l.insns, l.size, l.cut[k + 1] - 1);
  }

  lemma BlockEndsRight(l: Layout, k: nat)
    requires Built(l) && l.insns != [] && k < |l.blocks|
    ensures BlockEnds(l.blocks, l.size, k)
  {
    BlockNonempty(l, k);
    if k + 1 < |l.blocks| { BlockMeetsNext(l, k); }
  }

  lemma FirstAndLast(l: Layout)
    requires Built(l) && l.insns != []
    ensures |l.blocks| > 0 && l.blocks[0].start == 0 && l.blocks[|l.blocks| - 1].end == l.size
  {
    BlockSpan(l, 0);
    BlockSpan(l, |l.blocks| - 1);
    EndsInside(l.insns, l.size, 0);
    EndsInside(l.insns, l.size, |l.insns| - 1);
  }

  lemma BuiltPartitions(l: Layout)
    requires Built(l)
    ensures Partition(l.blocks, l.size)
  {
    if l.insns != [] {
      FirstAndLast(l);
      forall k: nat | k < |l.blocks| ensures BlockEnds(l.blocks, l.size, k) { BlockEndsRight(l, k); }
    }
  }

  lemma BuiltEdgesValid(l: Layout)
    requires Built(l)
    ensures EdgesValid(l.blocks)
  {
    forall b: nat, e | b < |l.blocks| && e in l.blocks[b].succs ensures e.from == b && e.to < |l.blocks| {
      if l.insns != [] { BlockBody(l, b); }
    }
  }
}
