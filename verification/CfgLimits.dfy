// Three function bodies, each the decoding of bytes: one on which the checker fails, and two on
// which what the regions are used for comes out differently from what the virtual machine does.
module CfgLimits {
  import opened CfgTypes
  import opened Blocks
  import opened BlockFlow
  import opened Regions
  import opened Exceptions
  import opened Generators
  import opened Invariants
  import opened CheckedCfg
  import opened EnvOps
  import opened Decode
  import opened Programs
  import Guard = TryGuard

  function Catching(offset: nat): Instruction {
    Instruction(offset, 2, OpName.Catch, [0], CatchInstr, [], None)
  }

  function Returning(offset: nat): Instruction {
    Instruction(offset, 2, OpName.Ret, [0], Return, [], None)
  }

  /** A property store: it may raise. */
  function Storing(offset: nat): Instruction {
    Insn(offset, 6, PUT_BY_ID, [1, 2, 0, 0])
  }

  lemma ShapesSpelled(offset: nat)
    ensures Spelled(HBC98, 75, Storing(offset)) && Spelled(HBC98, 118, Returning(offset)) && Spelled(HBC98, 119, Catching(offset))
    ensures Spelled(HBC96, 92, Returning(offset))
  {
    TablesOk();
    Starts([Reg8, Reg8, UInt8, UInt16]);
    Starts([Reg8]);
    PlainIsSpelled(HBC98, 75, Storing(offset));
    PlainIsSpelled(HBC98, 118, Returning(offset));
    PlainIsSpelled(HBC98, 119, Catching(offset));
    PlainIsSpelled(HBC96, 92, Returning(offset));
  }

  lemma NoTargets(insns: seq<Instruction>, size: nat)
    requires forall i :: 0 <= i < |insns| ==> insns[i].targets == []
    ensures TargetsStart(insns, size)
  {
  }

  // ------------------------------------------------- a body that the checker fails

  /** A generator that saves, returns, resumes, returns, and has one more return after that. */
  function DeadTail(): Body {
    Body([Insn(0, 1, StartGenerator, []), Instruction(1, 2, SaveGenerator, [4], CondJump, [5], None), Returning(3), Returning(5), Returning(7)],
         [], 9, map[0 := 0, 1 := 1, 3 := 2, 5 := 3, 7 := 4])
  }

  lemma DeadTailTiles()
    ensures Tiles(DeadTail().insns, DeadTail().size)
  {
    var p := DeadTail();
    forall i {:trigger Adjacent(p.insns, i)} | 0 < i < |p.insns| ensures Adjacent(p.insns, i) {}
  }

  lemma DeadTailInverts()
    ensures Inverts(DeadTail().insns, DeadTail().at)
  {
  }

  lemma DeadTailTargets()
    ensures TargetsStart(DeadTail().insns, DeadTail().size)
  {
    var p := DeadTail();
    assert p.insns[3].offset == 5;
    assert StartsAt(p.insns, 5);
  }

  lemma DeadTailSpelled(i: nat)
    requires i < 5
    ensures Spelled(HBC96, [134, 150, 92, 92, 92][i], DeadTail().insns[i])
  {
    TablesOk();
    Starts([]);
    PlainIsSpelled(HBC96, 134, DeadTail().insns[0]);
    JumpIsSpelled(HBC96, 150, DeadTail().insns[1]);
    ShapesSpelled(3);
    ShapesSpelled(5);
    ShapesSpelled(7);
  }

  lemma DeadTailDecodes()
    ensures IsDecoded(DeadTail())
  {
    TablesOk();
    DeadTailTiles();
    DeadTailInverts();
    DeadTailTargets();
    forall i | 0 <= i < 5 ensures Spelled(HBC96, [134, 150, 92, 92, 92][i], DeadTail().insns[i]) { DeadTailSpelled(i); }
    SpelledIsDecoded(DeadTail(), HBC96, [134, 150, 92, 92, 92]);
  }

  lemma {:induction false} DeadTailStops(w: seq<nat>)
    requires LivePath(DeadTail(), w)
    ensures w[|w| - 1] < 4
    decreases |w|
  {
    if |w| > 1 { DeadTailStops(w[..|w| - 1]); }
  }

  /** The decoder can return a body on which the checker reports CFG-05. */
  lemma DeadTailFails()
    ensures IsDecoded(DeadTail()) && DeadInGenerator(DeadTail(), OpcodeEra, GeneratorFunction)
  {
    var p := DeadTail();
    DeadTailDecodes();
    assert IsSaveSite(p.insns[1]);
    if LiveInsn(p, 4) {
      var w :| LivePath(p, w) && Last(w, 4);
      DeadTailStops(w);
    }
  }

  // --------------------------------------------------- an outer entry listed first

  /** Two nested try ranges over the first store, the outer one first in the table. */
  function OuterFirst(): Body {
    Body([Storing(0), Storing(6), Returning(12), Catching(14), Returning(16), Catching(18), Returning(20)],
         [ExceptionHandler(0, 12, 14), ExceptionHandler(0, 6, 18)], 22, map[0 := 0, 6 := 1, 12 := 2, 14 := 3, 16 := 4, 18 := 5, 20 := 6])
  }

  lemma OuterFirstTiles()
    ensures Tiles(OuterFirst().insns, OuterFirst().size)
  {
    var p := OuterFirst();
    forall i {:trigger Adjacent(p.insns, i)} | 0 < i < |p.insns| ensures Adjacent(p.insns, i) {}
  }

  lemma OuterFirstInverts()
    ensures Inverts(OuterFirst().insns, OuterFirst().at)
  {
  }

  lemma OuterFirstSpelled(i: nat)
    requires i < 7
    ensures Spelled(HBC98, [75, 75, 118, 119, 118, 119, 118][i], OuterFirst().insns[i])
  {
    ShapesSpelled(OuterFirst().insns[i].offset);
  }

  lemma OuterFirstDecodes()
    ensures IsDecoded(OuterFirst())
  {
    TablesOk();
    OuterFirstTiles();
    OuterFirstInverts();
    NoTargets(OuterFirst().insns, 22);
    forall i | 0 <= i < 7 ensures Spelled(HBC98, [75, 75, 118, 119, 118, 119, 118][i], OuterFirst().insns[i]) { OuterFirstSpelled(i); }
    SpelledIsDecoded(OuterFirst(), HBC98, [75, 75, 118, 119, 118, 119, 118]);
  }

  lemma OuterFirstLeader(o: int)
    ensures var p := OuterFirst(); Leader(p.insns, p.handlers, p.size, p.at, o) <==> o in [0, 6, 12, 14, 18]
  {
    var p := OuterFirst();
    if o == 14 || o == 12 { assert LeaderOfHandler(p.handlers[0], p.size, p.at, o); }
    if o == 6 || o == 18 { assert LeaderOfHandler(p.handlers[1], p.size, p.at, o); }
    if i :| 0 <= i < |p.insns| && LeaderFrom(p.insns[i], p.size, o) { assert i == 2 || i == 4; }
    if k :| 0 <= k < |p.handlers| && LeaderOfHandler(p.handlers[k], p.size, p.at, o) { assert k == 0 || k == 1; }
  }

  lemma OuterFirstLayout(l: Layout)
    requires LayoutOf(l, OuterFirst())
    ensures |l.blocks| == 5 && l.leaders == [0, 6, 12, 14, 18] && l.blocks[0].start == 0 && l.blocks[0].end == 6
  {
    var p := OuterFirst();
    forall o ensures Leader(p.insns, p.handlers, p.size, p.at, o) <==> o in [0, 6, 12, 14, 18] { OuterFirstLeader(o); }
    LeadersAre(l, p, [0, 6, 12, 14, 18]);
    BlockIs(l, 0);
  }

  lemma TwoEntries(S: seq<Entry>, b: BasicBlock)
    requires Laminar(S) && TableOf(S, OuterFirst().handlers) && b.start == 0 && b.end == 6
    ensures NestingOrder(S, b) == [1, 0]
  {
    var hs := OuterFirst().handlers;
    assert OuterLe(S[0], S[1]);
    assert S == [Entry(hs[0], 0), Entry(hs[1], 1)];
    assert Covering(S, b, 0) == [];
    assert Covering(S, b, 1) == [0];
    assert Covering(S, b, 2) == [0, 1];
    assert [0, 1][..1] == [0] && [0][..0] == [];
    assert Innermost(S, [0]) == [0];
  }

  lemma FirstIsOuter()
    ensures FirstMatch(OuterFirst().handlers, 0) == Some(0)
  {
  }

  /** The successors of the block list the inner handler first; the machine takes the first
      entry of the table, the outer one. */
  lemma OuterFirstDiffers(l: Layout, S: seq<Entry>, succs: map<BlockId, seq<BlockId>>)
    requires LayoutOf(l, OuterFirst()) && Laminar(S) && SuccsRight(S, l.handlers, l.blocks, l.byOffset, |l.blocks|, succs)
    ensures IsDecoded(OuterFirst()) && 0 in succs && succs[0] == [4, 3] && FirstMatch(l.handlers, 0) == Some(0) && l.byOffset[l.handlers[0].target] == 3
  {
    OuterFirstDecodes();
    OuterFirstLayout(l);
    TwoEntries(S, l.blocks[0]);
    BlockNumber(l, 3);
    BlockNumber(l, 4);
    FirstIsOuter();
    assert SuccsAt(S, l.handlers, l.blocks[0], l.byOffset, Lookup(succs, 0));
  }

  // ------------------------------------------------------ a region without blocks

  /** A try range that ends inside the first instruction, and so covers no block. */
  function EmptyRegion(): Body {
    Body([Storing(0), Storing(6), Returning(12), Catching(14), Returning(16)],
         [ExceptionHandler(0, 1, 14)], 18, map[0 := 0, 6 := 1, 12 := 2, 14 := 3, 16 := 4])
  }

  lemma EmptyRegionTiles()
    ensures Tiles(EmptyRegion().insns, EmptyRegion().size)
  {
    var p := EmptyRegion();
    forall i {:trigger Adjacent(p.insns, i)} | 0 < i < |p.insns| ensures Adjacent(p.insns, i) {}
  }

  lemma EmptyRegionInverts()
    ensures Inverts(EmptyRegion().insns, EmptyRegion().at)
  {
  }

  lemma EmptyRegionSpelled(i: nat)
    requires i < 5
    ensures Spelled(HBC98, [75, 75, 118, 119, 118][i], EmptyRegion().insns[i])
  {
    ShapesSpelled(EmptyRegion().insns[i].offset);
  }

  lemma EmptyRegionDecodes()
    ensures IsDecoded(EmptyRegion())
  {
    TablesOk();
    EmptyRegionTiles();
    EmptyRegionInverts();
    NoTargets(EmptyRegion().insns, 18);
    forall i | 0 <= i < 5 ensures Spelled(HBC98, [75, 75, 118, 119, 118][i], EmptyRegion().insns[i]) { EmptyRegionSpelled(i); }
    SpelledIsDecoded(EmptyRegion(), HBC98, [75, 75, 118, 119, 118]);
  }

  lemma EmptyRegionLeader(o: int)
    ensures var p := EmptyRegion(); Leader(p.insns, p.handlers, p.size, p.at, o) <==> o in [0, 14]
  {
    var p := EmptyRegion();
    if o == 14 { assert LeaderOfHandler(p.handlers[0], p.size, p.at, o); }
    if i :| 0 <= i < |p.insns| && LeaderFrom(p.insns[i], p.size, o) { assert i == 2; }
    if k :| 0 <= k < |p.handlers| && LeaderOfHandler(p.handlers[k], p.size, p.at, o) { assert k == 0; }
  }

  lemma EmptyRegionLayout(l: Layout)
    requires LayoutOf(l, EmptyRegion())
    ensures |l.blocks| == 2 && l.leaders == [0, 14] && l.blocks[0].end == 14 && l.blocks[1].start == 14
    ensures l.blocks[1].instructions != [] && l.blocks[1].instructions[0] == Catching(14)
  {
    var p := EmptyRegion();
    forall o ensures Leader(p.insns, p.handlers, p.size, p.at, o) <==> o in [0, 14] { EmptyRegionLeader(o); }
    LeadersAre(l, p, [0, 14]);
    BlockIs(l, 0);
    BlockIs(l, 1);
  }

  lemma EmptyRegionAccepted(l: Layout)
    requires LayoutOf(l, EmptyRegion())
    ensures Acceptable(l.handlers, l.blocks, l.byOffset, l.size)
  {
    EmptyRegionLayout(l);
    BlockNumber(l, 0);
    BlockNumber(l, 1);
  }

  lemma NoBlocks(l: Layout, S: seq<Entry>, regions: seq<ExceptionRegion>)
    requires LayoutOf(l, EmptyRegion()) && RegionsRight(S, l.blocks, l.byOffset, l.size, regions) && TableOf(S, l.handlers)
    ensures |regions| == 1 && regions[0].bodyBlocks == {}
  {
    EmptyRegionLayout(l);
    assert S[0].handler == l.handlers[0];
    assert RegionStarted(S, l.blocks, l.byOffset, l.size, 0, regions[0]);
    assert !Covers(l.handlers[0], l.blocks[0]) && !Covers(l.handlers[0], l.blocks[1]);
    forall b: nat ensures b !in regions[0].bodyBlocks {}
  }

  /** The whole function as one state switch inside the try of its one region: the tree of the
      structurer's dispatch mode, with one arm, as only the first block is reachable. */
  function Dispatched(): Guard.Node {
    Guard.Plain(None, [Guard.Plain(None, []), Guard.Plain(None, [Around()])])
  }

  function Around(): Guard.Node {
    Guard.TryNode(-1, 0, true, Guard.Plain(Some(-1), [Guard.Plain(Some(0), []), Guard.Plain(None, [])]),
                  Guard.Plain(None, [Guard.Plain(None, []), Guard.Plain(None, [])]))
  }

  lemma FirstIsInBody()
    ensures Guard.OwnedIn(Guard.Nodes(Around().body), 0)
  {
    var leaf := Guard.Plain(Some(0), []);
    var arms := [leaf, Guard.Plain(None, [])];
    assert Around().body == Guard.Plain(Some(-1), arms);
    assert leaf in Guard.Nodes(leaf);
    assert arms[0] == leaf;
    assert Guard.Nodes(leaf) <= Guard.NodesOfAll(arms) <= Guard.Nodes(Around().body);
    assert 0 in Guard.OwnBlocks(leaf);
  }

  lemma AroundIsInTree()
    ensures Around() in Guard.Nodes(Dispatched())
  {
    var inner, loop := [Around()], Guard.Plain(None, [Around()]);
    var all := [Guard.Plain(None, []), loop];
    assert Around() in Guard.Nodes(Around());
    assert inner[0] == Around() && Guard.Nodes(Around()) <= Guard.NodesOfAll(inner) <= Guard.Nodes(loop);
    assert all[1..] == [loop] && [loop][0] == loop;
    assert Guard.Nodes(loop) <= Guard.NodesOfAll([loop]) <= Guard.NodesOfAll(all) <= Guard.Nodes(Dispatched());
  }

  /** The table is accepted; the handler runs for an exception at 6, in the first block, though
      no entry of the table is for it. */
  lemma EmptyRegionCatches(l: Layout, S: seq<Entry>, regions: seq<ExceptionRegion>, guard: Guard.GuardMap)
    requires LayoutOf(l, EmptyRegion()) && RegionsRight(S, l.blocks, l.byOffset, l.size, regions) && TableOf(S, l.handlers)
    requires Guard.Planned(Dispatched(), regions, {0, 1}, guard)
    ensures IsDecoded(EmptyRegion()) && Acceptable(l.handlers, l.blocks, l.byOffset, l.size)
    ensures Around() in Guard.Nodes(Dispatched()) && Guard.OwnedIn(Guard.Nodes(Around().body), 0)
    ensures 0 !in regions[0].bodyBlocks && FirstMatch(l.handlers, 6) == None && !Guard.Rethrows(guard, 0, 0)
  {
    EmptyRegionDecodes();
    EmptyRegionAccepted(l);
    NoBlocks(l, S, regions);
    FirstIsInBody();
    AroundIsInTree();
    assert forall n :: !Guard.Guards(n, regions, {0, 1}, 0);
  }
}
