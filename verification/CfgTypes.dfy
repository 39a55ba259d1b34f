// The CFG data model: src/cfg/types.ts and the parts of src/disasm/decode.ts
// and src/disasm/switchtable.ts it is built from.
module CfgTypes {

  datatype Option<+T> = None | Some(value: T)

  // ------------------------------------------------------------ instructions

  datatype SwitchKind = UintSwitch | StringSwitch

  datatype SwitchCase = SwitchCase(value: int, target: int)

  datatype SwitchTable = SwitchTable(kind: SwitchKind, tableOffset: int, byteLength: int,
                                     defaultTarget: int, min: int, max: int, cases: seq<SwitchCase>)

  datatype InstrKind = Normal | Jump | CondJump | Switch | Return | Throw | CatchInstr | Unreachable

  /** The opcode names block building and region carving look at. */
  datatype OpName = SaveGenerator | SaveGeneratorLong | StartGenerator | Catch | Ret | Other(id: nat)

  datatype Instruction = Instruction(offset: nat, length: nat, name: OpName, operands: seq<int>,
                                     kind: InstrKind, targets: seq<int>, switchTable: Option<SwitchTable>)
  {
    predicate IsSaveGenerator() {
      name == SaveGenerator || name == SaveGeneratorLong
    }

    predicate FallsThrough() {
      kind == CondJump || kind == CatchInstr || kind == Normal
    }

    function End(): nat {
      offset + length
    }
  }

  datatype ExceptionHandler = ExceptionHandler(start: nat, end: nat, target: nat)

  // ------------------------------------------------------------------ blocks

  type BlockId = nat

  datatype EdgeKind = FallthroughEdge | JumpEdge | BranchTaken | BranchNotTaken | SwitchCaseEdge | SwitchDefaultEdge

  datatype Edge = Edge(from: BlockId, to: BlockId, kind: EdgeKind, caseValue: Option<int>, caseIsString: Option<bool>)

  datatype Terminator =
    | FallthroughTerm
    | JumpTerm
    | BranchTerm
    | SwitchTerm(table: SwitchTable, synthetic: bool)
    | ReturnTerm
    | ThrowTerm
    | UnreachableTerm

  /** start == end == -1 for the synthetic resume dispatcher. */
  datatype BasicBlock = BasicBlock(id: BlockId, start: int, end: int, instructions: seq<Instruction>,
                                   terminator: Terminator, succs: seq<Edge>, preds: seq<BlockId>,
                                   isHandlerEntry: bool, catchRegister: Option<int>)

  // ------------------------------------------------- the graph and its paths

  /** A normal edge a -> b. */
  ghost predicate IsEdge(blocks: seq<BasicBlock>, a: BlockId, b: BlockId) {
    a < |blocks| && exists e :: e in blocks[a].succs && e.to == b
  }

  /** Edges name their source and stay in range. */
  ghost predicate EdgesValid(blocks: seq<BasicBlock>) {
    forall b: nat, e :: b < |blocks| && e in blocks[b].succs ==> e.from == b && e.to < |blocks|
  }

  /** preds is exactly the reverse of all succs (CFG-04). */
  ghost predicate PredsReverse(blocks: seq<BasicBlock>) {
    forall b: nat, p: nat :: b < |blocks| ==> (p in blocks[b].preds <==> IsEdge(blocks, p, b))
  }

  ghost predicate Last(w: seq<nat>, i: nat) {
    |w| > 0 && w[|w| - 1] == i
  }

  /** A path of normal edges that starts at `entry`. */
  ghost predicate Path(blocks: seq<BasicBlock>, entry: BlockId, w: seq<BlockId>) {
    && |w| > 0 && w[|w| - 1] < |blocks|
    && if |w| == 1 then w[0] == entry
       else Path(blocks, entry, w[..|w| - 1]) && IsEdge(blocks, w[|w| - 2], w[|w| - 1])
  }

  ghost predicate Reachable(blocks: seq<BasicBlock>, entry: BlockId, b: BlockId) {
    exists w :: Path(blocks, entry, w) && Last(w, b)
  }

  /** Both blocks are reachable and every path from the entry to b passes through a. */
  ghost predicate Dominates(blocks: seq<BasicBlock>, entry: BlockId, a: BlockId, b: BlockId) {
    Reachable(blocks, entry, a) && Reachable(blocks, entry, b) &&
    forall w :: Path(blocks, entry, w) && Last(w, b) ==> a in w
  }

  lemma PathExtend(blocks: seq<BasicBlock>, entry: BlockId, w: seq<BlockId>, b: BlockId)
    requires Path(blocks, entry, w) && IsEdge(blocks, w[|w| - 1], b) && b < |blocks|
    ensures Path(blocks, entry, w + [b]) && Last(w + [b], b)
  {
    var v := w + [b];
    assert v[..|v| - 1] == w;
  }

  lemma ReachableStep(blocks: seq<BasicBlock>, entry: BlockId, a: BlockId, b: BlockId)
    requires Reachable(blocks, entry, a) && IsEdge(blocks, a, b) && b < |blocks|
    ensures Reachable(blocks, entry, b)
  {
    var w :| Path(blocks, entry, w) && Last(w, a);
    PathExtend(blocks, entry, w, b);
  }

  lemma {:induction false} PathPrefix(blocks: seq<BasicBlock>, entry: BlockId, w: seq<BlockId>, k: nat)
    requires Path(blocks, entry, w) && k < |w|
    ensures Path(blocks, entry, w[..k + 1]) && Last(w[..k + 1], w[k])
    decreases |w|
  {
    if k + 1 == |w| {
      assert w[..k + 1] == w;
    } else {
      var v := w[..|w| - 1];
      PathPrefix(blocks, entry, v, k);
      assert v[..k + 1] == w[..k + 1];
    }
  }

  /** A set of blocks that holds the entry and is closed under edges holds every reachable block. */
  lemma {:induction false} ClosedHoldsPath(blocks: seq<BasicBlock>, entry: BlockId, s: set<BlockId>, w: seq<BlockId>)
    requires entry in s && Path(blocks, entry, w)
    requires forall a: nat, b: nat :: a in s && b < |blocks| && IsEdge(blocks, a, b) ==> b in s
    ensures w[|w| - 1] in s
    decreases |w|
  {
    if |w| > 1 { ClosedHoldsPath(blocks, entry, s, w[..|w| - 1]); }
  }
}
