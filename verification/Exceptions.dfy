// carveRegions (src/cfg/exceptions.ts): validation, sorting, the region forest and
// the exception successors.
module Exceptions {
  import opened CfgTypes
  import opened Regions
  import opened SetOrder
  import opened Sorting

  datatype ExceptionRegion = ExceptionRegion(index: nat, startPc: int, endPc: int, handlerBlock: BlockId, catchRegister: int, bodyBlocks: set<BlockId>,
                                             parent: Option<nat>, children: seq<nat>, sharesHandlerWith: seq<nat>)

  /** BadHandler is E_BAD_HANDLER. */
  datatype CarveResult =
    | Carved(regions: seq<ExceptionRegion>, exceptionSuccs: map<BlockId, seq<BlockId>>, misaligned: seq<nat>)
    | BadHandler

  /** What step 2 and step 9 ask of one table entry. */
  predicate ValidHandler(h: ExceptionHandler, blocks: seq<BasicBlock>, byOffset: map<int, BlockId>, size: nat) {
    RangeOk(h, byOffset, size) && StartsWithCatch(blocks, byOffset[h.target])
  }

  predicate RangeOk(h: ExceptionHandler, byOffset: map<int, BlockId>, size: nat) {
    h.start < h.end <= size && h.target < size && h.start in byOffset && h.target in byOffset
  }

  predicate StartsWithCatch(blocks: seq<BasicBlock>, b: BlockId) {
    b < |blocks| && blocks[b].instructions != [] && blocks[b].instructions[0].name == Catch
  }

  /** When the whole table is accepted. */
  ghost predicate Acceptable(handlers: seq<ExceptionHandler>, blocks: seq<BasicBlock>, byOffset: map<int, BlockId>, size: nat) {
    && (forall i :: 0 <= i < |handlers| ==> ValidHandler(handlers[i], blocks, byOffset, size))
    && forall i, j :: 0 <= i < j < |handlers| ==> !Cross(handlers[i], handlers[j])
  }

  // --------------------------------------------------------------- sorting

  function Entries(handlers: seq<ExceptionHandler>, n: nat): (r: seq<Entry>)
    requires n <= |handlers|
    ensures |r| == n && forall k :: 0 <= k < n ==> r[k] == Entry(handlers[k], k)
  {
    if n == 0 then [] else Entries(handlers, n - 1) + [Entry(handlers[n - 1], n - 1)]
  }

  /** The table, outermost first. */
  function SortedTable(handlers: seq<ExceptionHandler>): seq<Entry> {
    Sort(Entries(handlers, |handlers|), OuterLe)
  }

  lemma {:induction false} DistinctMultiset(s: seq<Entry>)
    requires forall i, j :: 0 <= i < j < |s| ==> s[i].fileOrder != s[j].fileOrder
    ensures forall x: Entry :: multiset(s)[x] <= 1
  {
    if s != [] {
      DistinctMultiset(s[1..]);
      assert s == [s[0]] + s[1..];
      assert s[0] !in s[1..];
    }
  }

  lemma SortedTableFacts(handlers: seq<ExceptionHandler>)
    ensures var S := SortedTable(handlers);
            && TableOf(S, handlers)
            && (forall i, j :: 0 <= i < j < |S| ==> OuterLe(S[i], S[j]) && S[i].fileOrder != S[j].fileOrder)
  {
    var E := Entries(handlers, |handlers|);
    var S := SortedTable(handlers);
    SortSorted(E, OuterLe);
    SortMembers(E, OuterLe);
    DistinctMultiset(E);
    SortedIsTable(handlers, S);
    forall i, j | 0 <= i < j < |S| ensures S[i].fileOrder != S[j].fileOrder {
      TwiceInMultiset(S, i, j);
    }
  }

  lemma SortedIsTable(handlers: seq<ExceptionHandler>, S: seq<Entry>)
    requires |S| == |handlers| && forall x :: x in S <==> x in Entries(handlers, |handlers|)
    ensures TableOf(S, handlers)
  {
    var E := Entries(handlers, |handlers|);
    forall k | 0 <= k < |S| ensures S[k].fileOrder < |handlers| && S[k].handler == handlers[S[k].fileOrder] {
      assert S[k] in E;
    }
    forall i: nat | i < |handlers| ensures HasEntry(S, i) {
      assert E[i] in S;
      var k :| 0 <= k < |S| && S[k] == E[i];
      assert S[k].fileOrder == i;
    }
  }

  lemma TwiceInMultiset(s: seq<Entry>, i: nat, j: nat)
    requires i < j < |s|
    ensures s[i] == s[j] ==> multiset(s)[s[i]] >= 2
  {
    assert s == s[..i] + [s[i]] + s[i + 1..j] + [s[j]] + s[j + 1..];
  }

  // ------------------------------------------------------- validation loops

  /** The entries whose end is warned about: neither the end of the function nor a block start. */
  ghost predicate MisalignedRight(handlers: seq<ExceptionHandler>, byOffset: map<int, BlockId>, size: nat, misaligned: seq<nat>) {
    && (forall i: nat :: i in misaligned <==> i < |handlers| && handlers[i].end != size && handlers[i].end !in byOffset)
    && Ascends(misaligned)
  }

  method ValidateRanges(handlers: seq<ExceptionHandler>, byOffset: map<int, BlockId>, size: nat) returns (ok: bool, misaligned: seq<nat>)
    ensures ok <==> forall i :: 0 <= i < |handlers| ==> RangeOk(handlers[i], byOffset, size)
    ensures ok ==> MisalignedRight(handlers, byOffset, size, misaligned)
  {
    misaligned := [];
    for i := 0 to |handlers|
      invariant forall k :: 0 <= k < i ==> RangeOk(handlers[k], byOffset, size)
      invariant forall k: nat :: k in misaligned <==> k < i && handlers[k].end != size && handlers[k].end !in byOffset
      invariant Ascends(misaligned) && forall k :: 0 <= k < |misaligned| ==> misaligned[k] < i
    {
      var h := handlers[i];
      if !(h.start < h.end && h.end <= size) { return false, misaligned; }
      if h.target >= size { return false, misaligned; }
      if h.start !in byOffset { return false, misaligned; }
      if h.target !in byOffset { return false, misaligned; }
      if h.end != size && h.end !in byOffset { misaligned := misaligned + [i]; }
    }
    ok := true;
  }

  method FindCrossing(S: seq<Entry>) returns (crossing: bool)
    requires forall i, j :: 0 <= i < j < |S| ==> OuterLe(S[i], S[j])
    ensures crossing <==> exists i, j :: 0 <= i < j < |S| && Cross(S[i].handler, S[j].handler)
  {
    crossing := false;
    for i := 0 to |S|
      invariant forall x, y :: 0 <= x < i && x < y < |S| ==> !Cross(S[x].handler, S[y].handler)
    {
      for j := i + 1 to |S|
        invariant forall y :: i < y < j ==> !Cross(S[i].handler, S[y].handler)
      {
        assert OuterLe(S[i], S[j]);
        var a, b := S[i].handler, S[j].handler;
        if b.start < a.end && b.end > a.end {
          assert a.start == b.start ==> b.end <= a.end;
          assert Cross(S[i].handler, S[j].handler);
          return true;
        }
      }
    }
  }

  /** No crossing in the sorted table is no crossing in the file. */
  lemma CrossingIsOrderFree(handlers: seq<ExceptionHandler>, S: seq<Entry>)
    requires TableOf(S, handlers)
    ensures (forall i, j :: 0 <= i < j < |S| ==> !Cross(S[i].handler, S[j].handler))
       <==> (forall i, j :: 0 <= i < j < |handlers| ==> !Cross(handlers[i], handlers[j]))
  {
    if forall i, j :: 0 <= i < j < |S| ==> !Cross(S[i].handler, S[j].handler) {
      forall i, j | 0 <= i < j < |handlers| ensures !Cross(handlers[i], handlers[j]) {
        var x := Position(S, handlers, i);
        var y := Position(S, handlers, j);
        assert if x < y then !Cross(S[x].handler, S[y].handler) else !Cross(S[y].handler, S[x].handler);
      }
    }
    if forall i, j :: 0 <= i < j < |handlers| ==> !Cross(handlers[i], handlers[j]) {
      forall i, j | 0 <= i < j < |S| ensures !Cross(S[i].handler, S[j].handler) {
        var x, y := S[i].fileOrder, S[j].fileOrder;
        assert x == y ==> S[i].handler == S[j].handler;
        assert x < y ==> !Cross(handlers[x], handlers[y]);
        assert y < x ==> !Cross(handlers[y], handlers[x]);
      }
    }
  }

  // ---------------------------------------------------------- the regions

  ghost predicate BlocksOk(blocks: seq<BasicBlock>, byOffset: map<int, BlockId>) {
    && (forall o :: o in byOffset ==> byOffset[o] < |blocks|)
    && (forall b :: 0 <= b < |blocks| ==> blocks[b].id == b)
    && (forall b :: 0 <= b < |blocks| && StartsWithCatch(blocks, b) ==> blocks[b].instructions[0].operands != [])
  }

  /** A validated, sorted, crossing-free table over finished blocks. */
  ghost predicate Ready(S: seq<Entry>, blocks: seq<BasicBlock>, byOffset: map<int, BlockId>, size: nat) {
    && BlocksOk(blocks, byOffset) && Laminar(S)
    && forall i :: 0 <= i < |S| ==> ValidHandler(S[i].handler, blocks, byOffset, size)
  }

  ghost function HandlerBlock(S: seq<Entry>, byOffset: map<int, BlockId>, i: nat): BlockId
    requires i < |S| && S[i].handler.target in byOffset
  {
    byOffset[S[i].handler.target]
  }

  /** The region of entry i before the forest is known. */
  ghost predicate RegionStarted(S: seq<Entry>, blocks: seq<BasicBlock>, byOffset: map<int, BlockId>, size: nat, i: nat, r: ExceptionRegion)
    requires Ready(S, blocks, byOffset, size) && i < |S|
  {
    var hb := HandlerBlock(S, byOffset, i);
    && r.index == i && r.startPc == S[i].handler.start && r.endPc == S[i].handler.end && r.handlerBlock == hb
    && r.catchRegister == blocks[hb].instructions[0].operands[0]
    && (forall b: nat :: b in r.bodyBlocks <==> b < |blocks| && Covers(S[i].handler, blocks[b]))
  }

  method BodyBlocks(blocks: seq<BasicBlock>, h: ExceptionHandler) returns (body: set<BlockId>)
    requires forall b :: 0 <= b < |blocks| ==> blocks[b].id == b
    ensures forall b: nat :: b in body <==> b < |blocks| && Covers(h, blocks[b])
  {
    body := {};
    for k := 0 to |blocks|
      invariant forall b: nat :: b in body <==> b < k && Covers(h, blocks[b])
    {
      var b := blocks[k];
      if b.start < 0 { continue; }
      if b.start >= h.start && b.end <= h.end { body := body + {b.id}; }
    }
  }

  method StartRegions(S: seq<Entry>, blocks: seq<BasicBlock>, byOffset: map<int, BlockId>, ghost size: nat) returns (regions: seq<ExceptionRegion>, ok: bool)
    requires BlocksOk(blocks, byOffset) && Laminar(S) && forall i :: 0 <= i < |S| ==> RangeOk(S[i].handler, byOffset, size)
    ensures ok <==> forall i :: 0 <= i < |S| ==> ValidHandler(S[i].handler, blocks, byOffset, size)
    ensures ok ==> Ready(S, blocks, byOffset, size) && |regions| == |S|
    ensures ok ==> forall i :: 0 <= i < |S| ==> RegionStarted(S, blocks, byOffset, size, i, regions[i]) && regions[i].parent == None && regions[i].children == [] && regions[i].sharesHandlerWith == []
  {
    regions := [];
    for i := 0 to |S|
      invariant |regions| == i
      invariant forall k :: 0 <= k < i ==> StartsWithCatch(blocks, byOffset[S[k].handler.target])
      invariant forall k :: 0 <= k < i ==>
        var r, hb := regions[k], HandlerBlock(S, byOffset, k);
        && r.index == k && r.startPc == S[k].handler.start && r.endPc == S[k].handler.end && r.handlerBlock == hb
        && r.catchRegister == blocks[hb].instructions[0].operands[0]
        && (forall b: nat :: b in r.bodyBlocks <==> b < |blocks| && Covers(S[k].handler, blocks[b]))
        && r.parent == None && r.children == [] && r.sharesHandlerWith == []
    {
      var h := S[i].handler;
      var handlerBlock := byOffset[h.target];
      var body := BodyBlocks(blocks, h);
      if !StartsWithCatch(blocks, handlerBlock) {
        assert !ValidHandler(h, blocks, byOffset, size);
        return regions, false;
      }
      regions := regions + [ExceptionRegion(i, h.start, h.end, handlerBlock, blocks[handlerBlock].instructions[0].operands[0], body, None, [], [])];
    }
    ok := true;
  }

  /** The forest so far: parents of the first n regions, and the child lists they imply. */
  ghost predicate Forest(S: seq<Entry>, started: seq<ExceptionRegion>, regions: seq<ExceptionRegion>, n: nat)
    requires n <= |S|
  {
    && |regions| == |started| == |S|
    && forall i :: 0 <= i < |S| ==>
         regions[i] == started[i].(parent := if i < n then Parent(S, i) else None, children := Children(S, i, n))
  }

  lemma ForestRoot(S: seq<Entry>, started: seq<ExceptionRegion>, regions: seq<ExceptionRegion>, i: nat)
    requires i < |S| && Forest(S, started, regions, i) && Parent(S, i) == None
    ensures Forest(S, started, regions, i + 1)
  {
  }

  lemma ForestChild(S: seq<Entry>, started: seq<ExceptionRegion>, regions: seq<ExceptionRegion>, i: nat, p: nat)
    requires i < |S| && Forest(S, started, regions, i) && Parent(S, i) == Some(p)
    ensures p < i && Forest(S, started, Attach(regions, i, p), i + 1)
  {
    var r := Attach(regions, i, p);
    forall k | 0 <= k < |S|
      ensures r[k] == started[k].(parent := if k < i + 1 then Parent(S, k) else None, children := Children(S, k, i + 1))
    {
      assert regions[k] == started[k].(parent := if k < i then Parent(S, k) else None, children := Children(S, k, i));
    }
  }

  function Attach(regions: seq<ExceptionRegion>, i: nat, p: nat): seq<ExceptionRegion>
    requires p < i < |regions|
  {
    regions[i := regions[i].(parent := Some(p))][p := regions[p].(children := regions[p].children + [i])]
  }

  lemma ForestStart(S: seq<Entry>, started: seq<ExceptionRegion>)
    requires |started| == |S| && forall i :: 0 <= i < |S| ==> started[i].parent == None && started[i].children == []
    ensures Forest(S, started, started, 0)
  {
  }

  /** Every region has its entry's range. */
  ghost predicate RangesOf(S: seq<Entry>, regions: seq<ExceptionRegion>) {
    |regions| == |S| && forall i :: 0 <= i < |S| ==> regions[i].startPc == S[i].handler.start && regions[i].endPc == S[i].handler.end
  }

  lemma ForestKeepsRanges(S: seq<Entry>, started: seq<ExceptionRegion>, regions: seq<ExceptionRegion>, n: nat)
    requires n <= |S| && RangesOf(S, started) && Forest(S, started, regions, n)
    ensures RangesOf(S, regions)
  {
  }

  /** One turn: region i's parent, and its place in the parent's child list. */
  method LinkRegion(S: seq<Entry>, started: seq<ExceptionRegion>, before: seq<ExceptionRegion>, i: nat) returns (regions: seq<ExceptionRegion>)
    requires i < |S| && RangesOf(S, started) && Forest(S, started, before, i)
    ensures Forest(S, started, regions, i + 1)
  {
    ForestKeepsRanges(S, started, before, i);
    var p := NearestEncloser(S, before, i);
    if p.Some? {
      ForestChild(S, started, before, i, p.value);
      regions := Attach(before, i, p.value);
    } else {
      ForestRoot(S, started, before, i);
      regions := before;
    }
  }

  method LinkRegions(S: seq<Entry>, started: seq<ExceptionRegion>) returns (regions: seq<ExceptionRegion>)
    requires RangesOf(S, started)
    requires forall i :: 0 <= i < |S| ==> started[i].parent == None && started[i].children == []
    ensures Forest(S, started, regions, |S|)
  {
    ForestStart(S, started);
    regions := started;
    for i := 0 to |S|
      invariant Forest(S, started, regions, i)
    {
      regions := LinkRegion(S, started, regions, i);
    }
  }

  method NearestEncloser(S: seq<Entry>, regions: seq<ExceptionRegion>, i: nat) returns (p: Option<nat>)
    requires RangesOf(S, regions) && i < |S|
    ensures p == Parent(S, i)
  {
    var j := i;
    while j > 0
      invariant 0 <= j <= i
      invariant EnclosingBelow(S, i, i) == EnclosingBelow(S, i, j)
    {
      j := j - 1;
      var r, c := regions[i], regions[j];
      if c.startPc <= r.startPc && r.endPc <= c.endPc { return Some(j); }
    }
    p := None;
  }

  /** The other regions among the first n with the same handler block as region i. */
  function Sharing(handlerBlocks: seq<BlockId>, i: nat, n: nat): seq<nat>
    requires i < |handlerBlocks| && n <= |handlerBlocks|
  {
    if n == 0 then []
    else if n - 1 != i && handlerBlocks[n - 1] == handlerBlocks[i] then Sharing(handlerBlocks, i, n - 1) + [n - 1]
    else Sharing(handlerBlocks, i, n - 1)
  }

  lemma {:induction false} SharingIsSymmetric(handlerBlocks: seq<BlockId>, i: nat, n: nat)
    requires i < |handlerBlocks| && n <= |handlerBlocks|
    ensures forall j: nat :: j in Sharing(handlerBlocks, i, n) <==> j < n && j != i && handlerBlocks[j] == handlerBlocks[i]
  {
    if n > 0 { SharingIsSymmetric(handlerBlocks, i, n - 1); }
  }

  function HandlerBlocks(regions: seq<ExceptionRegion>): (r: seq<BlockId>)
    ensures |r| == |regions| && forall k :: 0 <= k < |r| ==> r[k] == regions[k].handlerBlock
  {
    if regions == [] then [] else HandlerBlocks(regions[..|regions| - 1]) + [regions[|regions| - 1].handlerBlock]
  }

  /** The first n regions with handler block t. */
  function Group(handlerBlocks: seq<BlockId>, t: BlockId, n: nat): seq<nat>
    requires n <= |handlerBlocks|
  {
    if n == 0 then []
    else if handlerBlocks[n - 1] == t then Group(handlerBlocks, t, n - 1) + [n - 1]
    else Group(handlerBlocks, t, n - 1)
  }

  function Without(s: seq<nat>, i: nat): seq<nat> {
    if s == [] then []
    else if s[|s| - 1] != i then Without(s[..|s| - 1], i) + [s[|s| - 1]]
    else Without(s[..|s| - 1], i)
  }

  lemma WithoutAppend(s: seq<nat>, x: nat, i: nat)
    ensures Without(s + [x], i) == if x != i then Without(s, i) + [x] else Without(s, i)
  {
    assert (s + [x])[..|s|] == s;
  }

  lemma WithoutSingle(s: seq<nat>, i: nat)
    requires i in s && |s| < 2
    ensures Without(s, i) == []
  {
    assert s == [] + [s[0]];
    WithoutAppend([], s[0], i);
  }

  lemma {:induction false} GroupWithout(handlerBlocks: seq<BlockId>, i: nat, n: nat)
    requires i < |handlerBlocks| && n <= |handlerBlocks|
    ensures Without(Group(handlerBlocks, handlerBlocks[i], n), i) == Sharing(handlerBlocks, i, n)
  {
    if n > 0 {
      GroupWithout(handlerBlocks, i, n - 1);
      if handlerBlocks[n - 1] == handlerBlocks[i] {
        WithoutAppend(Group(handlerBlocks, handlerBlocks[i], n - 1), n - 1, i);
      }
    }
  }

  lemma {:induction false} InOwnGroup(handlerBlocks: seq<BlockId>, i: nat, n: nat)
    requires i < n <= |handlerBlocks|
    ensures i in Group(handlerBlocks, handlerBlocks[i], n)
  {
    if i < n - 1 { InOwnGroup(handlerBlocks, i, n - 1); }
  }

  method GroupByTarget(regions: seq<ExceptionRegion>) returns (byTarget: map<BlockId, seq<nat>>)
    requires forall i :: 0 <= i < |regions| ==> regions[i].index == i
    ensures forall t :: t in byTarget ==> byTarget[t] == Group(HandlerBlocks(regions), t, |regions|)
    ensures forall i :: 0 <= i < |regions| ==> regions[i].handlerBlock in byTarget
  {
    ghost var hbs := HandlerBlocks(regions);
    byTarget := map[];
    for i := 0 to |regions|
      invariant forall t :: t in byTarget ==> byTarget[t] == Group(hbs, t, i)
      invariant forall t :: t !in byTarget ==> Group(hbs, t, i) == []
      invariant forall k :: 0 <= k < i ==> regions[k].handlerBlock in byTarget
    {
      var t := regions[i].handlerBlock;
      byTarget := byTarget[t := (if t in byTarget then byTarget[t] else []) + [regions[i].index]];
    }
  }

  method ShareHandlers(regions: seq<ExceptionRegion>) returns (r: seq<ExceptionRegion>)
    requires forall i :: 0 <= i < |regions| ==> regions[i].index == i && regions[i].sharesHandlerWith == []
    ensures |r| == |regions|
    ensures forall i :: 0 <= i < |r| ==> r[i] == regions[i].(sharesHandlerWith := Sharing(HandlerBlocks(regions), i, |regions|))
  {
    ghost var hbs := HandlerBlocks(regions);
    var byTarget := GroupByTarget(regions);
    r := [];
    for i := 0 to |regions|
      invariant |r| == i
      invariant forall k :: 0 <= k < i ==> r[k] == regions[k].(sharesHandlerWith := Sharing(hbs, k, |regions|))
    {
      var group := byTarget[regions[i].handlerBlock];
      GroupWithout(hbs, i, |regions|);
      InOwnGroup(hbs, i, |regions|);
      var shares := [];
      if |group| < 2 { WithoutSingle(group, i); } else { shares := Without(group, i); }
      r := r + [regions[i].(sharesHandlerWith := shares)];
    }
  }

  // -------------------------------------------------- exception successors

  /** Deeper regions first, then by index. */
  function DeeperLe(depth: seq<nat>): (nat, nat) -> bool {
    (x: nat, y: nat) => At(depth, x) > At(depth, y) || (At(depth, x) == At(depth, y) && x <= y)
  }

  function At(s: seq<nat>, i: nat): nat {
    if i < |s| then s[i] else 0
  }

  method Depths(ghost S: seq<Entry>, regions: seq<ExceptionRegion>) returns (depth: seq<nat>)
    requires |regions| == |S| && forall i :: 0 <= i < |S| ==> regions[i].parent == Parent(S, i)
    ensures |depth| == |S| && forall i :: 0 <= i < |S| ==> depth[i] == Depth(S, i)
  {
    depth := [];
    for i := 0 to |regions|
      invariant |depth| == i && forall k :: 0 <= k < i ==> depth[k] == Depth(S, k)
    {
      var d := 0;
      var p: Option<nat> := regions[i].parent;
      while p.Some?
        invariant p.Some? ==> p.value < |S|
        invariant Depth(S, i) == d + (if p.Some? then 1 + Depth(S, p.value) else 0)
        decreases if p.Some? then p.value + 1 else 0
      {
        d := d + 1;
        p := regions[p.value].parent;
      }
      depth := depth + [d];
    }
  }

  lemma DeeperLeOrder(depth: seq<nat>)
    ensures TotalOrder(DeeperLe(depth)) && Antisymmetric(DeeperLe(depth))
  {
  }

  lemma ReversedIsDeeper(S: seq<Entry>, b: BasicBlock, depth: seq<nat>, c: seq<nat>, r: seq<nat>, j: nat, k: nat)
    requires Laminar(S) && b.start < b.end && |depth| == |S| && Lists(S, b, |S|, c)
    requires forall i :: 0 <= i < |S| ==> depth[i] == Depth(S, i)
    requires |r| == |c| && forall k :: 0 <= k < |r| ==> r[k] == c[|c| - 1 - k]
    requires j < k < |r|
    ensures DeeperLe(depth)(r[j], r[k])
  {
    var x, y := c[|c| - 1 - k], c[|c| - 1 - j];
    assert x in c && y in c && x < y;
    CoveringDeepens(S, b, x, y);
  }

  /** Sorting the covering regions by depth reverses their table order. */
  lemma DepthSortReverses(S: seq<Entry>, b: BasicBlock, depth: seq<nat>, c: seq<nat>)
    requires Laminar(S) && b.start < b.end && |depth| == |S| && Lists(S, b, |S|, c)
    requires forall i :: 0 <= i < |S| ==> depth[i] == Depth(S, i)
    ensures Sort(c, DeeperLe(depth)) == Reversed(c)
  {
    var le, r := DeeperLe(depth), Reversed(c);
    DeeperLeOrder(depth);
    SortSorted(c, le);
    forall j, k | 0 <= j < k < |r| ensures le(r[j], r[k]) {
      ReversedIsDeeper(S, b, depth, c, r, j, k);
    }
    SortedUnique(Sort(c, le), r, le);
  }

  /** The handler blocks of the table entries fs. */
  function TargetBlocks(handlers: seq<ExceptionHandler>, byOffset: map<int, BlockId>, fs: seq<nat>): (r: seq<BlockId>)
    requires forall k :: 0 <= k < |fs| ==> fs[k] < |handlers| && handlers[fs[k]].target in byOffset
    ensures |r| == |fs| && forall k :: 0 <= k < |r| ==> r[k] == byOffset[handlers[fs[k]].target]
  {
    if fs == [] then [] else TargetBlocks(handlers, byOffset, fs[..|fs| - 1]) + [byOffset[handlers[fs[|fs| - 1]].target]]
  }

  ghost predicate TargetsKnown(handlers: seq<ExceptionHandler>, byOffset: map<int, BlockId>) {
    forall i :: 0 <= i < |handlers| ==> handlers[i].target in byOffset
  }

  /** exceptionSuccs of block b: absent when uncovered, else innermost handler first. */
  ghost predicate SuccsAt(S: seq<Entry>, handlers: seq<ExceptionHandler>, b: BasicBlock, byOffset: map<int, BlockId>, succs: Option<seq<BlockId>>)
    requires TableOf(S, handlers) && TargetsKnown(handlers, byOffset)
  {
    var order := NestingOrder(S, b);
    if order == [] then succs == None
    else
      && succs.Some? && |succs.value| == |order|
      && forall k :: 0 <= k < |order| ==> order[k] < |handlers| && succs.value[k] == byOffset[handlers[order[k]].target]
  }

  function Lookup(m: map<BlockId, seq<BlockId>>, b: BlockId): Option<seq<BlockId>> {
    if b in m then Some(m[b]) else None
  }

  ghost predicate SuccsRight(S: seq<Entry>, handlers: seq<ExceptionHandler>, blocks: seq<BasicBlock>, byOffset: map<int, BlockId>, n: nat, succs: map<BlockId, seq<BlockId>>) {
    && TableOf(S, handlers) && TargetsKnown(handlers, byOffset) && n <= |blocks|
    && (forall b: nat {:trigger SuccsAt(S, handlers, blocks[b], byOffset, Lookup(succs, b))} :: b < n ==> SuccsAt(S, handlers, blocks[b], byOffset, Lookup(succs, b)))
    && forall b :: b in succs ==> b < n
  }

  /** The regions of an accepted table, in full. */
  ghost predicate RegionsRight(S: seq<Entry>, blocks: seq<BasicBlock>, byOffset: map<int, BlockId>, size: nat, regions: seq<ExceptionRegion>) {
    && Ready(S, blocks, byOffset, size) && |regions| == |S|
    && forall i :: 0 <= i < |S| ==>
         && RegionStarted(S, blocks, byOffset, size, i, regions[i])
         && regions[i].parent == Parent(S, i) && regions[i].children == Children(S, i, |S|)
         && regions[i].sharesHandlerWith == Sharing(HandlerBlocks(regions), i, |regions|)
  }

  /** The regions over block b, ascending. */
  method CoveringRegions(ghost S: seq<Entry>, regions: seq<ExceptionRegion>, blocks: seq<BasicBlock>, b: nat) returns (c: seq<nat>)
    requires |regions| == |S| && b < |blocks|
    requires forall i :: 0 <= i < |S| ==> regions[i].index == i && (b in regions[i].bodyBlocks <==> Covers(S[i].handler, blocks[b]))
    ensures c == Covering(S, blocks[b], |S|)
  {
    c := [];
    for i := 0 to |regions|
      invariant c == Covering(S, blocks[b], i)
    {
      if b in regions[i].bodyBlocks { c := c + [regions[i].index]; }
    }
  }

  method HandlersOf(regions: seq<ExceptionRegion>, c: seq<nat>) returns (r: seq<BlockId>)
    requires forall k :: 0 <= k < |c| ==> c[k] < |regions|
    ensures |r| == |c| && forall k :: 0 <= k < |r| ==> r[k] == regions[c[k]].handlerBlock
  {
    r := [];
    for k := 0 to |c|
      invariant |r| == k && forall j :: 0 <= j < k ==> r[j] == regions[c[j]].handlerBlock
    {
      r := r + [regions[c[k]].handlerBlock];
    }
  }

  /** Every region's handler block is the one its entry targets. */
  ghost predicate HandlersKnown(S: seq<Entry>, byOffset: map<int, BlockId>, regions: seq<ExceptionRegion>) {
    |regions| == |S| && forall i :: 0 <= i < |S| ==> S[i].handler.target in byOffset && regions[i].handlerBlock == byOffset[S[i].handler.target]
  }

  lemma HandlerBlocksRight(S: seq<Entry>, blocks: seq<BasicBlock>, byOffset: map<int, BlockId>, size: nat, regions: seq<ExceptionRegion>)
    requires RegionsRight(S, blocks, byOffset, size, regions)
    ensures HandlersKnown(S, byOffset, regions)
  {
    forall i | 0 <= i < |S| ensures S[i].handler.target in byOffset && regions[i].handlerBlock == byOffset[S[i].handler.target] {
      assert RegionStarted(S, blocks, byOffset, size, i, regions[i]);
    }
  }

  /** The handler blocks of the reversed covering list are the targets in nesting order. */
  lemma HandlersAreTargets(S: seq<Entry>, handlers: seq<ExceptionHandler>, b: BasicBlock, byOffset: map<int, BlockId>,
                           regions: seq<ExceptionRegion>, sorted: seq<nat>, hs: seq<BlockId>)
    requires TableOf(S, handlers) && TargetsKnown(handlers, byOffset) && HandlersKnown(S, byOffset, regions)
    requires sorted == Reversed(Covering(S, b, |S|))
    requires |hs| == |sorted| && forall k :: 0 <= k < |hs| ==> sorted[k] < |regions| && hs[k] == regions[sorted[k]].handlerBlock
    ensures SuccsAt(S, handlers, b, byOffset, if sorted == [] then None else Some(hs))
  {
  }

  /** Membership of a block in the recorded bodies is coverage. */
  lemma BodiesCover(S: seq<Entry>, blocks: seq<BasicBlock>, byOffset: map<int, BlockId>, size: nat, regions: seq<ExceptionRegion>, b: nat)
    requires RegionsRight(S, blocks, byOffset, size, regions) && b < |blocks|
    ensures |regions| == |S| && forall i :: 0 <= i < |S| ==> regions[i].index == i && (b in regions[i].bodyBlocks <==> Covers(S[i].handler, blocks[b]))
  {
    forall i | 0 <= i < |S| ensures regions[i].index == i && (b in regions[i].bodyBlocks <==> Covers(S[i].handler, blocks[b])) {
      assert RegionStarted(S, blocks, byOffset, size, i, regions[i]);
    }
  }

  /** The regions over block b, deepest first: the table's order reversed. */
  method NestedRegions(ghost S: seq<Entry>, regions: seq<ExceptionRegion>, blocks: seq<BasicBlock>, depth: seq<nat>, b: nat) returns (sorted: seq<nat>)
    requires Laminar(S) && |regions| == |depth| == |S| && (forall i :: 0 <= i < |S| ==> depth[i] == Depth(S, i))
    requires b < |blocks| && blocks[b].start < blocks[b].end
    requires forall i :: 0 <= i < |S| ==> regions[i].index == i && (b in regions[i].bodyBlocks <==> Covers(S[i].handler, blocks[b]))
    ensures sorted == Reversed(Covering(S, blocks[b], |S|)) && forall k :: 0 <= k < |sorted| ==> sorted[k] < |S|
  {
    var covering := CoveringRegions(S, regions, blocks, b);
    CoveringLists(S, blocks[b], |S|);
    DepthSortReverses(S, blocks[b], depth, covering);
    sorted := Sort(covering, DeeperLe(depth));
  }

  /** The handlers over one block, innermost first. */
  method SuccessorsOf(ghost S: seq<Entry>, ghost handlers: seq<ExceptionHandler>, blocks: seq<BasicBlock>, ghost byOffset: map<int, BlockId>, ghost size: nat,
                      regions: seq<ExceptionRegion>, depth: seq<nat>, b: nat)
    returns (covered: bool, hs: seq<BlockId>)
    requires RegionsRight(S, blocks, byOffset, size, regions) && TableOf(S, handlers) && TargetsKnown(handlers, byOffset)
    requires |depth| == |S| && (forall i :: 0 <= i < |S| ==> depth[i] == Depth(S, i))
    requires b < |blocks| && blocks[b].start < blocks[b].end
    ensures SuccsAt(S, handlers, blocks[b], byOffset, if covered then Some(hs) else None)
  {
    BodiesCover(S, blocks, byOffset, size, regions, b);
    var sorted := NestedRegions(S, regions, blocks, depth, b);
    hs := HandlersOf(regions, sorted);
    HandlerBlocksRight(S, blocks, byOffset, size, regions);
    HandlersAreTargets(S, handlers, blocks[b], byOffset, regions, sorted, hs);
    covered := sorted != [];
  }

  method ExceptionSuccessors(ghost S: seq<Entry>, ghost handlers: seq<ExceptionHandler>, blocks: seq<BasicBlock>, ghost byOffset: map<int, BlockId>, ghost size: nat,
                             regions: seq<ExceptionRegion>)
    returns (succs: map<BlockId, seq<BlockId>>)
    requires RegionsRight(S, blocks, byOffset, size, regions) && TableOf(S, handlers) && TargetsKnown(handlers, byOffset)
    requires forall b :: 0 <= b < |blocks| ==> blocks[b].start < blocks[b].end
    ensures SuccsRight(S, handlers, blocks, byOffset, |blocks|, succs)
  {
    var depth := Depths(S, regions);
    succs := map[];
    for b := 0 to |blocks|
      invariant SuccsRight(S, handlers, blocks, byOffset, b, succs)
    {
      var covered, hs := SuccessorsOf(S, handlers, blocks, byOffset, size, regions, depth, b);
      SuccsExtend(S, handlers, blocks, byOffset, b, succs, covered, hs);
      if covered { succs := succs[b := hs]; }
    }
  }

  lemma SuccsExtend(S: seq<Entry>, handlers: seq<ExceptionHandler>, blocks: seq<BasicBlock>, byOffset: map<int, BlockId>, b: nat,
                    succs: map<BlockId, seq<BlockId>>, covered: bool, hs: seq<BlockId>)
    requires b < |blocks| && SuccsRight(S, handlers, blocks, byOffset, b, succs)
    requires SuccsAt(S, handlers, blocks[b], byOffset, if covered then Some(hs) else None)
    ensures SuccsRight(S, handlers, blocks, byOffset, b + 1, if covered then succs[b := hs] else succs)
  {
    var succs' := if covered then succs[b := hs] else succs;
    assert Lookup(succs', b) == if covered then Some(hs) else None;
    forall x: nat | x < b + 1 ensures SuccsAt(S, handlers, blocks[x], byOffset, Lookup(succs', x)) {
      if x < b { assert Lookup(succs', x) == Lookup(succs, x); }
    }
  }

  /** Validation and sorting: everything before the regions are made. */
  method Validate(handlers: seq<ExceptionHandler>, byOffset: map<int, BlockId>, bytecodeSize: nat) returns (S: seq<Entry>, misaligned: seq<nat>, ok: bool)
    ensures TableOf(S, handlers)
    ensures ok <==> (forall i :: 0 <= i < |handlers| ==> RangeOk(handlers[i], byOffset, bytecodeSize))
                    && forall i, j :: 0 <= i < j < |handlers| ==> !Cross(handlers[i], handlers[j])
    ensures ok ==> Laminar(S) && MisalignedRight(handlers, byOffset, bytecodeSize, misaligned)
  {
    SortedTableFacts(handlers);
    S := SortedTable(handlers);
    CrossingIsOrderFree(handlers, S);
    ok, misaligned := ValidateRanges(handlers, byOffset, bytecodeSize);
    if ok {
      var crossing := FindCrossing(S);
      ok := !crossing;
    }
  }

  method CarveRegions(handlers: seq<ExceptionHandler>, blocks: seq<BasicBlock>, byOffset: map<int, BlockId>, bytecodeSize: nat)
    returns (r: CarveResult, ghost S: seq<Entry>)
    requires BlocksOk(blocks, byOffset)
    requires bytecodeSize > 0 ==> forall b :: 0 <= b < |blocks| ==> blocks[b].start < blocks[b].end
    ensures r.Carved? <==> Acceptable(handlers, blocks, byOffset, bytecodeSize)
    ensures r.Carved? ==> RegionsRight(S, blocks, byOffset, bytecodeSize, r.regions)
                          && SuccsRight(S, handlers, blocks, byOffset, |blocks|, r.exceptionSuccs)
                          && MisalignedRight(handlers, byOffset, bytecodeSize, r.misaligned)
  {
    S := [];
    if |handlers| == 0 {
      assert forall b: nat {:trigger blocks[b]} :: b < |blocks| ==> NestingOrder([], blocks[b]) == [];
      return Carved([], map[], []), [];
    }
    var table, misaligned, ok := Validate(handlers, byOffset, bytecodeSize);
    S := table;
    if !ok { return BadHandler, S; }
    RangesInTable(handlers, table, byOffset, bytecodeSize);
    var started, caught := StartRegions(table, blocks, byOffset, bytecodeSize);
    ValidityIsOrderFree(handlers, table, blocks, byOffset, bytecodeSize);
    if !caught { return BadHandler, S; }
    var linked := LinkRegions(table, started);
    var shared := ShareHandlers(linked);
    RegionsFinished(table, blocks, byOffset, bytecodeSize, started, linked, shared);
    var succs := ExceptionSuccessors(table, handlers, blocks, byOffset, bytecodeSize, shared);
    r := Carved(shared, succs, misaligned);
  }

  lemma RangesInTable(handlers: seq<ExceptionHandler>, S: seq<Entry>, byOffset: map<int, BlockId>, size: nat)
    requires TableOf(S, handlers) && forall i :: 0 <= i < |handlers| ==> RangeOk(handlers[i], byOffset, size)
    ensures (forall i :: 0 <= i < |S| ==> RangeOk(S[i].handler, byOffset, size)) && TargetsKnown(handlers, byOffset)
    ensures size > 0 || handlers == []
  {
    assert handlers != [] ==> RangeOk(handlers[0], byOffset, size);
  }

  lemma ValidityIsOrderFree(handlers: seq<ExceptionHandler>, S: seq<Entry>, blocks: seq<BasicBlock>, byOffset: map<int, BlockId>, size: nat)
    requires TableOf(S, handlers) && forall i :: 0 <= i < |handlers| ==> RangeOk(handlers[i], byOffset, size)
    ensures (forall i :: 0 <= i < |S| ==> ValidHandler(S[i].handler, blocks, byOffset, size))
       <==> (forall i :: 0 <= i < |handlers| ==> ValidHandler(handlers[i], blocks, byOffset, size))
  {
    forall i | (forall k :: 0 <= k < |S| ==> ValidHandler(S[k].handler, blocks, byOffset, size)) && 0 <= i < |handlers|
      ensures ValidHandler(handlers[i], blocks, byOffset, size)
    {
      var k := Position(S, handlers, i);
      assert ValidHandler(S[k].handler, blocks, byOffset, size);
    }
  }

  lemma RegionsFinished(S: seq<Entry>, blocks: seq<BasicBlock>, byOffset: map<int, BlockId>, size: nat,
                        started: seq<ExceptionRegion>, linked: seq<ExceptionRegion>, shared: seq<ExceptionRegion>)
    requires Ready(S, blocks, byOffset, size) && |started| == |S| && Forest(S, started, linked, |S|)
    requires forall i :: 0 <= i < |S| ==> RegionStarted(S, blocks, byOffset, size, i, started[i])
    requires |shared| == |linked|
    requires forall i :: 0 <= i < |shared| ==> shared[i] == linked[i].(sharesHandlerWith := Sharing(HandlerBlocks(linked), i, |linked|))
    ensures RegionsRight(S, blocks, byOffset, size, shared)
  {
    assert HandlerBlocks(shared) == HandlerBlocks(linked);
  }

  // ------------------------------------------------------- what it is all for

  /** In an accepted table, exceptionSuccs(b) names the covering entries in file order
      exactly when, over b, inner entries are listed before outer ones. */
  lemma SuccsInFileOrder(S: seq<Entry>, handlers: seq<ExceptionHandler>, b: BasicBlock)
    requires Laminar(S) && TableOf(S, handlers) && b.start < b.end
    ensures NestingOrder(S, b) == InFileOrder(handlers, b, |handlers|) <==> InnerFirst(handlers, b)
  {
    CoveringLists(S, b, |S|);
    InnermostIsFileOrder(S, handlers, b, Covering(S, b, |S|));
  }

  /** With inner entries first, an exception at any pc of an aligned block goes to the
      head of exceptionSuccs(b): the entry the VM finds. */
  lemma SuccsHeadIsVmChoice(S: seq<Entry>, handlers: seq<ExceptionHandler>, blocks: seq<BasicBlock>, byOffset: map<int, BlockId>,
                            succs: map<BlockId, seq<BlockId>>, b: nat, pc: int)
    requires Laminar(S) && SuccsRight(S, handlers, blocks, byOffset, |blocks|, succs)
    requires b < |blocks| && 0 <= blocks[b].start <= pc < blocks[b].end && Aligned(handlers, blocks[b]) && InnerFirst(handlers, blocks[b])
    ensures match FirstMatch(handlers, pc)
            case None => b !in succs
            case Some(f) => b in succs && succs[b] != [] && succs[b][0] == byOffset[handlers[f].target]
  {
    CoveringLists(S, blocks[b], |S|);
    HeadIsFirstMatch(S, handlers, blocks[b], Covering(S, blocks[b], |S|), pc);
    assert SuccsAt(S, handlers, blocks[b], byOffset, Lookup(succs, b));
  }
}
