// computeDominators (src/cfg/dom.ts:46-145): immediate dominators, the tree, the
// constant-time `dominates` query, back edges and reducibility.
module Dominators {
  import opened CfgTypes
  import opened DomChains
  import opened DomIndex
  import opened DomIteration
  import opened Sorting
  import P = Postorder
  import T = DomTree

  // ------------------------------------------------------- the results

  datatype DominatorTree = DominatorTree(idom: seq<Option<BlockId>>, children: seq<seq<BlockId>>, tin: seq<int>, tout: seq<int>,
                                         preorder: seq<BlockId>, backEdges: seq<(BlockId, BlockId)>)
  {
    /** The constant-time dominance query (dom.ts:125-128). */
    predicate DominatesQuery(a: BlockId, b: BlockId)
      requires a < |tin| == |tout| && b < |tin|
    {
      tin[a] != -1 && tin[b] != -1 && tin[a] <= tin[b] && tout[b] <= tout[a]
    }
  }

  datatype DomResult = DomResult(rpo: seq<BlockId>, dom: DominatorTree, reducible: bool, unreachable: seq<BlockId>)

  /** d is b's immediate dominator: the closest strict one. */
  ghost predicate IsIdom(blocks: seq<BasicBlock>, entry: BlockId, d: BlockId, b: BlockId) {
    && d != b && Dominates(blocks, entry, d, b)
    && forall a: nat :: a != b && Dominates(blocks, entry, a, b) ==> Dominates(blocks, entry, a, d)
  }

  ghost predicate IdomsRight(blocks: seq<BasicBlock>, entry: BlockId, idom: seq<Option<BlockId>>) {
    |idom| == |blocks| && forall b: nat :: b < |blocks| ==>
      match idom[b]
      case Some(d) => IsIdom(blocks, entry, d, b)
      case None => b == entry || !Reachable(blocks, entry, b)
  }

  lemma {:induction false} ReachableInRange(blocks: seq<BasicBlock>, entry: BlockId, b: nat)
    requires Reachable(blocks, entry, b)
    ensures b < |blocks|
  {
  }

  /** The links, once exact, are the immediate dominators. */
  lemma ExactGivesIdom(blocks: seq<BasicBlock>, entry: BlockId, rpo: seq<BlockId>, rpoIndex: seq<int>, I: seq<seq<nat>>, d: seq<int>, i: nat)
    requires PredsReverse(blocks) && Indexing(blocks, entry, rpo, rpoIndex) && Indexed(blocks, rpo, rpoIndex, I)
    requires Linked(d) && Exact(I, d) && 0 < i < |rpo| && d[i] != -1
    ensures IsIdom(blocks, entry, rpo[d[i]], rpo[i])
  {
    assert Above(d, d[i], i);
    DominatesIffDom(blocks, entry, rpo, rpoIndex, I, d[i], i);
    assert rpoIndex[rpo[d[i]]] == d[i] && rpoIndex[rpo[i]] == i;
    forall a: nat | a != rpo[i] && Dominates(blocks, entry, a, rpo[i]) ensures Dominates(blocks, entry, a, rpo[d[i]]) {
      ReachableInRange(blocks, entry, a);
      var x := rpoIndex[a];
      DominatesIffDom(blocks, entry, rpo, rpoIndex, I, x, i);
      assert Above(d, x, i) && x != i;
      assert Above(d, x, d[i]);
      DominatesIffDom(blocks, entry, rpo, rpoIndex, I, x, d[i]);
    }
  }

  // ------------------------------------------------ from the search to the order

  lemma FinishedClosed(blocks: seq<BasicBlock>, entry: BlockId, s: P.Search, a: nat, b: nat)
    requires EdgesValid(blocks) && P.Finished(blocks, entry, s) && a < |blocks| && s.state[a] == 2 && b < |blocks| && IsEdge(blocks, a, b)
    ensures s.state[b] == 2 && ((a, b) in s.retreating || s.fin[b] < s.fin[a])
  {
    var e :| e in blocks[a].succs && e.to == b;
    var k :| 0 <= k < |blocks[a].succs| && blocks[a].succs[k] == e;
    assert P.Seen(blocks, entry, s, a, blocks[a].succs[k].to);
  }

  lemma FinishedReachable(blocks: seq<BasicBlock>, entry: BlockId, s: P.Search, b: nat)
    requires EdgesValid(blocks) && P.Finished(blocks, entry, s) && b < |blocks|
    ensures Reachable(blocks, entry, b) <==> s.state[b] == 2
  {
    assert s.state[b] != 1;
    var done := set v: nat | v < |blocks| && s.state[v] == 2;
    forall x: nat, y: nat | x in done && y < |blocks| && IsEdge(blocks, x, y) ensures y in done {
      FinishedClosed(blocks, entry, s, x, y);
    }
    if Reachable(blocks, entry, b) {
      var w :| Path(blocks, entry, w) && Last(w, b);
      ClosedHoldsPath(blocks, entry, done, w);
    }
  }

  /** rpoIndex, filled as dom.ts:50-51 fills it. */
  method IndexOrder(blocks: seq<BasicBlock>, entry: BlockId, rpo: seq<BlockId>, ghost s: P.Search) returns (rpoIndex: seq<int>)
    requires EdgesValid(blocks) && P.Finished(blocks, entry, s) && rpo == Reversed(s.order)
    ensures Indexing(blocks, entry, rpo, rpoIndex)
    ensures forall b :: 0 <= b < |blocks| && s.state[b] == 2 ==> rpoIndex[b] == |rpo| - 1 - s.fin[b]
  {
    var index := new int[|blocks|](i => -1);
    for i := 0 to |rpo|
      invariant forall b :: 0 <= b < |blocks| ==>
        index[b] == if s.state[b] == 2 && |rpo| - 1 - s.fin[b] < i then |rpo| - 1 - s.fin[b] else -1
    {
      assert rpo[i] == s.order[|rpo| - 1 - i];
      index[rpo[i]] := i;
    }
    rpoIndex := index[..];
    IndexIsRight(blocks, entry, rpo, s, rpoIndex);
  }

  /** Every reached block sits at its place in the reversed post-order. */
  lemma IndexIsRight(blocks: seq<BasicBlock>, entry: BlockId, rpo: seq<BlockId>, s: P.Search, rpoIndex: seq<int>)
    requires EdgesValid(blocks) && P.Finished(blocks, entry, s) && rpo == Reversed(s.order) && |rpoIndex| == |blocks|
    requires forall b :: 0 <= b < |blocks| ==> rpoIndex[b] == if s.state[b] == 2 then |rpo| - 1 - s.fin[b] else -1
    ensures Indexing(blocks, entry, rpo, rpoIndex)
  {
    forall i | 0 <= i < |rpo| ensures rpo[i] < |blocks| && rpoIndex[rpo[i]] == i {
      assert rpo[i] == s.order[|rpo| - 1 - i];
    }
    forall b: nat | b < |blocks| ensures Reachable(blocks, entry, b) <==> rpoIndex[b] >= 0 {
      FinishedReachable(blocks, entry, s, b);
    }
  }

  /** The search tree, in indices: every block but the entry has a predecessor before it. */
  lemma SearchTree(blocks: seq<BasicBlock>, entry: BlockId, s: P.Search, rpo: seq<BlockId>, rpoIndex: seq<int>, I: seq<seq<nat>>)
    returns (t: seq<int>)
    requires PredsReverse(blocks) && P.Finished(blocks, entry, s) && rpo == Reversed(s.order)
    requires Indexing(blocks, entry, rpo, rpoIndex) && Indexed(blocks, rpo, rpoIndex, I)
    requires forall b :: 0 <= b < |blocks| && s.state[b] == 2 ==> rpoIndex[b] == |rpo| - 1 - s.fin[b]
    ensures IsTree(I, t)
  {
    t := [0];
    while |t| < |rpo|
      invariant 1 <= |t| <= |rpo| && t[0] == 0
      invariant forall i :: 1 <= i < |t| ==> 0 <= t[i] < i && t[i] in I[i]
    {
      var x := TreeParent(blocks, entry, s, rpo, rpoIndex, I, |t|);
      t := t + [x];
    }
  }

  /** The search-tree parent of the i-th block. */
  lemma TreeParent(blocks: seq<BasicBlock>, entry: BlockId, s: P.Search, rpo: seq<BlockId>, rpoIndex: seq<int>, I: seq<seq<nat>>, i: nat)
    returns (x: nat)
    requires PredsReverse(blocks) && P.Finished(blocks, entry, s) && rpo == Reversed(s.order)
    requires Indexing(blocks, entry, rpo, rpoIndex) && Indexed(blocks, rpo, rpoIndex, I) && 1 <= i < |rpo|
    requires forall b :: 0 <= b < |blocks| && s.state[b] == 2 ==> rpoIndex[b] == |rpo| - 1 - s.fin[b]
    ensures x < i && i < |I| && x in I[i]
  {
    var v := rpo[i];
    assert v == s.order[|rpo| - 1 - i] && v != entry;
    assert P.TreeAt(blocks, entry, s, v);
    x := rpoIndex[s.par[v]];
    IndexedEdge(blocks, entry, rpo, rpoIndex, I, x, i);
  }

  // ------------------------------------------------------- the tree

  /** idom and the child lists after the links of the first i blocks have been read off. */
  ghost predicate TreeSoFar(rpo: seq<BlockId>, rpoIndex: seq<int>, d: seq<int>, i: nat, idom: seq<Option<BlockId>>,
                            children: seq<seq<BlockId>>, pos: seq<nat>)
    requires |rpo| == |d| && forall j :: 1 <= j < |d| ==> 0 <= d[j] < j
  {
    && |idom| == |children| == |pos| == |rpoIndex|
    && (forall b :: 0 <= b < |rpoIndex| ==>
          idom[b] == if 1 <= rpoIndex[b] < i && rpoIndex[b] < |rpo| then Some(rpo[d[rpoIndex[b]]]) else None)
    && (forall p, k :: 0 <= p < |children| && 0 <= k < |children[p]| ==>
          children[p][k] < |idom| && idom[children[p][k]] == Some(p) && pos[children[p][k]] == k)
    && (forall b :: 0 <= b < |idom| && idom[b].Some? && idom[b].value < |children| ==>
          pos[b] < |children[idom[b].value]| && children[idom[b].value][pos[b]] == b)
    && (forall p, j, k :: 0 <= p < |children| && 0 <= j < k < |children[p]| && children[p][j] < |rpoIndex| && children[p][k] < |rpoIndex| ==>
          rpoIndex[children[p][j]] < rpoIndex[children[p][k]])
  }

  /** idom and children (dom.ts:94-103). The lists come out in rpo order, so the sort there is the identity. */
  method BuildTree(blocks: seq<BasicBlock>, entry: BlockId, rpo: seq<BlockId>, rpoIndex: seq<int>, d: seq<int>)
    returns (idom: seq<Option<BlockId>>, children: seq<seq<BlockId>>, ghost pos: seq<nat>)
    requires Indexing(blocks, entry, rpo, rpoIndex) && |d| == |rpo| && forall j :: 1 <= j < |d| ==> 0 <= d[j] < j
    ensures TreeSoFar(rpo, rpoIndex, d, |rpo|, idom, children, pos)
  {
    var n := |blocks|;
    idom, children, pos := seq(n, i => None), seq(n, i => []), seq(n, i => 0);
    for i := 1 to |rpo|
      invariant TreeSoFar(rpo, rpoIndex, d, i, idom, children, pos)
    {
      var b := rpo[i];
      var parent := rpo[d[i]];
      TreeStep(blocks, entry, rpo, rpoIndex, d, i, idom, children, pos);
      pos := pos[b := |children[parent]|];
      idom := idom[b := Some(parent)];
      children := children[parent := children[parent] + [b]];
    }
  }

  lemma TreeStep(blocks: seq<BasicBlock>, entry: BlockId, rpo: seq<BlockId>, rpoIndex: seq<int>, d: seq<int>, i: nat,
                 idom: seq<Option<BlockId>>, children: seq<seq<BlockId>>, pos: seq<nat>)
    requires Indexing(blocks, entry, rpo, rpoIndex) && |d| == |rpo| && forall j :: 1 <= j < |d| ==> 0 <= d[j] < j
    requires 1 <= i < |rpo| && TreeSoFar(rpo, rpoIndex, d, i, idom, children, pos)
    ensures var b, parent := rpo[i], rpo[d[i]];
            TreeSoFar(rpo, rpoIndex, d, i + 1, idom[b := Some(parent)], children[parent := children[parent] + [b]], pos[b := |children[parent]|])
  {
  }

  ghost function TreeOf(entry: BlockId, rpo: seq<BlockId>, rpoIndex: seq<int>, idom: seq<Option<BlockId>>,
                        children: seq<seq<BlockId>>, pos: seq<nat>): T.Tree
  {
    T.Tree(children, entry, seq(|idom|, b requires 0 <= b < |idom| => if idom[b].Some? then idom[b].value else 0), pos, rpoIndex)
  }

  lemma TreeIsValid(blocks: seq<BasicBlock>, entry: BlockId, rpo: seq<BlockId>, rpoIndex: seq<int>, d: seq<int>,
                    idom: seq<Option<BlockId>>, children: seq<seq<BlockId>>, pos: seq<nat>)
    requires Indexing(blocks, entry, rpo, rpoIndex) && |d| == |rpo| && forall j :: 1 <= j < |d| ==> 0 <= d[j] < j
    requires TreeSoFar(rpo, rpoIndex, d, |rpo|, idom, children, pos)
    ensures T.ValidTree(TreeOf(entry, rpo, rpoIndex, idom, children, pos))
  {
    var t := TreeOf(entry, rpo, rpoIndex, idom, children, pos);
    assert rpoIndex[rpo[0]] == 0;
    forall p, k | 0 <= p < |children| && 0 <= k < |children[p]| ensures T.IsChild(t, p, k) {
      var c := children[p][k];
      assert idom[c] == Some(p);
    }
    forall c | 0 <= c < |t.rank| && 0 <= t.rank[c] && c != t.entry ensures T.Hangs(t, c) {
      assert rpo[rpoIndex[c]] == c && rpoIndex[c] != 0;
      assert idom[c].Some?;
    }
  }

  /** Ancestry in the tree is the chain of the links. */
  lemma {:induction false} AncestorIffAbove(blocks: seq<BasicBlock>, rpo: seq<BlockId>, rpoIndex: seq<int>, d: seq<int>, entry: BlockId,
                                            idom: seq<Option<BlockId>>, children: seq<seq<BlockId>>, pos: seq<nat>, a: nat, b: nat)
    requires Indexing(blocks, entry, rpo, rpoIndex) && |d| == |rpo| && Linked(d) && forall j :: 1 <= j < |d| ==> 0 <= d[j] < j
    requires TreeSoFar(rpo, rpoIndex, d, |rpo|, idom, children, pos)
    requires T.ValidTree(TreeOf(entry, rpo, rpoIndex, idom, children, pos))
    requires a < |blocks| && b < |blocks| && rpoIndex[a] >= 0 && rpoIndex[b] >= 0
    ensures T.Ancestor(TreeOf(entry, rpo, rpoIndex, idom, children, pos), a, b) <==> Above(d, rpoIndex[a], rpoIndex[b])
    decreases rpoIndex[b]
  {
    var t := TreeOf(entry, rpo, rpoIndex, idom, children, pos);
    if a != b {
      assert rpo[rpoIndex[a]] == a && rpo[rpoIndex[b]] == b;
      if b == entry {
        assert rpoIndex[b] == 0;
      } else {
        assert T.Hangs(t, b);
        assert rpoIndex[b] != 0 && idom[b].Some?;
        AncestorIffAbove(blocks, rpo, rpoIndex, d, entry, idom, children, pos, a, idom[b].value);
      }
    }
  }

  // ------------------------------------------------- back edges, reducibility

  predicate PairLe(x: (BlockId, BlockId), y: (BlockId, BlockId)) {
    x.0 < y.0 || (x.0 == y.0 && x.1 <= y.1)
  }

  /** e jumps back to a block that dominates its source. */
  ghost predicate IsBackEdge(blocks: seq<BasicBlock>, entry: BlockId, e: (BlockId, BlockId)) {
    IsEdge(blocks, e.0, e.1) && Dominates(blocks, entry, e.1, e.0)
  }

  ghost predicate QueryRight(blocks: seq<BasicBlock>, entry: BlockId, dom: DominatorTree) {
    && |dom.tin| == |dom.tout| == |blocks|
    && forall a: nat, b: nat {:trigger dom.DominatesQuery(a, b)} {:trigger Dominates(blocks, entry, a, b)} ::
         a < |blocks| && b < |blocks| ==> (dom.DominatesQuery(a, b) <==> Dominates(blocks, entry, a, b))
  }

  method BackEdges(blocks: seq<BasicBlock>, entry: BlockId, dom: DominatorTree) returns (backEdges: seq<(BlockId, BlockId)>)
    requires EdgesValid(blocks) && QueryRight(blocks, entry, dom)
    ensures Sorted(backEdges, PairLe)
    ensures forall e :: e in backEdges <==> IsBackEdge(blocks, entry, e)
    ensures forall e: (BlockId, BlockId) {:trigger multiset(backEdges)[e]} :: multiset(backEdges)[e] == BackEdgeCount(blocks, entry, e)
  {
    var found := FindBackEdges(blocks, entry, dom);
    SortSorted(found, PairLe);
    backEdges := Sort(found, PairLe);
    forall e: (BlockId, BlockId) ensures e in backEdges <==> IsBackEdge(blocks, entry, e) {
      assert e in backEdges <==> multiset(backEdges)[e] > 0;
      BackEdgeCounted(blocks, entry, e);
    }
  }

  /** How many of the first n edges go to t. */
  ghost function CountTo(succs: seq<Edge>, n: nat, t: BlockId): (c: nat)
    requires n <= |succs|
    ensures c > 0 <==> exists j :: 0 <= j < n && succs[j].to == t
  {
    if n == 0 then 0 else CountTo(succs, n - 1, t) + if succs[n - 1].to == t then 1 else 0
  }

  /** How often a pair is listed: once for every edge it stands for, if its target dominates its
      source. */
  ghost function BackEdgeCount(blocks: seq<BasicBlock>, entry: BlockId, e: (BlockId, BlockId)): nat {
    if e.0 < |blocks| && Dominates(blocks, entry, e.1, e.0) then CountTo(blocks[e.0].succs, |blocks[e.0].succs|, e.1) else 0
  }

  lemma BackEdgeCounted(blocks: seq<BasicBlock>, entry: BlockId, e: (BlockId, BlockId))
    requires EdgesValid(blocks)
    ensures BackEdgeCount(blocks, entry, e) > 0 <==> IsBackEdge(blocks, entry, e)
  {
    if e.0 < |blocks| {
      if j :| 0 <= j < |blocks[e.0].succs| && blocks[e.0].succs[j].to == e.1 { assert blocks[e.0].succs[j] in blocks[e.0].succs; }
    }
  }

  ghost predicate FoundTo(blocks: seq<BasicBlock>, entry: BlockId, b: nat, found: seq<(BlockId, BlockId)>) {
    forall e: (BlockId, BlockId) {:trigger multiset(found)[e]} :: multiset(found)[e] == if e.0 < b then BackEdgeCount(blocks, entry, e) else 0
  }

  /** ... and from the first k edges of block b. */
  ghost function FoundAt(blocks: seq<BasicBlock>, entry: BlockId, b: nat, k: nat, before: seq<(BlockId, BlockId)>, e: (BlockId, BlockId)): nat
    requires b < |blocks| && k <= |blocks[b].succs|
  {
    multiset(before)[e] + if e.0 == b && Dominates(blocks, entry, e.1, b) then CountTo(blocks[b].succs, k, e.1) else 0
  }

  method FindBackEdges(blocks: seq<BasicBlock>, entry: BlockId, dom: DominatorTree) returns (found: seq<(BlockId, BlockId)>)
    requires EdgesValid(blocks) && QueryRight(blocks, entry, dom)
    ensures forall e: (BlockId, BlockId) {:trigger multiset(found)[e]} :: multiset(found)[e] == BackEdgeCount(blocks, entry, e)
  {
    found := [];
    for b := 0 to |blocks|
      invariant FoundTo(blocks, entry, b, found)
    {
      ghost var before := found;
      for k := 0 to |blocks[b].succs|
        invariant forall e: (BlockId, BlockId) {:trigger multiset(found)[e]} :: multiset(found)[e] == FoundAt(blocks, entry, b, k, before, e)
      {
        var e := blocks[b].succs[k];
        assert e in blocks[b].succs;
        if dom.DominatesQuery(e.to, e.from) { found := found + [(e.from, e.to)]; }
      }
    }
  }

  /** A path along edges none of which is a back edge. */
  ghost predicate ForwardPath(blocks: seq<BasicBlock>, entry: BlockId, w: seq<BlockId>) {
    && |w| > 0 && Reachable(blocks, entry, w[|w| - 1])
    && (|w| > 1 ==>
          var e := (w[|w| - 2], w[|w| - 1]);
          ForwardPath(blocks, entry, w[..|w| - 1]) && IsEdge(blocks, e.0, e.1) && !Dominates(blocks, entry, e.1, e.0))
  }

  /** Every cycle of reachable blocks goes through a back edge. */
  ghost predicate Reducible(blocks: seq<BasicBlock>, entry: BlockId) {
    forall w :: |w| > 1 && w[0] == w[|w| - 1] ==> !ForwardPath(blocks, entry, w)
  }

  lemma {:induction false} ForwardPathFinishes(blocks: seq<BasicBlock>, entry: BlockId, s: P.Search, w: seq<BlockId>)
    requires EdgesValid(blocks) && P.Finished(blocks, entry, s) && ForwardPath(blocks, entry, w)
    requires forall e :: e in s.retreating ==> IsBackEdge(blocks, entry, e)
    ensures w[0] < |blocks| && w[|w| - 1] < |blocks| && s.fin[w[|w| - 1]] <= s.fin[w[0]]
    ensures |w| > 1 ==> s.fin[w[|w| - 1]] < s.fin[w[0]]
    decreases |w|
  {
    var a := w[|w| - 1];
    ReachableInRange(blocks, entry, a);
    if |w| > 1 {
      ForwardPathFinishes(blocks, entry, s, w[..|w| - 1]);
      var b := w[|w| - 2];
      assert Reachable(blocks, entry, w[..|w| - 1][|w| - 2]);
      FinishedReachable(blocks, entry, s, b);
      FinishedClosed(blocks, entry, s, b, a);
    }
  }

  /** A dominator finishes after what it dominates. */
  ghost predicate DominatorsFinishLater(blocks: seq<BasicBlock>, entry: BlockId, s: P.Search)
    requires |s.fin| == |blocks|
  {
    forall a: nat, b: nat :: a < |blocks| && b < |blocks| && Dominates(blocks, entry, a, b) ==> s.fin[b] <= s.fin[a]
  }

  lemma {:induction false} TreePathForward(blocks: seq<BasicBlock>, entry: BlockId, s: P.Search, q: seq<BlockId>)
    requires EdgesValid(blocks) && P.Finished(blocks, entry, s) && DominatorsFinishLater(blocks, entry, s)
    requires P.TreePath(entry, s, q)
    ensures ForwardPath(blocks, entry, q)
    decreases |q|
  {
    var c := q[|q| - 1];
    assert Reachable(blocks, entry, c);
    if |q| > 1 {
      TreePathForward(blocks, entry, s, q[..|q| - 1]);
      assert P.TreeAt(blocks, entry, s, c);
    }
  }

  /** A retreating edge that is no back edge closes a cycle of forward edges. */
  lemma RetreatIsBackEdge(blocks: seq<BasicBlock>, entry: BlockId, s: P.Search, e: (BlockId, BlockId))
    requires EdgesValid(blocks) && P.Finished(blocks, entry, s) && DominatorsFinishLater(blocks, entry, s)
    requires Reducible(blocks, entry) && e in s.retreating
    ensures IsBackEdge(blocks, entry, e)
  {
    assert P.Retreat(blocks, entry, s, e.0, e.1);
    var q :| P.TreePath(entry, s, q) && q[0] == e.1 && Last(q, e.0);
    TreePathForward(blocks, entry, s, q);
    var w := q + [e.1];
    assert w[..|w| - 1] == q && w[0] == w[|w| - 1];
    RetreatTargetReachable(blocks, entry, s, q);
    assert !ForwardPath(blocks, entry, w);
  }

  /** The flag dom.ts computes from the search is reducibility. */
  lemma ReducibleIff(blocks: seq<BasicBlock>, entry: BlockId, s: P.Search)
    requires EdgesValid(blocks) && P.Finished(blocks, entry, s) && DominatorsFinishLater(blocks, entry, s)
    ensures Reducible(blocks, entry) <==> forall e :: e in s.retreating ==> IsBackEdge(blocks, entry, e)
  {
    if forall e :: e in s.retreating ==> IsBackEdge(blocks, entry, e) {
      forall w | |w| > 1 && w[0] == w[|w| - 1] ensures !ForwardPath(blocks, entry, w) {
        if ForwardPath(blocks, entry, w) { ForwardPathFinishes(blocks, entry, s, w); }
      }
    }
    if Reducible(blocks, entry) {
      forall e | e in s.retreating ensures IsBackEdge(blocks, entry, e) { RetreatIsBackEdge(blocks, entry, s, e); }
    }
  }

  lemma {:induction false} RetreatTargetReachable(blocks: seq<BasicBlock>, entry: BlockId, s: P.Search, q: seq<BlockId>)
    requires P.Finished(blocks, entry, s) && P.TreePath(entry, s, q)
    ensures Reachable(blocks, entry, q[0])
    decreases |q|
  {
    if |q| > 1 { RetreatTargetReachable(blocks, entry, s, q[..|q| - 1]); }
  }

  // ------------------------------------------------------------ the whole thing

  /** Everything dom.ts promises about its result. */
  ghost predicate Correct(blocks: seq<BasicBlock>, entry: BlockId, r: DomResult) {
    && QueryRight(blocks, entry, r.dom)
    && IdomsRight(blocks, entry, r.dom.idom)
    && ChildrenRight(r.dom) && ChildrenInOrder(r.rpo, r.dom.children)
    && PreorderRight(blocks, entry, r.dom.preorder) && DepthFirst(blocks, entry, r.dom.children, r.dom.preorder)
    && PairsAscend(r.dom.backEdges) && (forall e :: e in r.dom.backEdges <==> IsBackEdge(blocks, entry, e))
    && (forall e: (BlockId, BlockId) {:trigger multiset(r.dom.backEdges)[e]} :: multiset(r.dom.backEdges)[e] == BackEdgeCount(blocks, entry, e))
    && (r.reducible <==> Reducible(blocks, entry))
    && OrderRight(blocks, entry, r.rpo)
    && UnreachableRight(blocks, entry, r.unreachable)
  }

  /** The child lists invert idom. */
  ghost predicate ChildrenRight(dom: DominatorTree) {
    && |dom.children| == |dom.idom|
    && (forall p, c :: 0 <= p < |dom.children| && c in dom.children[p] ==> c < |dom.idom| && dom.idom[c] == Some(p))
    && (forall c :: 0 <= c < |dom.idom| && dom.idom[c].Some? ==> dom.idom[c].value < |dom.children| && c in dom.children[dom.idom[c].value])
    && (forall p, j, k :: 0 <= p < |dom.children| && 0 <= j < k < |dom.children[p]| ==> dom.children[p][j] != dom.children[p][k])
  }

  /** By source, and for one source by target. */
  ghost predicate PairsAscend(es: seq<(BlockId, BlockId)>) {
    forall j, k :: 0 <= j < k < |es| ==> es[j].0 < es[k].0 || (es[j].0 == es[k].0 && es[j].1 <= es[k].1)
  }

  /** Children come in reverse postorder. */
  ghost predicate ChildrenInOrder(rpo: seq<BlockId>, children: seq<seq<BlockId>>) {
    forall p: nat, j: nat, k: nat {:trigger children[p][j], children[p][k]} :: p < |children| && j < k < |children[p]| ==> Earlier(rpo, children[p][j], children[p][k])
  }

  ghost predicate Earlier(rpo: seq<BlockId>, x: BlockId, y: BlockId) {
    exists a, b :: 0 <= a < b < |rpo| && rpo[a] == x && rpo[b] == y
  }

  /** Of two children, all that the first dominates is listed before anything the second does. */
  ghost predicate DepthFirst(blocks: seq<BasicBlock>, entry: BlockId, children: seq<seq<BlockId>>, preorder: seq<BlockId>) {
    forall p: nat, j: nat, k: nat {:trigger children[p][j], children[p][k]} :: p < |children| && j < k < |children[p]| ==>
      SubtreeFirst(blocks, entry, children[p][j], children[p][k], preorder)
  }

  ghost predicate SubtreeFirst(blocks: seq<BasicBlock>, entry: BlockId, x: BlockId, y: BlockId, preorder: seq<BlockId>) {
    forall a, b {:trigger preorder[a], preorder[b]} :: 0 <= a < |preorder| && 0 <= b < |preorder| ==>
      (Dominates(blocks, entry, x, preorder[a]) && Dominates(blocks, entry, y, preorder[b]) ==> a < b)
  }

  /** The reachable blocks, once each, every dominator before what it dominates. */
  ghost predicate PreorderRight(blocks: seq<BasicBlock>, entry: BlockId, preorder: seq<BlockId>) {
    && (forall b: nat :: b in preorder <==> Reachable(blocks, entry, b))
    && forall j, k :: 0 <= j < k < |preorder| ==> !Dominates(blocks, entry, preorder[k], preorder[j])
  }

  /** The reachable blocks, once each, entry first, every dominator before what it dominates. */
  ghost predicate OrderRight(blocks: seq<BasicBlock>, entry: BlockId, rpo: seq<BlockId>) {
    |rpo| > 0 && rpo[0] == entry && PreorderRight(blocks, entry, rpo)
  }

  ghost predicate UnreachableRight(blocks: seq<BasicBlock>, entry: BlockId, unreachable: seq<BlockId>) {
    && (forall b: nat :: b in unreachable <==> b < |blocks| && !Reachable(blocks, entry, b))
    && forall j, k :: 0 <= j < k < |unreachable| ==> unreachable[j] < unreachable[k]
  }

  method Unreached(blocks: seq<BasicBlock>, entry: BlockId, rpo: seq<BlockId>, rpoIndex: seq<int>) returns (unreachable: seq<BlockId>)
    requires Indexing(blocks, entry, rpo, rpoIndex)
    ensures UnreachableRight(blocks, entry, unreachable)
  {
    unreachable := [];
    for b := 0 to |blocks|
      invariant forall x: nat :: x in unreachable <==> x < b && rpoIndex[x] == -1
      invariant forall j, k :: 0 <= j < k < |unreachable| ==> unreachable[j] < unreachable[k]
    {
      if rpoIndex[b] == -1 {
        assert forall j :: 0 <= j < |unreachable| ==> unreachable[j] in unreachable;
        unreachable := unreachable + [b];
      }
    }
    forall b: nat ensures b in unreachable <==> b < |blocks| && !Reachable(blocks, entry, b) {
      if b < |blocks| { assert Reachable(blocks, entry, b) <==> rpoIndex[b] >= 0; }
    }
  }

  /** The links at a normal exit of the iteration: initialised, iterated, exact. The cap
      of dom.ts:75-77 is the None case; it never happens. */
  method Iterate(blocks: seq<BasicBlock>, rpo: seq<BlockId>, rpoIndex: seq<int>, ghost I: seq<seq<nat>>, ghost t: seq<int>)
    returns (r: Option<seq<int>>)
    requires Indexed(blocks, rpo, rpoIndex, I) && Ordered(I) && IsTree(I, t)
    ensures r.Some? && Linked(r.value) && Exact(I, r.value) && forall j :: 0 <= j < |r.value| ==> r.value[j] != -1
  {
    var idomIdx := new int[|rpo|](i => -1);
    idomIdx[0] := 0;
    IterationStarts(I, t, idomIdx[..]);
    var changed := true;
    var iterations := 0;
    while changed
      invariant Iterating(I, t, idomIdx[..], 1, iterations)
      invariant 0 <= iterations <= |rpo| + 1 && (iterations == |rpo| + 1 ==> !changed)
      invariant !changed ==> Settled(I, idomIdx[..], |rpo|)
      decreases |rpo| + 1 - iterations, changed
    {
      iterations := iterations + 1;
      if iterations > |rpo| + 2 { return None; }
      changed := Pass(blocks, rpo, rpoIndex, idomIdx, I, t, iterations - 1);
    }
    SettledIsExact(I, t, idomIdx[..], iterations);
    r := Some(idomIdx[..]);
  }

  lemma IterationStarts(I: seq<seq<nat>>, t: seq<int>, d: seq<int>)
    requires Ordered(I) && IsTree(I, t) && |d| == |I| && d[0] == 0 && forall i :: 1 <= i < |d| ==> d[i] == -1
    ensures Iterating(I, t, d, 1, 0)
  {
    forall a: nat | Dom(I, a, 0) ensures Above(d, a, 0) {
      assert Walk(I, [0]) && Last([0], 0);
      assert a in [0];
    }
    forall a: nat, w | Above(d, a, 0) && Walk(I, w) && Last(w, 0) && Retreats(w) < 1 ensures a in w {
      WalkStartsAtRoot(I, w);
      AboveSmaller(d, a, 0);
    }
    assert Pinned(I, d, 0, 1);
  }

  lemma SettledIsExact(I: seq<seq<nat>>, t: seq<int>, d: seq<int>, r: nat)
    requires Iterating(I, t, d, 1, r) && Settled(I, d, |I|)
    ensures Exact(I, d) && forall j :: 0 <= j < |d| ==> d[j] != -1
  {
    forall j: nat | 1 <= j < |d| ensures d[j] != -1 && Meet(d, I[j], d[j]) {
      assert I[j] == I[j];
    }
    FixpointIsExact(I, d);
  }

  /** The exact links of the indexed graph: what the iteration hands to the tree. */
  ghost predicate Solved(blocks: seq<BasicBlock>, entry: BlockId, rpo: seq<BlockId>, rpoIndex: seq<int>, I: seq<seq<nat>>, d: seq<int>) {
    && PredsReverse(blocks) && Indexing(blocks, entry, rpo, rpoIndex) && Indexed(blocks, rpo, rpoIndex, I)
    && Linked(d) && Exact(I, d) && (forall j :: 0 <= j < |d| ==> d[j] != -1) && (forall j :: 1 <= j < |d| ==> 0 <= d[j] < j)
  }

  /** Interval containment in the numbered tree is dominance. */
  lemma QueryIsDominance(blocks: seq<BasicBlock>, entry: BlockId, rpo: seq<BlockId>, rpoIndex: seq<int>, I: seq<seq<nat>>, d: seq<int>,
                         idom: seq<Option<BlockId>>, children: seq<seq<BlockId>>, pos: seq<nat>, s: T.Clocked, dom: DominatorTree)
    requires Solved(blocks, entry, rpo, rpoIndex, I, d) && TreeSoFar(rpo, rpoIndex, d, |rpo|, idom, children, pos)
    requires T.ValidTree(TreeOf(entry, rpo, rpoIndex, idom, children, pos))
    requires T.Numbered(TreeOf(entry, rpo, rpoIndex, idom, children, pos), s) && dom.tin == s.tin && dom.tout == s.tout
    ensures QueryRight(blocks, entry, dom)
  {
    var t := TreeOf(entry, rpo, rpoIndex, idom, children, pos);
    forall a: nat, b: nat | a < |blocks| && b < |blocks| ensures dom.DominatesQuery(a, b) <==> Dominates(blocks, entry, a, b) {
      assert Reachable(blocks, entry, a) <==> rpoIndex[a] >= 0;
      assert Reachable(blocks, entry, b) <==> rpoIndex[b] >= 0;
      if rpoIndex[a] >= 0 && rpoIndex[b] >= 0 {
        T.AllVisited(t, s, a);
        T.AllVisited(t, s, b);
        T.WithinIffAncestor(t, s, a, b);
        AncestorIffAbove(blocks, rpo, rpoIndex, d, entry, idom, children, pos, a, b);
        DominatesIffDom(blocks, entry, rpo, rpoIndex, I, rpoIndex[a], rpoIndex[b]);
        assert Above(d, rpoIndex[a], rpoIndex[b]) <==> Dom(I, rpoIndex[a], rpoIndex[b]);
      }
    }
  }

  lemma TreeIsRight(blocks: seq<BasicBlock>, entry: BlockId, rpo: seq<BlockId>, rpoIndex: seq<int>, I: seq<seq<nat>>, d: seq<int>,
                    idom: seq<Option<BlockId>>, children: seq<seq<BlockId>>, pos: seq<nat>)
    requires Solved(blocks, entry, rpo, rpoIndex, I, d) && TreeSoFar(rpo, rpoIndex, d, |rpo|, idom, children, pos)
    ensures IdomsRight(blocks, entry, idom)
  {
    forall b: nat | b < |blocks| ensures match idom[b] case Some(x) => IsIdom(blocks, entry, x, b)
                                                     case None => b == entry || !Reachable(blocks, entry, b) {
      assert Reachable(blocks, entry, b) <==> rpoIndex[b] >= 0;
      if rpoIndex[b] > 0 {
        assert rpo[rpoIndex[b]] == b;
        ExactGivesIdom(blocks, entry, rpo, rpoIndex, I, d, rpoIndex[b]);
      }
      if rpoIndex[b] == 0 { assert rpo[0] == b; }
    }
  }

  /** Dominators come earlier in the reverse postorder. */
  lemma DominatorsFirst(blocks: seq<BasicBlock>, entry: BlockId, rpo: seq<BlockId>, rpoIndex: seq<int>, I: seq<seq<nat>>, d: seq<int>, a: nat, b: nat)
    requires Solved(blocks, entry, rpo, rpoIndex, I, d) && Dominates(blocks, entry, a, b)
    ensures a < |blocks| && b < |blocks| && 0 <= rpoIndex[a] <= rpoIndex[b]
  {
    ReachableInRange(blocks, entry, a);
    ReachableInRange(blocks, entry, b);
    DominatesIffDom(blocks, entry, rpo, rpoIndex, I, rpoIndex[a], rpoIndex[b]);
    assert Above(d, rpoIndex[a], rpoIndex[b]);
    AboveSmaller(d, rpoIndex[a], rpoIndex[b]);
  }

  lemma OrderIsRight(blocks: seq<BasicBlock>, entry: BlockId, rpo: seq<BlockId>, rpoIndex: seq<int>, I: seq<seq<nat>>, d: seq<int>)
    requires Solved(blocks, entry, rpo, rpoIndex, I, d)
    ensures OrderRight(blocks, entry, rpo)
  {
    forall b: nat ensures b in rpo <==> Reachable(blocks, entry, b) {
      if b in rpo { assert b < |blocks| && rpoIndex[b] >= 0; }
      if Reachable(blocks, entry, b) {
        ReachableInRange(blocks, entry, b);
        assert rpo[rpoIndex[b]] == b;
      }
    }
    forall j, k | 0 <= j < k < |rpo| ensures !Dominates(blocks, entry, rpo[k], rpo[j]) {
      if Dominates(blocks, entry, rpo[k], rpo[j]) { DominatorsFirst(blocks, entry, rpo, rpoIndex, I, d, rpo[k], rpo[j]); }
    }
  }

  lemma PreorderIsRight(blocks: seq<BasicBlock>, entry: BlockId, rpo: seq<BlockId>, rpoIndex: seq<int>, t: T.Tree, s: T.Clocked, dom: DominatorTree)
    requires Indexing(blocks, entry, rpo, rpoIndex) && T.ValidTree(t) && T.Numbered(t, s) && t.rank == rpoIndex
    requires dom.tin == s.tin && dom.tout == s.tout && QueryRight(blocks, entry, dom)
    ensures PreorderRight(blocks, entry, s.preorder)
  {
    forall b: nat ensures b in s.preorder <==> Reachable(blocks, entry, b) {
      if Reachable(blocks, entry, b) {
        ReachableInRange(blocks, entry, b);
        T.AllVisited(t, s, b);
      }
      if b in s.preorder { assert b < |blocks| && s.tin[b] != -1; }
    }
    forall j, k | 0 <= j < k < |s.preorder| ensures !Dominates(blocks, entry, s.preorder[k], s.preorder[j]) {
      assert s.preorder[k] < |blocks| && s.preorder[j] < |blocks|;
      assert dom.DominatesQuery(s.preorder[k], s.preorder[j]) <==> Dominates(blocks, entry, s.preorder[k], s.preorder[j]);
    }
  }

  lemma PreorderIsDepthFirst(blocks: seq<BasicBlock>, entry: BlockId, t: T.Tree, s: T.Clocked, dom: DominatorTree)
    requires T.ValidTree(t) && T.Numbered(t, s) && t.children == dom.children
    requires dom.tin == s.tin && dom.tout == s.tout && QueryRight(blocks, entry, dom)
    ensures DepthFirst(blocks, entry, dom.children, s.preorder)
  {
    forall p: nat, j: nat, k: nat | p < |dom.children| && j < k < |dom.children[p]|
      ensures SubtreeFirst(blocks, entry, dom.children[p][j], dom.children[p][k], s.preorder)
    {
      T.ChildrenApart(t, s, p, j, k);
      ApartIsFirst(blocks, entry, s, dom, dom.children[p][j], dom.children[p][k]);
    }
  }

  lemma ApartIsFirst(blocks: seq<BasicBlock>, entry: BlockId, s: T.Clocked, dom: DominatorTree, x: BlockId, y: BlockId)
    requires T.Listed(s) && dom.tin == s.tin && |s.tin| == |s.tout| && dom.tout == s.tout && QueryRight(blocks, entry, dom)
    requires x < |blocks| && y < |blocks| && s.tout[x] < s.tin[y]
    requires forall v :: 0 <= v < |s.tin| && s.tin[v] != -1 ==> s.tin[v] <= s.tout[v]
    ensures SubtreeFirst(blocks, entry, x, y, s.preorder)
  {
    forall a, b | 0 <= a < |s.preorder| && 0 <= b < |s.preorder| && Dominates(blocks, entry, x, s.preorder[a]) && Dominates(blocks, entry, y, s.preorder[b])
      ensures a < b
    {
      assert dom.DominatesQuery(x, s.preorder[a]) && dom.DominatesQuery(y, s.preorder[b]);
    }
  }

  lemma FinishLater(blocks: seq<BasicBlock>, entry: BlockId, rpo: seq<BlockId>, rpoIndex: seq<int>, I: seq<seq<nat>>, d: seq<int>, s: P.Search)
    requires EdgesValid(blocks) && Solved(blocks, entry, rpo, rpoIndex, I, d) && P.Finished(blocks, entry, s)
    requires forall b :: 0 <= b < |blocks| && s.state[b] == 2 ==> rpoIndex[b] == |rpo| - 1 - s.fin[b]
    ensures DominatorsFinishLater(blocks, entry, s)
  {
    forall a: nat, b: nat | a < |blocks| && b < |blocks| && Dominates(blocks, entry, a, b) ensures s.fin[b] <= s.fin[a] {
      DominatorsFirst(blocks, entry, rpo, rpoIndex, I, d, a, b);
      FinishedReachable(blocks, entry, s, a);
      FinishedReachable(blocks, entry, s, b);
    }
  }

  lemma PredsBelow(blocks: seq<BasicBlock>, b: nat)
    requires PredsReverse(blocks) && b < |blocks|
    ensures AllBelow(blocks[b].preds, |blocks|)
  {
    forall k | 0 <= k < |blocks[b].preds| ensures blocks[b].preds[k] < |blocks| {
      assert blocks[b].preds[k] in blocks[b].preds;
    }
  }

  lemma IndexPreds(blocks: seq<BasicBlock>, entry: BlockId, rpo: seq<BlockId>, rpoIndex: seq<int>) returns (I: seq<seq<nat>>)
    requires PredsReverse(blocks) && Indexing(blocks, entry, rpo, rpoIndex)
    ensures Indexed(blocks, rpo, rpoIndex, I)
  {
    I := [];
    while |I| < |rpo|
      invariant |I| <= |rpo|
      invariant forall i :: 0 <= i < |I| ==> rpo[i] < |blocks| && AllBelow(blocks[rpo[i]].preds, |rpoIndex|) && I[i] == Indices(rpoIndex, blocks[rpo[i]].preds)
    {
      PredsBelow(blocks, rpo[|I|]);
      I := I + [Indices(rpoIndex, blocks[rpo[|I|]].preds)];
    }
    forall i | 0 <= i < |rpo| ensures AllBelow(blocks[rpo[i]].preds, |rpoIndex|) { PredsBelow(blocks, rpo[i]); }
  }

  /** Reverse postorder, dominators, back edges and reducibility of a function's normal graph. */
  method ComputeDominators(blocks: seq<BasicBlock>, entry: BlockId) returns (r: Option<DomResult>)
    requires EdgesValid(blocks) && PredsReverse(blocks) && entry < |blocks|
    ensures r.Some? && Correct(blocks, entry, r.value)
    ensures exists s :: P.FinishedRun(blocks, entry, s) && r.value.rpo == Reversed(s.order)
  {
    var order, retreating, s := P.ComputePostorder(blocks, entry);
    var rpo := Reversed(order);
    var rpoIndex := IndexOrder(blocks, entry, rpo, s);
    ghost var I := IndexPreds(blocks, entry, rpo, rpoIndex);
    IndexedOrdered(blocks, entry, rpo, rpoIndex, I);
    ghost var t := SearchTree(blocks, entry, s, rpo, rpoIndex, I);
    var unreachable := Unreached(blocks, entry, rpo, rpoIndex);

    var links := Iterate(blocks, rpo, rpoIndex, I, t);
    if links.None? { return None; }
    var d := links.value;
    assert Solved(blocks, entry, rpo, rpoIndex, I, d);

    var idom, children, pos := BuildTree(blocks, entry, rpo, rpoIndex, d);
    TreeIsValid(blocks, entry, rpo, rpoIndex, d, idom, children, pos);
    ghost var tree := TreeOf(entry, rpo, rpoIndex, idom, children, pos);
    var tin, tout, preorder, clocked := T.NumberTree(children, entry, tree);
    var dom := DominatorTree(idom, children, tin[..], tout[..], preorder, []);
    QueryIsDominance(blocks, entry, rpo, rpoIndex, I, d, idom, children, pos, clocked, dom);

    var backEdges := BackEdges(blocks, entry, dom);
    var reducible := forall e :: e in retreating ==> e in backEdges;
    FinishLater(blocks, entry, rpo, rpoIndex, I, d, s);
    ReducibleIff(blocks, entry, s);
    PreorderIsRight(blocks, entry, rpo, rpoIndex, tree, clocked, dom);
    PreorderIsDepthFirst(blocks, entry, tree, clocked, dom);
    ResultIsCorrect(blocks, entry, rpo, rpoIndex, I, d, pos, dom, backEdges, reducible, unreachable);
    r := Some(DomResult(rpo, dom.(backEdges := backEdges), reducible, unreachable));
  }

  lemma ResultIsCorrect(blocks: seq<BasicBlock>, entry: BlockId, rpo: seq<BlockId>, rpoIndex: seq<int>, I: seq<seq<nat>>, d: seq<int>,
                        pos: seq<nat>, dom: DominatorTree, backEdges: seq<(BlockId, BlockId)>, reducible: bool, unreachable: seq<BlockId>)
    requires Solved(blocks, entry, rpo, rpoIndex, I, d) && TreeSoFar(rpo, rpoIndex, d, |rpo|, dom.idom, dom.children, pos)
    requires QueryRight(blocks, entry, dom) && PreorderRight(blocks, entry, dom.preorder) && UnreachableRight(blocks, entry, unreachable)
    requires DepthFirst(blocks, entry, dom.children, dom.preorder)
    requires Sorted(backEdges, PairLe) && (forall e :: e in backEdges <==> IsBackEdge(blocks, entry, e))
    requires forall e: (BlockId, BlockId) {:trigger multiset(backEdges)[e]} :: multiset(backEdges)[e] == BackEdgeCount(blocks, entry, e)
    requires reducible <==> Reducible(blocks, entry)
    ensures Correct(blocks, entry, DomResult(rpo, dom.(backEdges := backEdges), reducible, unreachable))
  {
    TreeIsRight(blocks, entry, rpo, rpoIndex, I, d, dom.idom, dom.children, pos);
    OrderIsRight(blocks, entry, rpo, rpoIndex, I, d);
    ChildrenAreRight(rpo, rpoIndex, d, dom.idom, dom.children, pos, dom);
    ChildrenAreInOrder(blocks, entry, rpo, rpoIndex, d, dom.idom, dom.children, pos);
    QueryKeeps(blocks, entry, dom, backEdges);
  }

  lemma QueryKeeps(blocks: seq<BasicBlock>, entry: BlockId, dom: DominatorTree, backEdges: seq<(BlockId, BlockId)>)
    requires QueryRight(blocks, entry, dom)
    ensures QueryRight(blocks, entry, dom.(backEdges := backEdges))
  {
    forall a: nat, b: nat | a < |blocks| && b < |blocks|
      ensures dom.(backEdges := backEdges).DominatesQuery(a, b) <==> Dominates(blocks, entry, a, b)
    {
      assert dom.DominatesQuery(a, b) <==> Dominates(blocks, entry, a, b);
    }
  }

  lemma ChildrenAreInOrder(blocks: seq<BasicBlock>, entry: BlockId, rpo: seq<BlockId>, rpoIndex: seq<int>, d: seq<int>, idom: seq<Option<BlockId>>,
                           children: seq<seq<BlockId>>, pos: seq<nat>)
    requires Indexing(blocks, entry, rpo, rpoIndex) && |rpo| == |d| && (forall j :: 1 <= j < |d| ==> 0 <= d[j] < j)
    requires TreeSoFar(rpo, rpoIndex, d, |rpo|, idom, children, pos)
    ensures ChildrenInOrder(rpo, children)
  {
    forall p: nat, j: nat, k: nat | p < |children| && j < k < |children[p]| ensures Earlier(rpo, children[p][j], children[p][k]) {
      var x, y := children[p][j], children[p][k];
      assert idom[x] == Some(p) && idom[y] == Some(p);
      assert rpo[rpoIndex[x]] == x && rpo[rpoIndex[y]] == y;
    }
  }

  lemma ChildrenAreRight(rpo: seq<BlockId>, rpoIndex: seq<int>, d: seq<int>, idom: seq<Option<BlockId>>, children: seq<seq<BlockId>>,
                         pos: seq<nat>, dom: DominatorTree)
    requires |rpo| == |d| && (forall j :: 1 <= j < |d| ==> 0 <= d[j] < j) && (forall i :: 0 <= i < |rpo| ==> rpo[i] < |rpoIndex|)
    requires TreeSoFar(rpo, rpoIndex, d, |rpo|, idom, children, pos) && dom.idom == idom && dom.children == children
    ensures ChildrenRight(dom)
  {
  }
}
