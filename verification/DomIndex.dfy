// Numbering the reachable blocks in reverse postorder (src/cfg/dom.ts:48-54), and why
// dominance of blocks is dominance of their numbers.
module DomIndex {
  import opened CfgTypes
  import opened DomChains

  // ------------------------------------------------ numbering the blocks

  /** rpo lists the reachable blocks and rpoIndex inverts it (-1 for the others). */
  ghost predicate Indexing(blocks: seq<BasicBlock>, entry: BlockId, rpo: seq<BlockId>, rpoIndex: seq<int>) {
    && |rpoIndex| == |blocks| && |rpo| > 0 && rpo[0] == entry
    && (forall i :: 0 <= i < |rpo| ==> rpo[i] < |blocks| && rpoIndex[rpo[i]] == i)
    && (forall b :: 0 <= b < |blocks| ==> -1 <= rpoIndex[b] < |rpo|)
    && (forall b :: 0 <= b < |blocks| && rpoIndex[b] >= 0 ==> rpo[rpoIndex[b]] == b)
    && (forall b: nat {:trigger Reachable(blocks, entry, b)} :: b < |blocks| ==> (Reachable(blocks, entry, b) <==> rpoIndex[b] >= 0))
  }

  ghost predicate AllBelow(ps: seq<nat>, n: nat) {
    forall k :: 0 <= k < |ps| ==> ps[k] < n
  }

  /** The rpo indices of the reachable blocks among ps. */
  ghost function Indices(rpoIndex: seq<int>, ps: seq<BlockId>): seq<nat>
    requires AllBelow(ps, |rpoIndex|)
  {
    if ps == [] then []
    else
      var p := ps[|ps| - 1];
      Indices(rpoIndex, ps[..|ps| - 1]) + if rpoIndex[p] >= 0 then [rpoIndex[p]] else []
  }

  lemma {:induction false} IndicesMember(rpoIndex: seq<int>, ps: seq<BlockId>, x: nat)
    requires AllBelow(ps, |rpoIndex|)
    ensures x in Indices(rpoIndex, ps) <==> exists p :: p in ps && rpoIndex[p] == x
    decreases |ps|
  {
    if ps != [] {
      var ps' := ps[..|ps| - 1];
      assert ps == ps' + [ps[|ps| - 1]];
      IndicesMember(rpoIndex, ps', x);
    }
  }

  /** I[i] holds the indices of the predecessors of the i-th reachable block. */
  ghost predicate Indexed(blocks: seq<BasicBlock>, rpo: seq<BlockId>, rpoIndex: seq<int>, I: seq<seq<nat>>) {
    && |I| == |rpo|
    && forall i :: 0 <= i < |rpo| ==>
         rpo[i] < |blocks| && AllBelow(blocks[rpo[i]].preds, |rpoIndex|)
         && I[i] == Indices(rpoIndex, blocks[rpo[i]].preds)
  }

  lemma IndexedEdge(blocks: seq<BasicBlock>, entry: BlockId, rpo: seq<BlockId>, rpoIndex: seq<int>, I: seq<seq<nat>>, x: nat, y: nat)
    requires PredsReverse(blocks) && Indexing(blocks, entry, rpo, rpoIndex) && Indexed(blocks, rpo, rpoIndex, I)
    requires x < |rpo| && y < |rpo|
    ensures x in I[y] <==> IsEdge(blocks, rpo[x], rpo[y])
  {
    IndicesMember(rpoIndex, blocks[rpo[y]].preds, x);
    if x in I[y] {
      var p :| p in blocks[rpo[y]].preds && rpoIndex[p] == x;
    }
    if IsEdge(blocks, rpo[x], rpo[y]) {
      assert rpo[x] in blocks[rpo[y]].preds;
    }
  }

  lemma IndexedOrdered(blocks: seq<BasicBlock>, entry: BlockId, rpo: seq<BlockId>, rpoIndex: seq<int>, I: seq<seq<nat>>)
    requires Indexing(blocks, entry, rpo, rpoIndex) && Indexed(blocks, rpo, rpoIndex, I)
    ensures Ordered(I)
  {
    forall i, x | 0 <= i < |I| && x in I[i] ensures x < |I| {
      IndicesMember(rpoIndex, blocks[rpo[i]].preds, x);
    }
  }

  // Paths of blocks and walks of indices are the same thing.

  ghost function Names(rpo: seq<BlockId>, w: seq<nat>): seq<BlockId>
    requires forall x :: x in w ==> x < |rpo|
  {
    seq(|w|, k requires 0 <= k < |w| => assert w[k] in w; rpo[w[k]])
  }

  lemma {:induction false} WalkToPath(blocks: seq<BasicBlock>, entry: BlockId, rpo: seq<BlockId>, rpoIndex: seq<int>, I: seq<seq<nat>>, w: seq<nat>)
    requires PredsReverse(blocks) && Indexing(blocks, entry, rpo, rpoIndex) && Indexed(blocks, rpo, rpoIndex, I)
    requires Walk(I, w)
    ensures forall x :: x in w ==> x < |rpo|
    ensures Path(blocks, entry, Names(rpo, w))
    decreases |w|
  {
    var n := |w| - 1;
    assert w == w[..n] + [w[n]];
    if n > 0 {
      WalkToPath(blocks, entry, rpo, rpoIndex, I, w[..n]);
      IndexedEdge(blocks, entry, rpo, rpoIndex, I, w[n - 1], w[n]);
      assert Names(rpo, w)[..n] == Names(rpo, w[..n]);
    }
  }

  lemma {:induction false} PathToWalk(blocks: seq<BasicBlock>, entry: BlockId, rpo: seq<BlockId>, rpoIndex: seq<int>, I: seq<seq<nat>>, p: seq<BlockId>)
    returns (w: seq<nat>)
    requires PredsReverse(blocks) && Indexing(blocks, entry, rpo, rpoIndex) && Indexed(blocks, rpo, rpoIndex, I)
    requires Path(blocks, entry, p)
    ensures Walk(I, w) && (forall x :: x in w ==> x < |rpo|) && Names(rpo, w) == p
    decreases |p|
  {
    var n := |p| - 1;
    assert Last(p, p[n]);
    assert Reachable(blocks, entry, p[n]);
    if n == 0 {
      w := [0];
    } else {
      var v := PathToWalk(blocks, entry, rpo, rpoIndex, I, p[..n]);
      w := v + [rpoIndex[p[n]]];
      assert rpo[v[|v| - 1]] == Names(rpo, v)[|v| - 1] == p[n - 1];
      WalkInRange(I, v, |v| - 1);
      IndexedEdge(blocks, entry, rpo, rpoIndex, I, v[|v| - 1], rpoIndex[p[n]]);
      WalkExtend(I, v, rpoIndex[p[n]]);
      assert Names(rpo, w) == Names(rpo, v) + [p[n]];
      assert p == p[..n] + [p[n]];
    }
  }

  /** Dominance of blocks is dominance of their indices. */
  lemma DominatesIffDom(blocks: seq<BasicBlock>, entry: BlockId, rpo: seq<BlockId>, rpoIndex: seq<int>, I: seq<seq<nat>>, a: nat, b: nat)
    requires PredsReverse(blocks) && Indexing(blocks, entry, rpo, rpoIndex) && Indexed(blocks, rpo, rpoIndex, I)
    requires a < |rpo| && b < |rpo|
    ensures Dominates(blocks, entry, rpo[a], rpo[b]) <==> Dom(I, a, b)
  {
    assert Reachable(blocks, entry, rpo[a]) && Reachable(blocks, entry, rpo[b]);
    if Dom(I, a, b) {
      forall p | Path(blocks, entry, p) && Last(p, rpo[b]) ensures rpo[a] in p {
        var w := PathToWalk(blocks, entry, rpo, rpoIndex, I, p);
        assert rpo[w[|w| - 1]] == p[|p| - 1];
        assert w[|w| - 1] == b;
        assert Last(w, b);
        var k :| 0 <= k < |w| && w[k] == a;
        assert p[k] == rpo[a];
      }
    }
    if Dominates(blocks, entry, rpo[a], rpo[b]) {
      forall w | Walk(I, w) && Last(w, b) ensures a in w {
        WalkToPath(blocks, entry, rpo, rpoIndex, I, w);
        var p := Names(rpo, w);
        assert Last(p, rpo[b]);
        var k :| 0 <= k < |p| && p[k] == rpo[a];
        assert w[k] in w && rpoIndex[rpo[w[k]]] == w[k];
      }
    }
  }
}
