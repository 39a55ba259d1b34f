// The Cooper-Harvey-Kennedy passes over the reverse postorder (src/cfg/dom.ts:56-92).
module DomIteration {
  import opened CfgTypes
  import opened DomChains
  import opened DomIndex

  /** x is the meeting point of the chains of a and b. */
  method Intersect(idomIdx: array<int>, a: nat, b: nat) returns (x: nat)
    requires Linked(idomIdx[..]) && a < idomIdx.Length && b < idomIdx.Length && idomIdx[a] != -1 && idomIdx[b] != -1
    ensures x < idomIdx.Length && idomIdx[x] != -1
    ensures forall c :: Above(idomIdx[..], c, x) <==> Above(idomIdx[..], c, a) && Above(idomIdx[..], c, b)
  {
    ghost var d := idomIdx[..];
    x := a;
    var y: nat := b;
    while x != y
      invariant x < idomIdx.Length && y < idomIdx.Length && d[x] != -1 && d[y] != -1
      invariant forall c :: Above(d, c, a) && Above(d, c, b) <==> Above(d, c, x) && Above(d, c, y)
      decreases x + y
    {
      while x > y
        invariant x < idomIdx.Length && d[x] != -1
        invariant forall c :: Above(d, c, a) && Above(d, c, b) <==> Above(d, c, x) && Above(d, c, y)
        decreases x
      {
        StepDown(d, x, y);
        x := idomIdx[x];
      }
      while y > x
        invariant y < idomIdx.Length && d[y] != -1
        invariant forall c :: Above(d, c, a) && Above(d, c, b) <==> Above(d, c, x) && Above(d, c, y)
        decreases y
      {
        StepDown(d, y, x);
        y := idomIdx[y];
      }
    }
  }

  /** Following the link of the larger index keeps the common chain. */
  lemma StepDown(d: seq<int>, x: nat, y: nat)
    requires Linked(d) && y < x < |d| && d[x] != -1
    ensures 0 <= d[x] < x && d[d[x]] != -1
    ensures forall c :: Above(d, c, x) && Above(d, c, y) <==> Above(d, c, d[x]) && Above(d, c, y)
  {
    forall c | Above(d, c, y) ensures c != x { AboveSmaller(d, c, y); }
  }

  /** n is the meet of ps, or -1 when no member of ps is processed. */
  ghost predicate MeetSoFar(d: seq<int>, ps: seq<nat>, n: int)
    requires InRange(d, ps)
  {
    if n == -1 then forall p :: p in ps ==> d[p] == -1 else Meet(d, ps, n)
  }

  lemma MeetNext(d: seq<int>, ps: seq<nat>, n: int, p: nat, n': int)
    requires InRange(d, ps) && p < |d| && MeetSoFar(d, ps, n)
    requires if d[p] == -1 then n' == n
             else if n == -1 then n' == p
             else 0 <= n' < |d| && d[n'] != -1 && forall c :: Above(d, c, n') <==> Above(d, c, p) && Above(d, c, n)
    ensures InRange(d, ps + [p]) && MeetSoFar(d, ps + [p], n')
  {
  }

  /** The new link of a block: the meet over its processed predecessors. */
  method NewIdom(preds: seq<BlockId>, rpoIndex: seq<int>, idomIdx: array<int>) returns (newIdom: int)
    requires Linked(idomIdx[..]) && AllBelow(preds, |rpoIndex|)
    requires InRange(idomIdx[..], Indices(rpoIndex, preds))
    ensures MeetSoFar(idomIdx[..], Indices(rpoIndex, preds), newIdom)
  {
    newIdom := -1;
    ghost var d := idomIdx[..];
    for k := 0 to |preds|
      invariant InRange(d, Indices(rpoIndex, preds[..k])) && MeetSoFar(d, Indices(rpoIndex, preds[..k]), newIdom)
    {
      var p := preds[k];
      var pi := rpoIndex[p];
      assert preds[..k + 1][..k] == preds[..k] && preds[..k + 1][k] == p;
      if pi < 0 { continue; }
      IndicesMember(rpoIndex, preds, pi);
      ghost var before := newIdom;
      if idomIdx[pi] != -1 {
        if newIdom == -1 {
          newIdom := pi;
        } else {
          newIdom := Intersect(idomIdx, pi, newIdom);
          assert idomIdx[..] == d;
        }
      }
      MeetNext(d, Indices(rpoIndex, preds[..k]), before, pi, newIdom);
    }
    assert preds[..|preds|] == preds;
  }

  /** What holds between two visits of the iteration, about to visit index i in round r. */
  ghost predicate Iterating(I: seq<seq<nat>>, t: seq<int>, d: seq<int>, i: nat, r: nat) {
    && Ordered(I) && IsTree(I, t) && |d| == |I|
    && Linked(d) && TreeLinks(t, d) && KeepsDoms(I, d) && Round(I, d, i, r)
  }

  lemma VisitKeeps(I: seq<seq<nat>>, t: seq<int>, d: seq<int>, i: nat, n: int, r: nat)
    requires Iterating(I, t, d, i, r) && 0 < i < |I| && MeetSoFar(d, I[i], n)
    ensures n != -1 && Meet(d, I[i], n) && Iterating(I, t, d[i := n], i + 1, r)
  {
    assert t[i] in I[i] && d[t[i]] != -1;
    UpdateLinks(I, t, d, i, n);
    UpdateKeepsDoms(I, t, d, i, n);
    UpdatePinned(I, d, i, n, r);
  }

  lemma LateRoundsExact(I: seq<seq<nat>>, t: seq<int>, d: seq<int>, i: nat, r: nat)
    requires Iterating(I, t, d, i, r) && r >= |I|
    ensures Exact(I, d) && forall j :: 0 <= j < |d| ==> d[j] != -1
  {
    forall j: nat | j < |d| ensures Pinned(I, d, j, |I|) { assert Pinned(I, d, j, r); }
    PinnedIsExact(I, d);
  }

  /** Links already visited in this pass did not change and solve the equation. */
  ghost predicate Settled(I: seq<seq<nat>>, d: seq<int>, i: nat)
    requires Ordered(I) && |d| == |I|
  {
    forall j: nat {:trigger I[j]} :: 1 <= j < i && j < |d| ==> d[j] != -1 && Meet(d, I[j], d[j])
  }

  /** One pass over the reverse postorder. */
  method Pass(blocks: seq<BasicBlock>, rpo: seq<BlockId>, rpoIndex: seq<int>, idomIdx: array<int>, ghost I: seq<seq<nat>>, ghost t: seq<int>, ghost r: nat)
    returns (changed: bool)
    requires Indexed(blocks, rpo, rpoIndex, I) && idomIdx.Length == |rpo| && Iterating(I, t, idomIdx[..], 1, r)
    modifies idomIdx
    ensures Iterating(I, t, idomIdx[..], 1, r + 1)
    ensures r >= |rpo| ==> !changed
    ensures !changed ==> Settled(I, idomIdx[..], |rpo|)
  {
    changed := false;
    for i := 1 to |rpo|
      invariant Iterating(I, t, idomIdx[..], i, r)
      invariant r >= |rpo| ==> !changed
      invariant !changed ==> Settled(I, idomIdx[..], i)
    {
      ghost var d := idomIdx[..];
      var b := rpo[i];
      var newIdom := NewIdom(blocks[b].preds, rpoIndex, idomIdx);
      VisitKeeps(I, t, d, i, newIdom, r);
      if r >= |rpo| {
        LateRoundsExact(I, t, d, i, r);
        ExactIsStable(I, t, d, i, newIdom);
      }
      if newIdom != -1 && idomIdx[i] != newIdom {
        idomIdx[i] := newIdom;
        changed := true;
      }
      assert idomIdx[..] == d[i := newIdom];
    }
    RootPinned(I, t, idomIdx[..], r);
  }

  lemma {:induction false} WalkStartsAtRoot(I: seq<seq<nat>>, w: seq<nat>)
    requires Walk(I, w)
    ensures w[0] == 0
    decreases |w|
  {
    if |w| > 1 { WalkStartsAtRoot(I, w[..|w| - 1]); }
  }

  /** A finished pass is the start of the next one. */
  lemma RootPinned(I: seq<seq<nat>>, t: seq<int>, d: seq<int>, r: nat)
    requires Iterating(I, t, d, |d|, r)
    ensures Iterating(I, t, d, 1, r + 1)
  {
    var r2 := r + 2;
    forall j: nat | j < 1 ensures Pinned(I, d, j, r2) {
      forall a: nat, w | Above(d, a, j) && Walk(I, w) && Last(w, j) && Retreats(w) < r2 ensures a in w {
        WalkStartsAtRoot(I, w);
        AboveSmaller(d, a, 0);
      }
    }
  }
}
