// Link chains over reverse-postorder indices: the mathematics behind the
// Cooper-Harvey-Kennedy iteration of src/cfg/dom.ts.
//
// A function's reachable blocks are numbered 0, 1, ... in reverse postorder.
// P[i] lists the (reachable) predecessors of block i; d[i] is the current
// immediate-dominator link of block i, or -1 while block i is unprocessed.
module DomChains {
  import opened CfgTypes

  ghost predicate Ordered(P: seq<seq<nat>>) {
    && |P| > 0
    && forall i, p :: 0 <= i < |P| && p in P[i] ==> p < |P|
  }

  /** A walk from the entry (index 0) along edges of the indexed graph. */
  ghost predicate Walk(P: seq<seq<nat>>, w: seq<nat>) {
    && |w| > 0 && w[|w| - 1] < |P|
    && if |w| == 1 then w[0] == 0
       else Walk(P, w[..|w| - 1]) && w[|w| - 2] in P[w[|w| - 1]]
  }

  /** How many edges of the walk go to an index that is not larger. */
  ghost function Retreats(w: seq<nat>): nat {
    if |w| <= 1 then 0
    else Retreats(w[..|w| - 1]) + if w[|w| - 1] <= w[|w| - 2] then 1 else 0
  }

  /** a lies on every walk to i: the definition of dominance. */
  ghost predicate Dom(P: seq<seq<nat>>, a: nat, i: nat) {
    forall w :: Walk(P, w) && Last(w, i) ==> a in w
  }

  /** Links point to smaller, already processed indices. */
  ghost predicate Linked(d: seq<int>) {
    && |d| > 0 && d[0] == 0
    && (forall i :: 1 <= i < |d| ==> -1 <= d[i] < i)
    && forall i :: 1 <= i < |d| && d[i] != -1 ==> d[d[i]] != -1
  }

  /** a is reached from i by following links (possibly none). */
  ghost predicate Above(d: seq<int>, a: int, i: int)
    decreases i
  {
    a == i || (0 < i < |d| && 0 <= d[i] < i && Above(d, a, d[i]))
  }

  /** t picks, for every index but 0, a predecessor with a smaller index. */
  ghost predicate IsTree(P: seq<seq<nat>>, t: seq<int>) {
    && |t| == |P| && Linked(t)
    && forall i :: 1 <= i < |t| ==> 0 <= t[i] < i && t[i] in P[i]
  }

  // ------------------------------------------------------------------ chains

  lemma {:induction false} AboveSmaller(d: seq<int>, a: int, i: int)
    requires Above(d, a, i)
    ensures a <= i && (0 <= i ==> 0 <= a)
    decreases i
  {
    if a != i { AboveSmaller(d, a, d[i]); }
  }

  lemma {:induction false} AboveTransitive(d: seq<int>, a: int, b: int, c: int)
    requires Above(d, a, b) && Above(d, b, c)
    ensures Above(d, a, c)
    decreases c
  {
    if b != c { AboveTransitive(d, a, b, d[c]); }
  }

  /** Two chain members of the same index are themselves on one chain. */
  lemma {:induction false} AboveLinear(d: seq<int>, a: int, b: int, c: int)
    requires Above(d, a, c) && Above(d, b, c)
    ensures Above(d, a, b) || Above(d, b, a)
    decreases c
  {
    if a != c && b != c { AboveLinear(d, a, b, d[c]); }
  }

  lemma {:induction false} AboveProcessed(d: seq<int>, a: int, i: int)
    requires Linked(d) && 0 <= i < |d| && d[i] != -1 && Above(d, a, i)
    ensures 0 <= a <= i && d[a] != -1
    decreases i
  {
    if a != i { AboveProcessed(d, a, d[i]); }
  }

  lemma {:induction false} RootAbove(d: seq<int>, i: int)
    requires Linked(d) && 0 <= i < |d| && d[i] != -1
    ensures Above(d, 0, i)
    decreases i
  {
    if i != 0 { RootAbove(d, d[i]); }
  }

  /** What one link update does to every chain. */
  lemma {:induction false} AboveUpdate(d: seq<int>, i: int, n: int, a: int, j: int)
    requires 0 < i < |d| && 0 <= n < i
    ensures Above(d[i := n], a, j) <==>
            if Above(d, i, j) then (Above(d, i, a) && Above(d, a, j)) || Above(d, a, n)
            else Above(d, a, j)
    decreases j
  {
    var d' := d[i := n];
    if j == i {
      AboveUpdate(d, i, n, a, n);
      if Above(d, i, n) { AboveSmaller(d, i, n); }
      if Above(d, i, a) { AboveSmaller(d, i, a); }
      if Above(d, a, i) { AboveSmaller(d, a, i); }
    } else if 0 < j < |d| && 0 <= d[j] < j {
      AboveUpdate(d, i, n, a, d[j]);
      if a == j && Above(d, a, n) { AboveSmaller(d, a, n); }
      if a == j && Above(d, i, j) { AboveSmaller(d, i, j); }
    }
  }

  // ------------------------------------------------------------------- walks

  lemma WalkExtend(P: seq<seq<nat>>, w: seq<nat>, i: nat)
    requires Walk(P, w) && i < |P| && w[|w| - 1] in P[i]
    ensures Walk(P, w + [i]) && Last(w + [i], i)
    ensures Retreats(w + [i]) == Retreats(w) + if i <= w[|w| - 1] then 1 else 0
  {
    var v := w + [i];
    assert v[..|v| - 1] == w;
  }

  lemma WalkShrink(P: seq<seq<nat>>, w: seq<nat>)
    requires Walk(P, w) && |w| > 1
    ensures Walk(P, w[..|w| - 1]) && Last(w[..|w| - 1], w[|w| - 2])
    ensures w[|w| - 2] in P[w[|w| - 1]] && w[|w| - 2] < |P|
    ensures Retreats(w) == Retreats(w[..|w| - 1]) + if w[|w| - 1] <= w[|w| - 2] then 1 else 0
  {
    var n := |w| - 1;
    assert w[n - 1] in P[w[n]];
  }

  /** The part of a walk up to its k-th node is a walk with no more retreats. */
  lemma {:induction false} WalkPrefix(P: seq<seq<nat>>, w: seq<nat>, k: nat)
    requires Walk(P, w) && k < |w|
    ensures Walk(P, w[..k + 1]) && Last(w[..k + 1], w[k])
    ensures Retreats(w[..k + 1]) <= Retreats(w)
    decreases |w|
  {
    if k + 1 == |w| {
      assert w[..k + 1] == w;
    } else {
      WalkShrink(P, w);
      var v := w[..|w| - 1];
      WalkPrefix(P, v, k);
      assert v[..k + 1] == w[..k + 1];
    }
  }

  // Dominance of i in terms of its predecessors: the equation the iteration solves.
  lemma DomEquation(P: seq<seq<nat>>, a: nat, i: nat)
    requires Ordered(P) && 0 < i < |P|
    ensures a != i && Dom(P, a, i) ==> forall p :: p in P[i] ==> Dom(P, a, p)
    ensures (forall p :: p in P[i] ==> Dom(P, a, p)) ==> Dom(P, a, i)
  {
    if a != i && Dom(P, a, i) {
      forall p, w | p in P[i] && Walk(P, w) && Last(w, p) ensures a in w {
        WalkExtend(P, w, i);
        assert a in w + [i];
      }
    }
    if forall p :: p in P[i] ==> Dom(P, a, p) {
      forall w | Walk(P, w) && Last(w, i) ensures a in w {
        WalkShrink(P, w);
        assert Dom(P, a, w[|w| - 2]);
        assert a in w[..|w| - 1];
      }
    }
  }

  /** If a strictly tree-above i does not dominate i, it dominates nothing tree-below i. */
  lemma {:induction false} DomDescends(P: seq<seq<nat>>, t: seq<int>, a: nat, i: nat, j: nat)
    requires Ordered(P) && IsTree(P, t) && j < |P| && Above(t, i, j) && a < i
    requires Dom(P, a, j)
    ensures Dom(P, a, i)
    decreases j
  {
    if i != j {
      AboveSmaller(t, i, t[j]);
      DomEquation(P, a, j);
      DomDescends(P, t, a, i, t[j]);
    }
  }

  // ------------------------------------------------- the iteration's invariant

  /** Every link goes to a tree ancestor. */
  ghost predicate TreeLinks(t: seq<int>, d: seq<int>) {
    |d| == |t| && forall i :: 1 <= i < |d| && d[i] != -1 ==> Above(t, d[i], i)
  }

  /** No true dominator has been lost from a chain. */
  ghost predicate KeepsDoms(P: seq<seq<nat>>, d: seq<int>) {
    |d| == |P| && forall i: nat, a: nat :: i < |d| && d[i] != -1 && Dom(P, a, i) ==> Above(d, a, i)
  }

  /** Every chain member of j lies on every walk to j with fewer than r retreats. */
  ghost predicate Pinned(P: seq<seq<nat>>, d: seq<int>, j: nat, r: nat) {
    forall a: nat, w :: Above(d, a, j) && Walk(P, w) && Last(w, j) && Retreats(w) < r ==> a in w
  }

  ghost predicate AllPinned(P: seq<seq<nat>>, d: seq<int>, hi: nat, r: nat) {
    forall j: nat :: j < hi ==> Pinned(P, d, j, r)
  }

  ghost predicate InRange(d: seq<int>, ps: seq<nat>) {
    forall p :: p in ps ==> p < |d|
  }

  /** n's chain is the intersection of the chains of the processed members of ps. */
  ghost predicate Meet(d: seq<int>, ps: seq<nat>, n: int)
    requires InRange(d, ps)
  {
    && 0 <= n < |d| && d[n] != -1
    && forall a :: Above(d, a, n) <==> forall p :: p in ps && d[p] != -1 ==> Above(d, a, p)
  }

  lemma {:induction false} ChainInTree(t: seq<int>, d: seq<int>, a: int, i: int)
    requires Linked(d) && TreeLinks(t, d) && 0 <= i < |d| && d[i] != -1 && Above(d, a, i)
    ensures Above(t, a, i)
    decreases i
  {
    if a != i {
      ChainInTree(t, d, a, d[i]);
      AboveTransitive(t, a, d[i], i);
    }
  }

  /** The meet is a proper tree ancestor, so updating keeps the links well formed. */
  lemma UpdateLinks(P: seq<seq<nat>>, t: seq<int>, d: seq<int>, i: nat, n: int)
    requires Ordered(P) && IsTree(P, t) && |d| == |P| && Linked(d) && TreeLinks(t, d)
    requires 0 < i < |P| && d[t[i]] != -1 && Meet(d, P[i], n)
    ensures n < i && Linked(d[i := n]) && TreeLinks(t, d[i := n])
  {
    assert Above(d, n, n);
    assert Above(d, n, t[i]);
    AboveSmaller(d, n, t[i]);
    ChainInTree(t, d, n, t[i]);
    assert Above(t, n, i);
  }

  lemma UpdateKeepsDoms(P: seq<seq<nat>>, t: seq<int>, d: seq<int>, i: nat, n: int)
    requires Ordered(P) && IsTree(P, t) && |d| == |P| && Linked(d) && TreeLinks(t, d) && KeepsDoms(P, d)
    requires 0 < i < |P| && d[t[i]] != -1 && Meet(d, P[i], n)
    requires n < i
    ensures KeepsDoms(P, d[i := n])
  {
    var d' := d[i := n];
    forall j: nat, a: nat | j < |d| && d'[j] != -1 && Dom(P, a, j) ensures Above(d', a, j) {
      AboveUpdate(d, i, n, a, j);
      if j == i {
        if a != i {
          DomEquation(P, a, i);
          assert Above(d, a, n);
        }
      } else if Above(d, i, j) && !Above(d, i, a) {
        AboveLinear(d, a, i, j);
        AboveSmaller(d, a, i);
        ChainInTree(t, d, i, j);
        DomDescends(P, t, a, i, j);
        DomEquation(P, a, i);
        assert Above(d, a, n);
      }
    }
  }

  /** The iteration is in round r (counted from 0), about to visit index i. */
  ghost predicate Round(P: seq<seq<nat>>, d: seq<int>, i: nat, r: nat) {
    && |d| == |P|
    && AllPinned(P, d, |d|, r) && AllPinned(P, d, i, r + 1)
    && forall j :: 0 <= j < |d| && (j < i || r > 0) ==> d[j] != -1
  }

  lemma UpdatedPinnedAt(P: seq<seq<nat>>, d: seq<int>, i: nat, n: int, r: nat, a: nat, w: seq<nat>)
    requires Ordered(P) && |d| == |P| && Linked(d) && Round(P, d, i, r)
    requires 0 < i < |P| && Meet(d, P[i], n) && n < i
    requires Above(d[i := n], a, i) && Walk(P, w) && Last(w, i) && Retreats(w) < r + 1
    ensures a in w
  {
    AboveUpdate(d, i, n, a, n);
    if Above(d, i, n) { AboveSmaller(d, i, n); }
    if a != i {
      WalkShrink(P, w);
      var p := w[|w| - 2];
      var v := w[..|w| - 1];
      assert d[p] != -1;
      assert Above(d, a, p);
      assert Pinned(P, d, p, if p < i then r + 1 else r);
      assert a in v;
    }
  }

  /** One update at i: i reaches precision r + 1 and nobody falls below its own. */
  lemma UpdatePinned(P: seq<seq<nat>>, d: seq<int>, i: nat, n: int, r: nat)
    requires Ordered(P) && |d| == |P| && Linked(d) && Round(P, d, i, r)
    requires 0 < i < |P| && Meet(d, P[i], n) && n < i
    ensures Round(P, d[i := n], i + 1, r)
  {
    var d', r1 := d[i := n], r + 1;
    forall j: nat | j < i + 1 ensures Pinned(P, d', j, r1) {
      forall a: nat, w | Above(d', a, j) && Walk(P, w) && Last(w, j) && Retreats(w) < r1 ensures a in w {
        if j == i {
          UpdatedPinnedAt(P, d, i, n, r, a, w);
        } else {
          AboveUpdate(d, i, n, a, j);
          if Above(d, i, j) { AboveSmaller(d, i, j); }
          assert Pinned(P, d, j, r1);
        }
      }
    }
    forall j: nat | j < |d| ensures Pinned(P, d', j, r) {
      forall a: nat, w | Above(d', a, j) && Walk(P, w) && Last(w, j) && Retreats(w) < r ensures a in w {
        AboveUpdate(d, i, n, a, j);
        assert Pinned(P, d, j, r);
        if Above(d, i, j) && Above(d, a, n) {
          assert i in w;
          var k :| 0 <= k < |w| && w[k] == i;
          WalkPrefix(P, w, k);
          AboveUpdate(d, i, n, a, i);
          UpdatedPinnedAt(P, d, i, n, r, a, w[..k + 1]);
          assert a in w[..k + 1];
        }
      }
    }
  }

  // ------------------------------------------------------------- exactness

  /** The chain of every index is exactly its set of dominators. */
  ghost predicate Exact(P: seq<seq<nat>>, d: seq<int>) {
    && |d| == |P|
    && forall i: nat, a: nat :: i < |d| ==> (Above(d, a, i) <==> Dom(P, a, i))
  }

  lemma {:induction false} RetreatsBounded(w: seq<nat>)
    requires |w| > 0
    ensures Retreats(w) < |w|
    decreases |w|
  {
    if |w| > 1 { RetreatsBounded(w[..|w| - 1]); }
  }

  lemma {:induction false} WalkInRange(P: seq<seq<nat>>, w: seq<nat>, k: nat)
    requires Walk(P, w) && k < |w|
    ensures w[k] < |P|
    decreases |w|
  {
    if k < |w| - 1 { WalkInRange(P, w[..|w| - 1], k); }
  }

  /** Cutting a cycle out of a walk leaves a walk. */
  lemma {:induction false} WalkCut(P: seq<seq<nat>>, w: seq<nat>, x: nat, y: nat)
    requires Walk(P, w) && x < y < |w| && w[x] == w[y]
    ensures Walk(P, w[..x + 1] + w[y + 1..])
    ensures Last(w[..x + 1] + w[y + 1..], w[|w| - 1])
    decreases |w|
  {
    var v := w[..x + 1] + w[y + 1..];
    if y == |w| - 1 {
      WalkPrefix(P, w, x);
      assert v == w[..x + 1];
    } else {
      var u := w[..|w| - 1];
      WalkCut(P, u, x, y);
      assert u[..x + 1] == w[..x + 1] && u[y + 1..] == w[y + 1..|w| - 1];
      assert v[..|v| - 1] == u[..x + 1] + u[y + 1..];
      assert v[|v| - 2] == w[|w| - 2];
    }
  }

  lemma {:induction false} Pigeonhole(w: seq<nat>, n: nat) returns (x: nat, y: nat)
    requires |w| > n && forall k :: 0 <= k < |w| ==> w[k] < n
    ensures x < y < |w| && w[x] == w[y]
    decreases n
  {
    assert w[0] < n;
    if x', y' :| 0 <= x' < y' < |w| && w[x'] == w[y'] == n - 1 {
      x, y := x', y';
    } else if k :| 0 <= k < |w| && w[k] == n - 1 {
      var v := w[..k] + w[k + 1..];
      x, y := Pigeonhole(v, n - 1);
      x, y := if x < k then x else x + 1, if y < k then y else y + 1;
    } else {
      x, y := Pigeonhole(w, n - 1);
    }
  }

  /** Every walk contains one with fewer retreats than there are blocks. */
  lemma {:induction false} ShortWalk(P: seq<seq<nat>>, w: seq<nat>, i: nat) returns (v: seq<nat>)
    requires Ordered(P) && Walk(P, w) && Last(w, i)
    ensures Walk(P, v) && Last(v, i) && Retreats(v) < |P|
    ensures forall a :: a in v ==> a in w
    decreases |w|
  {
    if |w| <= |P| {
      RetreatsBounded(w);
      v := w;
    } else {
      forall k | 0 <= k < |w| ensures w[k] < |P| { WalkInRange(P, w, k); }
      var x, y := Pigeonhole(w, |P|);
      WalkCut(P, w, x, y);
      v := ShortWalk(P, w[..x + 1] + w[y + 1..], i);
    }
  }

  /** Precision |P| is exactness: it is reached after |P| rounds. */
  lemma PinnedIsExact(P: seq<seq<nat>>, d: seq<int>)
    requires Ordered(P) && Linked(d) && |d| == |P| && KeepsDoms(P, d)
    requires (forall j :: 0 <= j < |d| ==> d[j] != -1) && AllPinned(P, d, |d|, |P|)
    ensures Exact(P, d)
  {
    forall i: nat, a: nat | i < |d| && Above(d, a, i) ensures Dom(P, a, i) {
      forall w | Walk(P, w) && Last(w, i) ensures a in w {
        var v := ShortWalk(P, w, i);
        assert Pinned(P, d, i, |P|);
        assert a in v;
      }
    }
  }

  /** Once exact, recomputing any link gives the same link. */
  lemma ExactIsStable(P: seq<seq<nat>>, t: seq<int>, d: seq<int>, i: nat, n: int)
    requires Ordered(P) && IsTree(P, t) && Linked(d) && Exact(P, d) && 0 < i < |d|
    requires (forall j :: 0 <= j < |d| ==> d[j] != -1) && Meet(d, P[i], n)
    ensures n == d[i]
  {
    forall a: nat ensures Above(d, a, n) <==> Above(d, a, d[i]) {
      DomEquation(P, a, i);
      assert Above(d, a, t[i]) ==> a <= t[i] by {
        if Above(d, a, t[i]) { AboveSmaller(d, a, t[i]); }
      }
      assert Above(d, a, d[i]) ==> a <= d[i] by {
        if Above(d, a, d[i]) { AboveSmaller(d, a, d[i]); }
      }
      assert Above(d, a, i) <==> a == i || Above(d, a, d[i]);
      assert Above(d, a, i) <==> Dom(P, a, i);
      if Above(d, a, n) {
        forall p | p in P[i] ensures Dom(P, a, p) { assert d[p] != -1; }
        assert Above(d, a, t[i]);
      }
      if Above(d, a, d[i]) {
        forall p | p in P[i] ensures Above(d, a, p) { assert Dom(P, a, p); }
      }
    }
    assert Above(d, n, n) && Above(d, d[i], d[i]);
    AboveSmaller(d, n, d[i]);
    AboveSmaller(d, d[i], n);
  }

  /** A pass that changes no link proves that every chain is exact. */
  lemma {:induction false} FixpointOnWalk(P: seq<seq<nat>>, d: seq<int>, a: nat, i: nat, w: seq<nat>)
    requires Ordered(P) && Linked(d) && |d| == |P| && forall j :: 0 <= j < |d| ==> d[j] != -1
    requires forall j: nat :: 1 <= j < |d| ==> Meet(d, P[j], d[j])
    requires i < |d| && Above(d, a, i) && Walk(P, w) && Last(w, i)
    ensures a in w
    decreases |w|
  {
    if a != i {
      if |w| > 1 {
        WalkShrink(P, w);
        var p := w[|w| - 2];
        assert Meet(d, P[i], d[i]);
        assert Above(d, a, d[i]);
        assert d[p] != -1;
        FixpointOnWalk(P, d, a, p, w[..|w| - 1]);
      }
    }
  }

  lemma FixpointIsExact(P: seq<seq<nat>>, d: seq<int>)
    requires Ordered(P) && Linked(d) && KeepsDoms(P, d) && forall j :: 0 <= j < |d| ==> d[j] != -1
    requires forall j: nat :: 1 <= j < |d| ==> Meet(d, P[j], d[j])
    ensures Exact(P, d)
  {
    forall i: nat, a: nat | i < |d| && Above(d, a, i) ensures Dom(P, a, i) {
      forall w | Walk(P, w) && Last(w, i) ensures a in w { FixpointOnWalk(P, d, a, i, w); }
    }
  }
}
