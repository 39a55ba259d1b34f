// The preorder walk of the dominator tree that makes `dominates` constant time
// (src/cfg/dom.ts:105-128), as a machine over (tin, tout, clock, walk).
module DomTree {
  import opened CfgTypes

  /** A tree given by child lists. par and pos say where each node hangs, rank orders
      parents before children; only nodes with a rank belong to the tree. */
  datatype Tree = Tree(children: seq<seq<BlockId>>, entry: BlockId, par: seq<nat>, pos: seq<nat>, rank: seq<int>)

  ghost predicate ValidTree(t: Tree) {
    && |t.children| == |t.par| == |t.pos| == |t.rank| && t.entry < |t.rank| && t.rank[t.entry] == 0
    && (forall p, k :: 0 <= p < |t.children| && 0 <= k < |t.children[p]| ==> IsChild(t, p, k))
    && (forall c :: 0 <= c < |t.rank| && 0 <= t.rank[c] && c != t.entry ==> Hangs(t, c))
  }

  ghost predicate IsChild(t: Tree, p: nat, k: nat)
    requires |t.children| == |t.par| == |t.pos| == |t.rank| && p < |t.children| && k < |t.children[p]|
  {
    var c := t.children[p][k];
    c < |t.rank| && c != t.entry && t.rank[c] > 0 && t.par[c] == p && t.pos[c] == k
  }

  ghost predicate Hangs(t: Tree, c: nat)
    requires |t.children| == |t.par| == |t.pos| == |t.rank| && c < |t.rank|
  {
    var p := t.par[c];
    p < |t.rank| && 0 <= t.rank[p] < t.rank[c] && t.pos[c] < |t.children[p]| && t.children[p][t.pos[c]] == c
  }

  /** tin and tout are the source's arrays; prog (children started) and at (place on
      the walk stack) are bookkeeping of the proof. */
  datatype Clocked = Clocked(tin: seq<int>, tout: seq<int>, clock: nat, walk: seq<(BlockId, nat)>,
                             preorder: seq<BlockId>, prog: seq<nat>, at: seq<int>)

  ghost predicate Sized(t: Tree, s: Clocked) {
    ValidTree(t) && |s.tin| == |s.tout| == |s.prog| == |s.at| == |t.children|
  }

  ghost predicate Times(t: Tree, s: Clocked) {
    && Sized(t, s)
    && (forall v :: 0 <= v < |s.tin| ==> -1 <= s.tin[v] < s.clock && -1 <= s.tout[v] < s.clock && s.prog[v] <= |t.children[v]|)
    && (forall v :: 0 <= v < |s.tin| && s.tin[v] == -1 ==> s.tout[v] == -1 && s.prog[v] == 0)
    && (forall v :: 0 <= v < |s.tin| && s.tin[v] != -1 ==> t.rank[v] >= 0)
    && (forall v :: 0 <= v < |s.tin| && s.tout[v] != -1 ==> s.tin[v] < s.tout[v] && s.prog[v] == |t.children[v]|)
    && s.tin[t.entry] != -1
  }

  ghost predicate Walking(s: Clocked) {
    && |s.tin| == |s.tout| == |s.prog| == |s.at|
    && (forall k {:trigger OnWalk(s, k)} :: 0 <= k < |s.walk| ==> OnWalk(s, k))
    && (forall v :: 0 <= v < |s.tin| && s.tin[v] != -1 && s.tout[v] == -1 ==> 0 <= s.at[v] < |s.walk| && s.walk[s.at[v]].0 == v)
  }

  ghost predicate Shape(t: Tree, s: Clocked) {
    Times(t, s) && Walking(s)
  }

  ghost predicate OnWalk(s: Clocked, k: nat)
    requires |s.tin| == |s.tout| == |s.prog| == |s.at| && k < |s.walk|
  {
    var v := s.walk[k].0;
    v < |s.tin| && s.tin[v] != -1 && s.tout[v] == -1 && s.at[v] == k && s.prog[v] == s.walk[k].1
  }

  /** The clock facts about a node and its parent. */
  ghost predicate NodeAt(t: Tree, s: Clocked, c: nat)
    requires Sized(t, s) && c < |s.tin| && Hangs(t, c)
  {
    var p := t.par[c];
    if s.tin[c] == -1 then s.prog[p] <= t.pos[c]
    else
      && s.tin[p] != -1 && s.tin[p] < s.tin[c] && t.pos[c] < s.prog[p]
      && (s.tout[p] != -1 ==> s.tout[c] != -1 && s.tout[c] < s.tout[p])
      && (s.tout[c] == -1 ==> s.tout[p] == -1 && t.pos[c] + 1 == s.prog[p] && s.at[c] == s.at[p] + 1)
  }

  ghost predicate Nodes(t: Tree, s: Clocked) {
    Sized(t, s) && forall c: nat {:trigger NodeAt(t, s, c)} :: c < |s.tin| && 0 <= t.rank[c] && c != t.entry ==> Hangs(t, c) && NodeAt(t, s, c)
  }

  /** A child is left before its next sibling is entered. */
  ghost predicate Apart(t: Tree, s: Clocked, p: nat, j: nat, k: nat)
    requires Sized(t, s) && p < |s.tin| && j < k < |t.children[p]|
  {
    var x, y := t.children[p][j], t.children[p][k];
    x < |s.tin| && y < |s.tin| && s.tout[x] != -1 && s.tout[x] < s.tin[y]
  }

  ghost predicate Siblings(t: Tree, s: Clocked) {
    && Sized(t, s)
    && forall p: nat, j: nat, k: nat {:trigger Apart(t, s, p, j, k)} ::
         p < |s.tin| && j < k < s.prog[p] && k < |t.children[p]| ==> Apart(t, s, p, j, k)
  }

  /** preorder lists the entered nodes by entry time. */
  ghost predicate Listed(s: Clocked) {
    && (forall k :: 0 <= k < |s.preorder| ==> s.preorder[k] < |s.tin| && 0 <= s.tin[s.preorder[k]] < s.clock)
    && (forall j, k :: 0 <= j < k < |s.preorder| ==> s.tin[s.preorder[j]] < s.tin[s.preorder[k]])
    && (forall v: nat :: v < |s.tin| && s.tin[v] != -1 ==> v in s.preorder)
  }

  ghost predicate Inv(t: Tree, s: Clocked) {
    Shape(t, s) && Nodes(t, s) && Siblings(t, s) && Listed(s)
  }

  // ------------------------------------------------------------ the machine

  ghost predicate CanStep(t: Tree, s: Clocked) {
    && |s.tin| == |s.tout| == |s.prog| == |s.at| == |t.children| && |s.walk| > 0
    && var (v, i) := s.walk[|s.walk| - 1];
       v < |s.tin| && i <= |t.children[v]| && (i < |t.children[v]| ==> t.children[v][i] < |s.tin|)
  }

  ghost function Enter(s: Clocked, v: BlockId, i: nat, c: BlockId): Clocked
    requires |s.walk| > 0 && c < |s.tin| == |s.at| && v < |s.prog|
  {
    s.(tin := s.tin[c := s.clock], clock := s.clock + 1, preorder := s.preorder + [c], prog := s.prog[v := i + 1],
       at := s.at[c := |s.walk|], walk := s.walk[|s.walk| - 1 := (v, i + 1)] + [(c, 0)])
  }

  ghost function Leave(s: Clocked, v: BlockId): Clocked
    requires |s.walk| > 0 && v < |s.tout|
  {
    s.(tout := s.tout[v := s.clock], clock := s.clock + 1, walk := s.walk[..|s.walk| - 1])
  }

  ghost function Step(t: Tree, s: Clocked): Clocked
    requires CanStep(t, s)
  {
    var (v, i) := s.walk[|s.walk| - 1];
    if i < |t.children[v]| then Enter(s, v, i, t.children[v][i]) else Leave(s, v)
  }

  ghost function Start(t: Tree): Clocked
    requires t.entry < |t.children|
  {
    var n := |t.children|;
    Clocked(seq(n, i => -1)[t.entry := 0], seq(n, i => -1), 1, [(t.entry, 0)], [t.entry], seq(n, i => 0), seq(n, i => 0))
  }

  ghost function Run(t: Tree, k: nat): Clocked
    requires t.entry < |t.children|
  {
    if k == 0 then Start(t)
    else
      var s := Run(t, k - 1);
      if CanStep(t, s) then Step(t, s) else s
  }

  lemma StartInv(t: Tree)
    requires ValidTree(t)
    ensures Inv(t, Start(t))
  {
    var s := Start(t);
    forall c: nat | c < |s.tin| && 0 <= t.rank[c] && c != t.entry ensures Hangs(t, c) && NodeAt(t, s, c) {
      assert Hangs(t, c);
    }
  }

  ghost predicate Top(t: Tree, s: Clocked, v: BlockId, i: nat) {
    Shape(t, s) && |s.walk| > 0 && s.walk[|s.walk| - 1] == (v, i)
  }

  lemma TopFacts(t: Tree, s: Clocked, v: BlockId, i: nat)
    requires Top(t, s, v, i)
    ensures v < |s.tin| && s.tin[v] != -1 && s.tout[v] == -1 && s.at[v] == |s.walk| - 1 && s.prog[v] == i <= |t.children[v]|
    ensures i < |t.children[v]| ==> IsChild(t, v, i)
  {
    assert OnWalk(s, |s.walk| - 1);
  }

  /** A child whose turn it is has not been entered yet. */
  lemma FreshChild(t: Tree, s: Clocked, v: BlockId, i: nat)
    requires Top(t, s, v, i) && Nodes(t, s) && v < |t.children| && i < |t.children[v]|
    ensures IsChild(t, v, i) && s.tin[t.children[v][i]] == -1 && s.tout[t.children[v][i]] == -1 && t.children[v][i] != v
  {
    TopFacts(t, s, v, i);
    var c := t.children[v][i];
    assert NodeAt(t, s, c);
  }

  lemma EnterTimes(t: Tree, s: Clocked, v: BlockId, i: nat, c: BlockId)
    requires Times(t, s) && |s.walk| > 0 && v < |s.tin| && i < |t.children[v]| && c < |s.tin| && c != v
    requires s.tin[v] != -1 && s.tout[v] == -1 && s.tin[c] == -1 && t.rank[c] >= 0 && 0 <= s.clock
    ensures Times(t, Enter(s, v, i, c))
  {
  }

  lemma EnterWalking(s: Clocked, v: BlockId, i: nat, c: BlockId)
    requires Walking(s) && |s.walk| > 0 && s.walk[|s.walk| - 1] == (v, i) && v < |s.tin| && c < |s.tin| && c != v
    requires s.tin[c] == -1 && s.tout[c] == -1 && s.prog[c] == 0 && 0 <= s.clock
    ensures Walking(Enter(s, v, i, c))
  {
    var s' := Enter(s, v, i, c);
    forall k | 0 <= k < |s'.walk| ensures OnWalk(s', k) {
      assert OnWalk(s, |s.walk| - 1);
      if k < |s.walk| { assert OnWalk(s, k); }
    }
  }

  lemma EnterShape(t: Tree, s: Clocked, v: BlockId, i: nat)
    requires Top(t, s, v, i) && Nodes(t, s) && v < |t.children| && i < |t.children[v]|
    ensures t.children[v][i] < |s.tin| && Shape(t, Enter(s, v, i, t.children[v][i]))
  {
    TopFacts(t, s, v, i);
    FreshChild(t, s, v, i);
    EnterTimes(t, s, v, i, t.children[v][i]);
    EnterWalking(s, v, i, t.children[v][i]);
  }

  lemma EnterNodes(t: Tree, s: Clocked, v: BlockId, i: nat)
    requires Top(t, s, v, i) && Nodes(t, s) && v < |t.children| && i < |t.children[v]|
    ensures t.children[v][i] < |s.tin| && Nodes(t, Enter(s, v, i, t.children[v][i]))
  {
    TopFacts(t, s, v, i);
    FreshChild(t, s, v, i);
    var c := t.children[v][i];
    var s' := Enter(s, v, i, c);
    forall x: nat | x < |s.tin| && 0 <= t.rank[x] && x != t.entry ensures Hangs(t, x) && NodeAt(t, s', x) {
      assert NodeAt(t, s, x);
    }
  }

  lemma EnterSiblings(t: Tree, s: Clocked, v: BlockId, i: nat)
    requires Top(t, s, v, i) && Nodes(t, s) && Siblings(t, s) && v < |t.children| && i < |t.children[v]|
    ensures t.children[v][i] < |s.tin| && Siblings(t, Enter(s, v, i, t.children[v][i]))
  {
    TopFacts(t, s, v, i);
    FreshChild(t, s, v, i);
    var c := t.children[v][i];
    var s' := Enter(s, v, i, c);
    forall p: nat, j: nat, k: nat | p < |s.tin| && j < k < s'.prog[p] && k < |t.children[p]| ensures Apart(t, s', p, j, k) {
      assert IsChild(t, p, j) && IsChild(t, p, k);
      var x := t.children[p][j];
      if p == v && k == i {
        assert NodeAt(t, s, x);
      } else {
        assert Apart(t, s, p, j, k);
        assert NodeAt(t, s, t.children[p][k]);
      }
    }
  }

  lemma EnterListed(s: Clocked, v: BlockId, i: nat, c: BlockId)
    requires Listed(s) && |s.walk| > 0 && v < |s.prog| && c < |s.tin| == |s.at| && s.tin[c] == -1 && 0 <= s.clock
    ensures Listed(Enter(s, v, i, c))
  {
    var s' := Enter(s, v, i, c);
    assert s'.preorder[|s.preorder|] == c;
    forall x: nat | x < |s'.tin| && s'.tin[x] != -1 ensures x in s'.preorder {
      if x != c { assert x in s.preorder; }
    }
  }

  lemma LeaveTimes(t: Tree, s: Clocked, v: BlockId)
    requires Times(t, s) && |s.walk| > 0 && v < |s.tin| && s.tin[v] != -1 && s.prog[v] == |t.children[v]| && 0 <= s.clock
    ensures Times(t, Leave(s, v))
  {
  }

  lemma LeaveWalking(s: Clocked, v: BlockId, i: nat)
    requires Walking(s) && |s.walk| > 0 && s.walk[|s.walk| - 1] == (v, i) && v < |s.tin| && 0 <= s.clock
    ensures Walking(Leave(s, v))
  {
    var s' := Leave(s, v);
    forall k | 0 <= k < |s'.walk| ensures OnWalk(s', k) {
      assert OnWalk(s, k);
      assert OnWalk(s, |s.walk| - 1);
    }
  }

  lemma LeaveShape(t: Tree, s: Clocked, v: BlockId, i: nat)
    requires Top(t, s, v, i) && v < |t.children| && i == |t.children[v]|
    ensures v < |s.tout| && Shape(t, Leave(s, v))
  {
    TopFacts(t, s, v, i);
    LeaveTimes(t, s, v);
    LeaveWalking(s, v, i);
  }

  lemma LeaveNodes(t: Tree, s: Clocked, v: BlockId, i: nat)
    requires Top(t, s, v, i) && Nodes(t, s) && v < |t.children| && i == |t.children[v]|
    ensures v < |s.tout| && Nodes(t, Leave(s, v))
  {
    TopFacts(t, s, v, i);
    var s' := Leave(s, v);
    forall x: nat | x < |s.tin| && 0 <= t.rank[x] && x != t.entry ensures Hangs(t, x) && NodeAt(t, s', x) {
      assert NodeAt(t, s, x);
    }
  }

  lemma LeaveSiblings(t: Tree, s: Clocked, v: BlockId, i: nat)
    requires Top(t, s, v, i) && Siblings(t, s) && v < |t.children|
    ensures v < |s.tout| && Siblings(t, Leave(s, v))
  {
    TopFacts(t, s, v, i);
    var s' := Leave(s, v);
    forall p: nat, j: nat, k: nat | p < |s.tin| && j < k < s'.prog[p] && k < |t.children[p]| ensures Apart(t, s', p, j, k) {
      assert Apart(t, s, p, j, k);
    }
  }

  lemma StepInv(t: Tree, s: Clocked)
    requires Inv(t, s) && |s.walk| > 0
    ensures CanStep(t, s) && Inv(t, Step(t, s))
  {
    var (v, i) := s.walk[|s.walk| - 1];
    TopFacts(t, s, v, i);
    if i < |t.children[v]| {
      EnterShape(t, s, v, i);
      EnterNodes(t, s, v, i);
      EnterSiblings(t, s, v, i);
      FreshChild(t, s, v, i);
      EnterListed(s, v, i, t.children[v][i]);
    } else {
      LeaveShape(t, s, v, i);
      LeaveNodes(t, s, v, i);
      LeaveSiblings(t, s, v, i);
    }
  }

  lemma {:induction false} RunInv(t: Tree, k: nat)
    requires ValidTree(t)
    ensures Inv(t, Run(t, k))
  {
    if k == 0 {
      StartInv(t);
    } else {
      RunInv(t, k - 1);
      if CanStep(t, Run(t, k - 1)) { StepInv(t, Run(t, k - 1)); }
    }
  }

  /** Children to enter and exits to make at node v. */
  ghost function WorkAt(t: Tree, s: Clocked, v: nat): nat {
    if v < |t.children| && v < |s.prog| && v < |s.tout| && s.prog[v] <= |t.children[v]|
    then |t.children[v]| - s.prog[v] + (if s.tout[v] == -1 then 1 else 0) else 0
  }

  ghost function Work(t: Tree, s: Clocked, n: nat): nat {
    if n == 0 then 0 else Work(t, s, n - 1) + WorkAt(t, s, n - 1)
  }

  lemma {:induction false} WorkDecreases(t: Tree, s': Clocked, s: Clocked, n: nat, b: nat)
    requires forall v: nat :: v < n ==> WorkAt(t, s', v) <= WorkAt(t, s, v)
    requires WorkAt(t, s', b) < WorkAt(t, s, b)
    ensures Work(t, s', n) <= Work(t, s, n)
    ensures b < n ==> Work(t, s', n) < Work(t, s, n)
  {
    if n > 0 { WorkDecreases(t, s', s, n - 1, b); }
  }

  lemma RunStep(t: Tree, k: nat, s: Clocked)
    requires ValidTree(t) && s == Run(t, k) && |s.walk| > 0
    ensures CanStep(t, s) && Step(t, s) == Run(t, k + 1)
    ensures Work(t, Step(t, s), |t.children|) < Work(t, s, |t.children|)
  {
    RunInv(t, k);
    StepInv(t, s);
    var (v, i) := s.walk[|s.walk| - 1];
    TopFacts(t, s, v, i);
    WorkDecreases(t, Step(t, s), s, |t.children|, v);
  }

  // ------------------------------------------------- what the clocks mean

  /** a is b or one of its ancestors. */
  ghost predicate Ancestor(t: Tree, a: nat, b: nat)
    requires ValidTree(t) && b < |t.rank|
    decreases t.rank[b]
  {
    a == b || (0 <= t.rank[b] && b != t.entry && Hangs(t, b) && Ancestor(t, a, t.par[b]))
  }

  ghost predicate Numbered(t: Tree, s: Clocked) {
    Inv(t, s) && s.walk == []
  }

  lemma {:induction false} AllVisited(t: Tree, s: Clocked, c: nat)
    requires Numbered(t, s) && c < |t.rank| && 0 <= t.rank[c]
    ensures s.tin[c] != -1 && s.tout[c] != -1
    decreases t.rank[c]
  {
    if c != t.entry {
      assert NodeAt(t, s, c);
      AllVisited(t, s, t.par[c]);
    }
  }

  ghost predicate Within(s: Clocked, a: nat, b: nat)
    requires a < |s.tin| == |s.tout| && b < |s.tin|
  {
    s.tin[a] <= s.tin[b] && s.tout[b] <= s.tout[a]
  }

  lemma {:induction false} AncestorWithin(t: Tree, s: Clocked, a: nat, b: nat)
    requires Numbered(t, s) && b < |t.rank| && 0 <= t.rank[b] && Ancestor(t, a, b)
    ensures a < |t.rank| && 0 <= t.rank[a] <= t.rank[b] && Within(s, a, b)
    ensures a != b ==> t.rank[a] < t.rank[b] && s.tin[a] < s.tin[b]
    decreases t.rank[b]
  {
    if a != b {
      assert NodeAt(t, s, b);
      AllVisited(t, s, b);
      AllVisited(t, s, t.par[b]);
      AncestorWithin(t, s, a, t.par[b]);
    }
  }

  /** The child of p on the way down to b. */
  lemma {:induction false} ChildTowards(t: Tree, p: nat, b: nat) returns (c: nat)
    requires ValidTree(t) && b < |t.rank| && 0 <= t.rank[b] && Ancestor(t, p, b) && p != b
    ensures c < |t.rank| && 0 <= t.rank[c] && c != t.entry && Hangs(t, c) && t.par[c] == p && Ancestor(t, c, b)
    decreases t.rank[b]
  {
    if t.par[b] == p {
      c := b;
    } else {
      c := ChildTowards(t, p, t.par[b]);
    }
  }

  /** Unrelated nodes have disjoint intervals. */
  lemma {:induction false} UnrelatedDisjoint(t: Tree, s: Clocked, a: nat, b: nat)
    requires Numbered(t, s) && a < |t.rank| && b < |t.rank| && 0 <= t.rank[a] && 0 <= t.rank[b]
    requires !Ancestor(t, a, b) && !Ancestor(t, b, a)
    ensures s.tout[a] < s.tin[b] || s.tout[b] < s.tin[a]
    decreases t.rank[a]
  {
    RootIsAncestor(t, b);
    assert Hangs(t, a) && NodeAt(t, s, a);
    var p := t.par[a];
    AllVisited(t, s, a);
    AllVisited(t, s, b);
    AllVisited(t, s, p);
    if Ancestor(t, p, b) {
      assert p != b;
      var c := ChildTowards(t, p, b);
      AncestorWithin(t, s, c, b);
      AllVisited(t, s, c);
      assert c != a;
      var j, k := t.pos[a], t.pos[c];
      assert j != k;
      if j < k { assert Apart(t, s, p, j, k); } else { assert Apart(t, s, p, k, j); }
    } else {
      UnrelatedDisjoint(t, s, p, b);
    }
  }

  lemma {:induction false} RootIsAncestor(t: Tree, b: nat)
    requires ValidTree(t) && b < |t.rank| && 0 <= t.rank[b]
    ensures Ancestor(t, t.entry, b)
    decreases t.rank[b]
  {
    if b != t.entry {
      assert Hangs(t, b);
      RootIsAncestor(t, t.par[b]);
    }
  }

  /** Interval containment is ancestry. */
  lemma WithinIffAncestor(t: Tree, s: Clocked, a: nat, b: nat)
    requires Numbered(t, s) && a < |t.rank| && b < |t.rank| && 0 <= t.rank[a] && 0 <= t.rank[b]
    ensures Within(s, a, b) <==> Ancestor(t, a, b)
  {
    AllVisited(t, s, a);
    AllVisited(t, s, b);
    if Ancestor(t, a, b) {
      AncestorWithin(t, s, a, b);
    } else if Ancestor(t, b, a) {
      AncestorWithin(t, s, b, a);
    } else {
      UnrelatedDisjoint(t, s, a, b);
    }
  }

  /** A child is left before its next sibling is entered. */
  lemma ChildrenApart(t: Tree, s: Clocked, p: nat, j: nat, k: nat)
    requires Numbered(t, s) && p < |t.children| && j < k < |t.children[p]|
    ensures t.children[p][j] < |s.tin| && t.children[p][k] < |s.tin| && s.tout[t.children[p][j]] < s.tin[t.children[p][k]]
  {
    assert IsChild(t, p, j) && IsChild(t, p, k);
    AllVisited(t, s, t.children[p][k]);
    assert NodeAt(t, s, t.children[p][k]);
    assert Apart(t, s, p, j, k);
  }

  // -------------------------------------------------------- the code itself

  /** The arrays and lists of the running walk hold the machine state s. */
  ghost predicate Holds(s: Clocked, tin: array<int>, tout: array<int>, clock: int, walk: seq<(BlockId, nat)>, preorder: seq<BlockId>)
    reads tin, tout
  {
    tin[..] == s.tin && tout[..] == s.tout && clock == s.clock && walk == s.walk && preorder == s.preorder
  }

  /** One turn of the walk: enter the next child of the top node, or leave it. */
  method Turn(children: seq<seq<BlockId>>, tin: array<int>, tout: array<int>, clock: int, walk: seq<(BlockId, nat)>,
              preorder: seq<BlockId>, ghost t: Tree, ghost s: Clocked)
    returns (clock': int, walk': seq<(BlockId, nat)>, preorder': seq<BlockId>)
    requires CanStep(t, s) && t.children == children && tin != tout && Holds(s, tin, tout, clock, walk, preorder)
    modifies tin, tout
    ensures Holds(Step(t, s), tin, tout, clock', walk', preorder')
  {
    clock', preorder' := clock + 1, preorder;
    var (v, i) := walk[|walk| - 1];
    if i < |children[v]| {
      var c := children[v][i];
      walk' := walk[|walk| - 1 := (v, i + 1)] + [(c, 0)];
      tin[c] := clock;
      preorder' := preorder + [c];
    } else {
      tout[v] := clock;
      walk' := walk[..|walk| - 1];
    }
  }

  method NumberTree(children: seq<seq<BlockId>>, entry: BlockId, ghost t: Tree)
    returns (tin: array<int>, tout: array<int>, preorder: seq<BlockId>, ghost s: Clocked)
    requires ValidTree(t) && t.children == children && t.entry == entry
    ensures Numbered(t, s) && tin[..] == s.tin && tout[..] == s.tout && preorder == s.preorder
  {
    var n := |children|;
    tin := new int[n](i => -1);
    tout := new int[n](i => -1);
    var clock := 0;
    var walk: seq<(BlockId, nat)> := [(entry, 0)];
    tin[entry] := clock;
    clock := clock + 1;
    preorder := [entry];
    ghost var k := 0;
    s := Run(t, 0);
    while |walk| > 0
      invariant s == Run(t, k)
      invariant tin != tout && Holds(s, tin, tout, clock, walk, preorder)
      decreases Work(t, s, n)
    {
      RunStep(t, k, s);
      clock, walk, preorder := Turn(children, tin, tout, clock, walk, preorder, t, s);
      s, k := Step(t, s), k + 1;
    }
    RunInv(t, k);
  }
}
