// Copies of a function created with several environments (src/cfg/env-graph.ts:472-487,
// 561-630): parent chains, the positional remap between them, and why it preserves every
// walk up from the captured environment.
module EnvCopies {
  import opened CfgTypes
  import opened EnvState
  import opened SetOrder

  // ------------------------------------------------------------------ rooted chains

  ghost predicate Links(facts: Facts, c: seq<Node>, k: nat)
    requires k + 1 < |c|
  {
    c[k] in facts.parent && facts.parent[c[k]] == Some(c[k + 1])
  }

  /** From leaf, parent by parent. */
  ghost predicate IsWalk(facts: Facts, leaf: Node, c: seq<Node>) {
    |c| > 0 && c[0] == leaf && forall k: nat {:trigger Links(facts, c, k)} :: k + 1 < |c| ==> Links(facts, c, k)
  }

  ghost predicate Rooted(facts: Facts, n: Node) {
    n in facts.parent && facts.parent[n] == None
  }

  /** ... up to a root. */
  ghost predicate IsChain(facts: Facts, leaf: Node, c: seq<Node>) {
    IsWalk(facts, leaf, c) && Rooted(facts, c[|c| - 1])
  }

  lemma {:induction false} WalkIsPrefix(facts: Facts, leaf: Node, w: seq<Node>, c: seq<Node>, k: nat)
    requires IsWalk(facts, leaf, w) && IsChain(facts, leaf, c) && k < |w|
    ensures k < |c| && w[k] == c[k]
    decreases k
  {
    if k > 0 {
      WalkIsPrefix(facts, leaf, w, c, k - 1);
      assert Links(facts, w, k - 1);
      if k < |c| { assert Links(facts, c, k - 1); }
    }
  }

  /** The parent chain of a node, if there is one, is unique. */
  lemma ChainUnique(facts: Facts, leaf: Node, a: seq<Node>, b: seq<Node>)
    requires IsChain(facts, leaf, a) && IsChain(facts, leaf, b)
    ensures a == b
  {
    WalkIsPrefix(facts, leaf, a, b, |a| - 1);
    WalkIsPrefix(facts, leaf, b, a, |b| - 1);
    forall k | 0 <= k < |a| ensures a[k] == b[k] { WalkIsPrefix(facts, leaf, a, b, k); }
  }

  /** ... and never passes a node twice. */
  lemma {:induction false} ChainNoDup(facts: Facts, leaf: Node, c: seq<Node>, i: nat, j: nat)
    requires IsChain(facts, leaf, c) && i < j < |c|
    ensures c[i] != c[j]
    decreases |c| - j
  {
    assert Links(facts, c, i);
    if j + 1 < |c| {
      assert Links(facts, c, j);
      ChainNoDup(facts, leaf, c, i + 1, j + 1);
    }
  }

  /** chainOf: None exactly when the node has no rooted chain (a cycle, or a parent that is not
      known). */
  method ChainOf(facts: Facts, leaf: Node) returns (r: Option<seq<Node>>)
    ensures r.Some? ==> IsChain(facts, leaf, r.value)
    ensures r.None? ==> forall c :: !IsChain(facts, leaf, c)
  {
    var walk: seq<Node> := [leaf];
    var seen := {leaf};
    while true
      invariant IsWalk(facts, leaf, walk) && forall x :: x in seen <==> x in walk
      invariant forall k: nat :: k + 1 < |walk| ==> walk[k] in facts.parent
      decreases facts.parent.Keys - (seen - {walk[|walk| - 1]})
    {
      var cur := walk[|walk| - 1];
      if cur !in facts.parent {
        forall c ensures !IsChain(facts, leaf, c) { NoChain(facts, leaf, walk, c); }
        return None;
      }
      var up := facts.parent[cur];
      if up.None? { return Some(walk); }
      var longer := walk + [up.value];
      assert IsWalk(facts, leaf, longer) by {
        forall k: nat | k + 1 < |longer| ensures Links(facts, longer, k) {
          if k + 1 < |walk| { assert Links(facts, walk, k); }
        }
      }
      if up.value in seen {
        ghost var j: nat :| j < |walk| && walk[j] == up.value;
        forall c ensures !IsChain(facts, leaf, c) { NoCyclicChain(facts, leaf, longer, j, c); }
        return None;
      }
      walk := longer;
      assert cur in facts.parent.Keys - (seen - {cur});
      assert (seen + {up.value}) - {up.value} == seen;
      seen := seen + {up.value};
    }
  }

  lemma ChainKnown(facts: Facts, leaf: Node, c: seq<Node>, k: nat)
    requires IsChain(facts, leaf, c) && k < |c|
    ensures c[k] in facts.parent
  {
    if k + 1 < |c| { assert Links(facts, c, k); }
  }

  lemma NoChain(facts: Facts, leaf: Node, w: seq<Node>, c: seq<Node>)
    requires IsWalk(facts, leaf, w) && w[|w| - 1] !in facts.parent
    ensures !IsChain(facts, leaf, c)
  {
    if IsChain(facts, leaf, c) {
      WalkIsPrefix(facts, leaf, w, c, |w| - 1);
      ChainKnown(facts, leaf, c, |w| - 1);
    }
  }

  lemma NoCyclicChain(facts: Facts, leaf: Node, w: seq<Node>, j: nat, c: seq<Node>)
    requires IsWalk(facts, leaf, w) && j < |w| - 1 && w[j] == w[|w| - 1]
    ensures !IsChain(facts, leaf, c)
  {
    if IsChain(facts, leaf, c) {
      WalkIsPrefix(facts, leaf, w, c, |w| - 1);
      WalkIsPrefix(facts, leaf, w, c, j);
      ChainNoDup(facts, leaf, c, j, |w| - 1);
    }
  }

  // --------------------------------------------------------------------- the remap

  type Remap = map<Node, Node>

  function Renamed(m: Remap, n: Node): Node {
    if n in m then m[n] else n
  }

  function RenamedValue(m: Remap, v: EnvValue): EnvValue {
    if v.Env? then Env(Renamed(m, v.node)) else v
  }

  function RenamedParent(m: Remap, p: Option<Node>): Option<Node> {
    if p.Some? then Some(Renamed(m, p.value)) else None
  }

  /** m renames position by position from one chain to the other, and nothing else. */
  ghost predicate Positional(from: seq<Node>, to: seq<Node>, m: Remap) {
    && |from| == |to|
    && (forall k {:trigger from[k]} :: 0 <= k < |from| ==> Renamed(m, from[k]) == to[k])
    && forall n {:trigger n in m} :: n in m ==> n in from && m[n] != n
  }

  method BuildRemap(facts: Facts, leaf: Node, from: seq<Node>, to: seq<Node>) returns (m: Remap)
    requires IsChain(facts, leaf, from) && |to| == |from|
    ensures Positional(from, to, m)
  {
    m := map[];
    for k := 0 to |from|
      invariant forall j {:trigger from[j]} :: 0 <= j < k ==> Renamed(m, from[j]) == to[j]
      invariant forall n {:trigger n in m} :: n in m ==> n in from[..k] && m[n] != n
    {
      forall j: nat | j < k ensures from[j] != from[k] { ChainNoDup(facts, leaf, from, j, k); }
      assert from[k] !in from[..k];
      if from[k] != to[k] { m := m[from[k] := to[k]]; }
      assert from[..k + 1] == from[..k] + [from[k]];
    }
    assert from[..|from|] == from;
  }

  /** Renaming commutes with taking the parent, all along the captured chain. */
  lemma RemapCommutes(facts: Facts, env0: Node, env: Node, from: seq<Node>, to: seq<Node>, m: Remap, k: nat)
    requires IsChain(facts, env0, from) && IsChain(facts, env, to) && Positional(from, to, m) && k < |from|
    ensures from[k] in facts.parent && Renamed(m, from[k]) in facts.parent
    ensures facts.parent[Renamed(m, from[k])] == RenamedParent(m, facts.parent[from[k]])
  {
    assert Renamed(m, from[k]) == to[k];
    if k + 1 < |from| {
      assert Links(facts, from, k) && Links(facts, to, k);
      assert Renamed(m, from[k + 1]) == to[k + 1];
    }
  }

  /** Walking up a chain reads it off, and gives up above the root. */
  lemma {:induction false} WalkUpChain(facts: Facts, leaf: Node, c: seq<Node>, i: nat, levels: nat)
    requires IsChain(facts, leaf, c) && i < |c|
    ensures WalkUp(facts, Some(c[i]), levels) == if i + levels < |c| then Env(c[i + levels]) else Unknown
    decreases levels
  {
    if levels > 0 {
      if i + 1 < |c| {
        assert Links(facts, c, i);
        WalkUpChain(facts, leaf, c, i + 1, levels - 1);
      } else {
        assert WalkUp(facts, None, levels - 1) == Unknown;
      }
    }
  }

  /** A copy resolves every walk up from its own environment to the renaming of what copy 0
      resolves: nothing changes but the names. */
  lemma CopyPreservesWalks(facts: Facts, env0: Node, env: Node, from: seq<Node>, to: seq<Node>, m: Remap, levels: nat)
    requires IsChain(facts, env0, from) && IsChain(facts, env, to) && Positional(from, to, m)
    ensures WalkUp(facts, Some(env), levels) == RenamedValue(m, WalkUp(facts, Some(env0), levels))
  {
    WalkUpChain(facts, env0, from, 0, levels);
    WalkUpChain(facts, env, to, 0, levels);
  }

  // ---------------------------------------------------------------- deciding on copies

  type SiteKey = (Fn, nat)

  datatype ClosureCopy = ClosureCopy(index: nat, env: Node, sites: set<SiteKey>, envRemap: Remap)

  /** Ambiguous: no copies, the function stays unhosted. OneText: all copies would read alike. */
  datatype Outcome = Ambiguous | OneText | Copies(copies: seq<ClosureCopy>)

  type Sites = map<SiteKey, Option<Node>>

  ghost predicate Supplies(sites: Sites, env: Node) {
    exists k :: k in sites && sites[k] == Some(env)
  }

  /** Every site supplies an environment, at least two differ, the recorded one is among them,
      and all their chains are rooted and of one length. */
  ghost predicate Alignable(facts: Facts, sites: Sites, env0: Node, chain0: seq<Node>) {
    && (forall k :: k in sites ==> sites[k].Some?)
    && Supplies(sites, env0) && (exists e :: Supplies(sites, e) && e != env0)
    && IsChain(facts, env0, chain0)
    && forall e {:trigger Supplies(sites, e)} :: Supplies(sites, e) ==> exists c :: IsChain(facts, e, c) && |c| == |chain0|
  }

  ghost predicate NeverAlignable(facts: Facts, sites: Sites, env0: Node) {
    forall c {:trigger Alignable(facts, sites, env0, c)} :: !Alignable(facts, sites, env0, c)
  }

  ghost predicate CopyRight(facts: Facts, sites: Sites, chain0: seq<Node>, copy: ClosureCopy, chain: seq<Node>) {
    && IsChain(facts, copy.env, chain) && Positional(chain0, chain, copy.envRemap)
    && Supplies(sites, copy.env) && forall k :: k in copy.sites <==> k in sites && sites[k] == Some(copy.env)
  }

  /** The environments whose name some copy changes. */
  ghost predicate Differs(facts: Facts, sites: Sites, chain0: seq<Node>, n: Node) {
    exists e, c, k :: Supplies(sites, e) && IsChain(facts, e, c) && |c| == |chain0| && 0 <= k < |c| && chain0[k] == n && c[k] != n
  }

  ghost predicate Touches(subtree: set<Fn>, used: map<Fn, set<Node>>, facts: Facts, sites: Sites, chain0: seq<Node>) {
    exists g, n :: g in subtree && g in used && n in used[g] && Differs(facts, sites, chain0, n)
  }

  /** byEnv, or None when some site supplies no environment. */
  method GroupSites(sites: Sites) returns (byEnv: Option<map<Node, set<SiteKey>>>)
    ensures byEnv.None? <==> exists k :: k in sites && sites[k].None?
    ensures byEnv.Some? ==> forall e :: e in byEnv.value <==> Supplies(sites, e)
    ensures byEnv.Some? ==> forall e, k :: e in byEnv.value ==> (k in byEnv.value[e] <==> k in sites && sites[k] == Some(e))
  {
    var groups: map<Node, set<SiteKey>> := map[];
    var left := sites.Keys;
    while left != {}
      invariant left <= sites.Keys && forall k :: k in sites && k !in left ==> sites[k].Some?
      invariant forall e :: e in groups <==> exists k :: k in sites && k !in left && sites[k] == Some(e)
      invariant forall e, k :: e in groups ==> (k in groups[e] <==> k in sites && k !in left && sites[k] == Some(e))
      decreases left
    {
      var key :| key in left;
      if sites[key].None? { return None; }
      var e := sites[key].value;
      left := left - {key};
      groups := groups[e := (if e in groups then groups[e] else {}) + {key}];
    }
    return Some(groups);
  }

  /** The others come after the first, each once and ascending. */
  ghost predicate FirstThenAscending(r: seq<Node>) {
    && (forall i {:trigger r[i]} :: 1 <= i < |r| ==> r[i] != r[0])
    && forall i, j {:trigger r[i], r[j]} :: 1 <= i < j < |r| ==> r[i] < r[j]
  }

  /** env0 first, the others ascending. */
  function Order(envs: set<Node>, env0: Node): (r: seq<Node>)
    requires env0 in envs
    ensures forall e :: e in r <==> e in envs
    ensures |r| > 0 && r[0] == env0 && FirstThenAscending(r)
  {
    var rest := Naturals(Ascending(set e | e in envs && e != env0 :: e as int));
    assert forall i :: 0 <= i < |rest| ==> rest[i] in rest;
    [env0] + rest
  }

  function Naturals(s: seq<int>): (r: seq<nat>)
    requires forall x :: x in s ==> x >= 0
    ensures |r| == |s| && forall k :: 0 <= k < |r| ==> r[k] == s[k]
    ensures forall x: nat :: x in r <==> x as int in s
  {
    if s == [] then []
    else
      assert s == [s[0]] + s[1..];
      assert s[0] in s && forall x :: x in s[1..] ==> x in s;
      var n: nat := s[0];
      [n] + Naturals(s[1..])
  }

  lemma NotAlignable(facts: Facts, sites: Sites, env0: Node, chain0: seq<Node>, e: Node, found: Option<seq<Node>>, c: seq<Node>)
    requires IsChain(facts, env0, chain0) && Supplies(sites, e)
    requires if found.Some? then IsChain(facts, e, found.value) && |found.value| != |chain0| else forall x :: !IsChain(facts, e, x)
    ensures !Alignable(facts, sites, env0, c)
  {
    if Alignable(facts, sites, env0, c) {
      ChainUnique(facts, env0, chain0, c);
      var x :| IsChain(facts, e, x) && |x| == |c|;
      if found.Some? { ChainUnique(facts, e, found.value, x); }
    }
  }

  ghost predicate Aligned(facts: Facts, order: seq<Node>, n: nat, chain0: seq<Node>, chains: seq<seq<Node>>)
    requires n <= |order|
  {
    |chains| == n && forall j {:trigger order[j]} {:trigger chains[j]} :: 0 <= j < n ==> IsChain(facts, order[j], chains[j]) && |chains[j]| == |chain0|
  }

  /** The chains of every environment, or None when one has none of the right length. */
  method AlignChains(facts: Facts, sites: Sites, env0: Node, chain0: seq<Node>, order: seq<Node>) returns (chains: Option<seq<seq<Node>>>)
    requires IsChain(facts, env0, chain0) && forall e :: e in order <==> Supplies(sites, e)
    ensures chains.Some? ==> Aligned(facts, order, |order|, chain0, chains.value)
    ensures chains.None? ==> NeverAlignable(facts, sites, env0)
  {
    var out: seq<seq<Node>> := [];
    for i := 0 to |order|
      invariant Aligned(facts, order, i, chain0, out)
    {
      var c := ChainOf(facts, order[i]);
      if c.None? || |c.value| != |chain0| {
        forall x ensures !Alignable(facts, sites, env0, x) { NotAlignable(facts, sites, env0, chain0, order[i], c, x); }
        return None;
      }
      out := out + [c.value];
    }
    return Some(out);
  }

  predicate DiffersAt(chain0: seq<Node>, chains: seq<seq<Node>>, i: nat, k: nat, n: Node) {
    i < |chains| && k < |chain0| && k < |chains[i]| && chain0[k] == n && chains[i][k] != n
  }

  ghost predicate DiffersBelow(chain0: seq<Node>, chains: seq<seq<Node>>, n: Node, k: nat) {
    exists i: nat, j: nat {:trigger DiffersAt(chain0, chains, i, j, n)} :: j < k && DiffersAt(chain0, chains, i, j, n)
  }

  ghost predicate DiffersRow(chain0: seq<Node>, chains: seq<seq<Node>>, n: Node, k: nat, i: nat) {
    exists h: nat {:trigger DiffersAt(chain0, chains, h, k, n)} :: h < i && DiffersAt(chain0, chains, h, k, n)
  }

  method Differing(chain0: seq<Node>, chains: seq<seq<Node>>) returns (d: set<Node>)
    requires forall i :: 0 <= i < |chains| ==> |chains[i]| == |chain0|
    ensures forall n :: n in d <==> DiffersBelow(chain0, chains, n, |chain0|)
  {
    d := {};
    for k := 0 to |chain0|
      invariant forall n :: n in d <==> DiffersBelow(chain0, chains, n, k)
    {
      ghost var before := d;
      for i := 0 to |chains|
        invariant forall n :: n in d <==> n in before || DiffersRow(chain0, chains, n, k, i)
      {
        if chains[i][k] != chain0[k] {
          assert DiffersAt(chain0, chains, i, k, chain0[k]);
          d := d + {chain0[k]};
        }
      }
      forall n ensures n in d <==> DiffersBelow(chain0, chains, n, k + 1) {
        if DiffersBelow(chain0, chains, n, k + 1) && !DiffersBelow(chain0, chains, n, k) { assert DiffersRow(chain0, chains, n, k, |chains|); }
      }
    }
  }

  lemma DifferingIsDiffers(facts: Facts, sites: Sites, order: seq<Node>, chain0: seq<Node>, chains: seq<seq<Node>>, n: Node)
    requires Aligned(facts, order, |order|, chain0, chains) && forall e :: e in order <==> Supplies(sites, e)
    ensures DiffersBelow(chain0, chains, n, |chain0|) <==> Differs(facts, sites, chain0, n)
  {
    if i: nat, k: nat :| DiffersAt(chain0, chains, i, k, n) {
      assert order[i] in order && IsChain(facts, order[i], chains[i]);
    }
    if Differs(facts, sites, chain0, n) {
      var e, c, k :| Supplies(sites, e) && IsChain(facts, e, c) && |c| == |chain0| && 0 <= k < |c| && chain0[k] == n && c[k] != n;
      var i :| 0 <= i < |order| && order[i] == e;
      ChainUnique(facts, e, c, chains[i]);
      assert DiffersAt(chain0, chains, i, k, n);
    }
  }

  ghost predicate CopiesRight(facts: Facts, sites: Sites, env0: Node, chain0: seq<Node>, copies: seq<ClosureCopy>, chains: seq<seq<Node>>) {
    && |copies| == |chains| > 0 && copies[0].env == env0
    && (forall i {:trigger copies[i]} :: 1 <= i < |copies| ==> copies[i].env != env0)
    && (forall i, j {:trigger copies[i], copies[j]} :: 1 <= i < j < |copies| ==> copies[i].env < copies[j].env)
    && (forall i {:trigger copies[i]} :: 0 <= i < |copies| ==> copies[i].index == i && CopyRight(facts, sites, chain0, copies[i], chains[i]))
    && forall e :: Supplies(sites, e) ==> exists i :: 0 <= i < |copies| && copies[i].env == e
  }

  method BuildCopies(facts: Facts, sites: Sites, byEnv: map<Node, set<SiteKey>>, env0: Node, chain0: seq<Node>, order: seq<Node>, chains: seq<seq<Node>>)
    returns (copies: seq<ClosureCopy>)
    requires IsChain(facts, env0, chain0) && Aligned(facts, order, |order|, chain0, chains)
    requires |order| > 0 && order[0] == env0 && FirstThenAscending(order)
    requires forall e :: e in order <==> Supplies(sites, e)
    requires forall e {:trigger e in byEnv} :: e in byEnv <==> Supplies(sites, e)
    requires forall e, k {:trigger k in byEnv[e]} :: e in byEnv ==> (k in byEnv[e] <==> k in sites && sites[k] == Some(e))
    ensures CopiesRight(facts, sites, env0, chain0, copies, chains)
  {
    copies := [];
    for i := 0 to |order|
      invariant |copies| == i
      invariant forall j {:trigger copies[j]} :: 0 <= j < i ==>
        copies[j].env == order[j] && copies[j].index == j && CopyRight(facts, sites, chain0, copies[j], chains[j])
    {
      assert order[i] in order;
      var remap := BuildRemap(facts, env0, chain0, chains[i]);
      copies := copies + [ClosureCopy(i, order[i], byEnv[order[i]], remap)];
    }
    forall e | Supplies(sites, e) ensures exists i :: 0 <= i < |copies| && copies[i].env == e {
      assert e in order;
      var i :| 0 <= i < |order| && order[i] == e;
      assert copies[i].env == e;
    }
  }

  /** What a successful alignment hands on. */
  datatype Alignment = Alignment(byEnv: map<Node, set<SiteKey>>, order: seq<Node>, chains: seq<seq<Node>>)

  ghost predicate AlignmentRight(facts: Facts, sites: Sites, env0: Node, a: Alignment) {
    && |a.order| == |a.chains| > 0 && a.order[0] == env0 && FirstThenAscending(a.order) && Alignable(facts, sites, env0, a.chains[0])
    && Aligned(facts, a.order, |a.order|, a.chains[0], a.chains)
    && (forall e {:trigger e in a.order} :: e in a.order <==> Supplies(sites, e))
    && (forall e {:trigger e in a.byEnv} :: e in a.byEnv <==> Supplies(sites, e))
    && forall e, k {:trigger k in a.byEnv[e]} :: e in a.byEnv ==> (k in a.byEnv[e] <==> k in sites && sites[k] == Some(e))
  }

  lemma MissingEnvironment(facts: Facts, sites: Sites, env0: Node)
    requires exists k :: k in sites && sites[k].None?
    ensures NeverAlignable(facts, sites, env0)
  {
  }

  lemma NoFirstChain(facts: Facts, sites: Sites, env0: Node)
    requires forall c :: !IsChain(facts, env0, c)
    ensures NeverAlignable(facts, sites, env0)
  {
  }

  lemma AlignmentMade(facts: Facts, sites: Sites, env0: Node, first: seq<Node>, a: Alignment)
    requires (forall k :: k in sites ==> sites[k].Some?) && |a.byEnv| >= 2 && env0 in a.byEnv
    requires IsChain(facts, env0, first) && |a.order| > 0 && a.order[0] == env0 && FirstThenAscending(a.order) && Aligned(facts, a.order, |a.order|, first, a.chains)
    requires forall e {:trigger e in a.order} :: e in a.order <==> e in a.byEnv
    requires forall e {:trigger e in a.byEnv} :: e in a.byEnv <==> Supplies(sites, e)
    requires forall e, k {:trigger k in a.byEnv[e]} :: e in a.byEnv ==> (k in a.byEnv[e] <==> k in sites && sites[k] == Some(e))
    ensures AlignmentRight(facts, sites, env0, a)
  {
    ChainUnique(facts, env0, first, a.chains[0]);
    TwoEnvironments(sites, a.byEnv, env0);
    ChainsAlign(facts, sites, a.order, first, a.chains);
  }

  method Align(facts: Facts, sites: Sites, env0: Node) returns (r: Option<Alignment>)
    ensures r.None? ==> NeverAlignable(facts, sites, env0)
    ensures r.Some? ==> AlignmentRight(facts, sites, env0, r.value)
  {
    var grouped := GroupSites(sites);
    if grouped.None? {
      MissingEnvironment(facts, sites, env0);
      return None;
    }
    r := AlignGroups(facts, sites, grouped.value, env0);
  }

  method AlignGroups(facts: Facts, sites: Sites, byEnv: map<Node, set<SiteKey>>, env0: Node) returns (r: Option<Alignment>)
    requires forall k :: k in sites ==> sites[k].Some?
    requires forall e {:trigger e in byEnv} :: e in byEnv <==> Supplies(sites, e)
    requires forall e, k {:trigger k in byEnv[e]} :: e in byEnv ==> (k in byEnv[e] <==> k in sites && sites[k] == Some(e))
    ensures r.None? ==> NeverAlignable(facts, sites, env0)
    ensures r.Some? ==> AlignmentRight(facts, sites, env0, r.value)
  {
    if |byEnv| < 2 || env0 !in byEnv {
      OneEnvironment(facts, sites, byEnv, env0);
      return None;
    }
    var first := ChainOf(facts, env0);
    if first.None? {
      NoFirstChain(facts, sites, env0);
      return None;
    }
    var order := Order(byEnv.Keys, env0);
    var chains := AlignChains(facts, sites, env0, first.value, order);
    if chains.None? { return None; }
    r := Some(Alignment(byEnv, order, chains.value));
    AlignmentMade(facts, sites, env0, first.value, r.value);
  }

  /** The decision for one function whose sites disagree. `subtree` is its lexical subtree,
      `used` the environments each function's accesses resolved to. */
  method CopiesOf(facts: Facts, sites: Sites, env0: Option<Node>, subtree: set<Fn>, used: map<Fn, set<Node>>)
    returns (o: Outcome, ghost chains: seq<seq<Node>>)
    ensures o.Ambiguous? <==> env0.None? || NeverAlignable(facts, sites, env0.value)
    ensures !o.Ambiguous? ==> |chains| > 0 && Alignable(facts, sites, env0.value, chains[0])
    ensures !o.Ambiguous? ==> (o.Copies? <==> Touches(subtree, used, facts, sites, chains[0]))
    ensures o.Copies? ==> CopiesRight(facts, sites, env0.value, chains[0], o.copies, chains)
  {
    o, chains := Ambiguous, [];
    if env0.None? { return; }
    var aligned := Align(facts, sites, env0.value);
    if aligned.None? { return; }
    var a := aligned.value;
    chains := a.chains;
    var touched := SubtreeTouches(facts, sites, a, subtree, used, env0.value);
    if !touched { return OneText, chains; }
    var copies := BuildCopies(facts, sites, a.byEnv, env0.value, a.chains[0], a.order, a.chains);
    return Copies(copies), chains;
  }

  method SubtreeTouches(facts: Facts, sites: Sites, a: Alignment, subtree: set<Fn>, used: map<Fn, set<Node>>, ghost env0: Node) returns (touched: bool)
    requires AlignmentRight(facts, sites, env0, a)
    ensures touched <==> Touches(subtree, used, facts, sites, a.chains[0])
  {
    var differing := Differing(a.chains[0], a.chains);
    forall n ensures n in differing <==> Differs(facts, sites, a.chains[0], n) {
      DifferingIsDiffers(facts, sites, a.order, a.chains[0], a.chains, n);
    }
    touched := exists g :: g in subtree && g in used && used[g] * differing != {};
    TouchedIsTouches(subtree, used, facts, sites, a.chains[0], differing);
  }

  lemma OneEnvironment(facts: Facts, sites: Sites, byEnv: map<Node, set<SiteKey>>, env0: Node)
    requires forall e {:trigger e in byEnv} :: e in byEnv <==> Supplies(sites, e)
    requires |byEnv| < 2 || env0 !in byEnv
    ensures NeverAlignable(facts, sites, env0)
  {
    forall c ensures !Alignable(facts, sites, env0, c) {
      if Alignable(facts, sites, env0, c) {
        var e :| Supplies(sites, e) && e != env0;
        TwoMembers(byEnv.Keys, e, env0);
      }
    }
  }

  lemma TwoMembers(s: set<Node>, a: Node, b: Node)
    requires a in s && b in s && a != b
    ensures |s| >= 2
  {
    assert s == (s - {a}) + {a} && b in s - {a};
  }

  lemma TwoEnvironments(sites: Sites, byEnv: map<Node, set<SiteKey>>, env0: Node)
    requires forall e {:trigger e in byEnv} :: e in byEnv <==> Supplies(sites, e)
    requires |byEnv| >= 2 && env0 in byEnv
    ensures exists e :: Supplies(sites, e) && e != env0
  {
    if forall e :: e in byEnv ==> e == env0 { assert byEnv.Keys == {env0}; }
  }

  lemma ChainsAlign(facts: Facts, sites: Sites, order: seq<Node>, chain0: seq<Node>, chains: seq<seq<Node>>)
    requires Aligned(facts, order, |order|, chain0, chains) && forall e :: e in order <==> Supplies(sites, e)
    ensures forall e {:trigger Supplies(sites, e)} :: Supplies(sites, e) ==> exists c :: IsChain(facts, e, c) && |c| == |chain0|
  {
    forall e | Supplies(sites, e) ensures exists c :: IsChain(facts, e, c) && |c| == |chain0| {
      var i :| 0 <= i < |order| && order[i] == e;
      assert IsChain(facts, e, chains[i]);
    }
  }

  lemma TouchedIsTouches(subtree: set<Fn>, used: map<Fn, set<Node>>, facts: Facts, sites: Sites, chain0: seq<Node>, differing: set<Node>)
    requires forall n :: n in differing <==> Differs(facts, sites, chain0, n)
    ensures (exists g :: g in subtree && g in used && used[g] * differing != {}) <==> Touches(subtree, used, facts, sites, chain0)
  {
    if g :| g in subtree && g in used && used[g] * differing != {} {
      var n :| n in used[g] * differing;
      assert Differs(facts, sites, chain0, n);
    }
    if Touches(subtree, used, facts, sites, chain0) {
      var g, n :| g in subtree && g in used && n in used[g] && Differs(facts, sites, chain0, n);
      assert n in used[g] * differing;
    }
  }

  lemma RenamedDiffers(facts: Facts, sites: Sites, chain0: seq<Node>, copy: ClosureCopy, chain: seq<Node>, n: Node)
    requires CopyRight(facts, sites, chain0, copy, chain) && Renamed(copy.envRemap, n) != n
    ensures Differs(facts, sites, chain0, n)
  {
    var k :| 0 <= k < |chain0| && chain0[k] == n;
    assert Renamed(copy.envRemap, chain0[k]) == chain[k];
  }

  /** When one text is kept, every remap a copy would have had is the identity on every
      environment the subtree names. */
  lemma OneTextMeansSameNames(facts: Facts, sites: Sites, chain0: seq<Node>, subtree: set<Fn>, used: map<Fn, set<Node>>,
                              copy: ClosureCopy, chain: seq<Node>, g: Fn, n: Node)
    requires !Touches(subtree, used, facts, sites, chain0)
    requires CopyRight(facts, sites, chain0, copy, chain) && g in subtree && g in used && n in used[g]
    ensures Renamed(copy.envRemap, n) == n
  {
    if Renamed(copy.envRemap, n) != n { RenamedDiffers(facts, sites, chain0, copy, chain, n); }
  }

  lemma SelfRemapEmpty(c: seq<Node>, m: Remap, n: Node)
    requires Positional(c, c, m)
    ensures n !in m
  {
    if n in c {
      var k :| 0 <= k < |c| && c[k] == n;
      assert Renamed(m, c[k]) == c[k];
    }
  }

  /** Every copy resolves walks of its own chain to the renaming of copy 0's; copy 0 renames
      nothing. */
  lemma EveryCopyPreservesWalks(facts: Facts, sites: Sites, env0: Node, copies: seq<ClosureCopy>, chains: seq<seq<Node>>, i: nat, levels: nat)
    requires |chains| > 0 && Alignable(facts, sites, env0, chains[0])
    requires CopiesRight(facts, sites, env0, chains[0], copies, chains) && i < |copies|
    ensures WalkUp(facts, Some(copies[i].env), levels) == RenamedValue(copies[i].envRemap, WalkUp(facts, Some(env0), levels))
    ensures copies[0].envRemap == map[]
  {
    CopyPreservesWalks(facts, env0, copies[i].env, chains[0], chains[i], copies[i].envRemap, levels);
    assert CopyRight(facts, sites, chains[0], copies[0], chains[0]);
    forall n ensures n !in copies[0].envRemap { SelfRemapEmpty(chains[0], copies[0].envRemap, n); }
  }
}
