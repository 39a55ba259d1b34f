// The lexical subtree of a function (src/cfg/env-graph.ts:499-559): what a copy of it takes along.
module EnvSubtree {
  import opened CfgTypes
  import opened EnvState

  /** childrenOf: by owner of the environment the child captured. */
  type Children = map<Fn, seq<Fn>>

  /** creatorsOf, in the order the source's map is iterated: a function with the functions
      whose bodies create it. */
  type Creators = seq<(Fn, seq<Fn>)>

  function Kids(children: Children, m: Fn): seq<Fn> {
    if m in children then children[m] else []
  }

  /** The owned children of each function, from what every function captured. */
  method ChildrenOf(captured: seq<(Fn, Option<Node>)>, owner: map<Node, Fn>, globalCode: Fn) returns (children: Children)
    requires forall k :: 0 <= k < |captured| && captured[k].1.Some? ==> captured[k].1.value in owner
    ensures forall m, c :: c in Kids(children, m) <==> exists k {:trigger captured[k]} :: 0 <= k < |captured| && OwnedBy(captured[k], owner, globalCode, m, c)
  {
    children := map[];
    for k := 0 to |captured|
      invariant forall m, c :: c in Kids(children, m) <==> exists j {:trigger captured[j]} :: 0 <= j < k && OwnedBy(captured[j], owner, globalCode, m, c)
    {
      var (g, env) := captured[k];
      if env.None? || g == globalCode { continue; }
      var o := owner[env.value];
      ghost var before := children;
      children := children[o := Kids(children, o) + [g]];
      forall m, c ensures c in Kids(children, m) <==> c in Kids(before, m) || OwnedBy(captured[k], owner, globalCode, m, c) {
        if m == o { assert Kids(children, m) == Kids(before, m) + [g]; }
      }
    }
  }

  predicate OwnedBy(x: (Fn, Option<Node>), owner: map<Node, Fn>, globalCode: Fn, m: Fn, c: Fn) {
    x.0 == c && c != globalCode && x.1.Some? && x.1.value in owner && owner[x.1.value] == m
  }

  // ------------------------------------------------------------------- the closure

  predicate AnyIn(cs: seq<Fn>, s: set<Fn>) {
    exists k :: 0 <= k < |cs| && cs[k] in s
  }

  predicate AllIn(cs: seq<Fn>, s: set<Fn>, c: Fn) {
    forall k :: 0 <= k < |cs| ==> cs[k] in s || cs[k] == c
  }

  /** The creation rule applies to entry x: some site inside, no site outside. */
  predicate Inside(x: (Fn, seq<Fn>), s: set<Fn>, globalCode: Fn): (r: bool)
    ensures r <==> CreatedInside(x, s, globalCode)
  {
    x.0 != globalCode && AnyIn(x.1, s) && AllIn(x.1, s, x.0)
  }

  /** Not the global code, created by a function of s, and by no function outside s but itself. */
  ghost predicate CreatedInside(x: (Fn, seq<Fn>), s: set<Fn>, globalCode: Fn) {
    x.0 != globalCode && (exists c :: c in x.1 && c in s) && forall c :: c in x.1 && c !in s ==> c == x.0
  }

  ghost predicate OwnsAll(children: Children, s: set<Fn>) {
    forall m, c {:trigger c in Kids(children, m)} :: m in s && c in Kids(children, m) ==> c in s
  }

  /** s is closed under ownership and under the all-creators-inside rule. */
  ghost predicate ClosedUnder(children: Children, creators: Creators, globalCode: Fn, s: set<Fn>) {
    OwnsAll(children, s) && forall k {:trigger creators[k]} :: 0 <= k < |creators| && CreatedInside(creators[k], s, globalCode) ==> creators[k].0 in s
  }

  ghost predicate IsLeast(children: Children, creators: Creators, globalCode: Fn, root: Fn, s: set<Fn>) {
    && root in s && ClosedUnder(children, creators, globalCode, s)
    && forall t :: root in t && ClosedUnder(children, creators, globalCode, t) ==> s <= t
  }

  /** Every function the two maps mention. */
  ghost predicate Universe(children: Children, creators: Creators, u: set<Fn>) {
    && (forall m, c {:trigger c in Kids(children, m)} :: c in Kids(children, m) ==> c in u)
    && forall k {:trigger creators[k]} :: 0 <= k < |creators| ==> creators[k].0 in u
  }

  /** addOwned: n and everything owned below it. */
  method AddOwned(children: Children, out: set<Fn>, n: Fn, ghost u: set<Fn>) returns (r: set<Fn>)
    requires OwnsAll(children, out) && n in u && forall m, c :: c in Kids(children, m) ==> c in u
    ensures out + {n} <= r && r <= out + u && OwnsAll(children, r)
    ensures forall t {:trigger OwnsAll(children, t)} :: out + {n} <= t && OwnsAll(children, t) ==> r <= t
  {
    r := out;
    var stack := [n];
    while |stack| > 0
      invariant out <= r <= out + u
      invariant n in r || n in stack
      invariant forall k :: 0 <= k < |stack| ==> stack[k] in u
      invariant forall m, c {:trigger c in Kids(children, m)} :: m in r && c in Kids(children, m) ==> c in r || c in stack
      invariant forall t {:trigger OwnsAll(children, t)} :: out + {n} <= t && OwnsAll(children, t) ==>
        r <= t && forall k :: 0 <= k < |stack| ==> stack[k] in t
      decreases (out + u) - r, |stack|
    {
      var m := stack[|stack| - 1];
      ghost var before := stack;
      stack := stack[..|stack| - 1];
      assert before == stack + [m];
      if m in r { continue; }
      ghost var r0 := r;
      r := r + {m};
      stack := stack + Kids(children, m);
      forall t | out + {n} <= t && OwnsAll(children, t) ensures r <= t && forall k :: 0 <= k < |stack| ==> stack[k] in t {
        assert before[|before| - 1] in t;
        forall k | 0 <= k < |stack| ensures stack[k] in t {
          assert stack[k] in Kids(children, m) || stack[k] == before[k];
        }
      }
    }
  }

  /** One pass over creatorsOf. */
  method Pass(children: Children, creators: Creators, globalCode: Fn, out: set<Fn>, ghost u: set<Fn>) returns (r: set<Fn>, grew: bool)
    requires Universe(children, creators, u) && OwnsAll(children, out)
    ensures out <= r <= out + u && OwnsAll(children, r) && (grew <==> r != out)
    ensures !grew ==> ClosedUnder(children, creators, globalCode, out)
    ensures forall t {:trigger ClosedUnder(children, creators, globalCode, t)} :: out <= t && ClosedUnder(children, creators, globalCode, t) ==> r <= t
  {
    r, grew := out, false;
    for k := 0 to |creators|
      invariant out <= r <= out + u && OwnsAll(children, r) && (grew <==> r != out)
      invariant !grew ==> forall j {:trigger creators[j]} :: 0 <= j < k && Inside(creators[j], out, globalCode) ==> creators[j].0 in out
      invariant forall t {:trigger ClosedUnder(children, creators, globalCode, t)} :: out <= t && ClosedUnder(children, creators, globalCode, t) ==> r <= t
    {
      var c := creators[k].0;
      if c in r || !Inside(creators[k], r, globalCode) { continue; }
      ghost var before := r;
      r := AddOwned(children, r, c, u);
      grew := true;
      forall t | out <= t && ClosedUnder(children, creators, globalCode, t) ensures r <= t {
        InsideGrows(creators[k], before, t, globalCode);
        assert OwnsAll(children, t) && before + {c} <= t;
      }
    }
  }

  lemma InsideGrows(x: (Fn, seq<Fn>), s: set<Fn>, t: set<Fn>, globalCode: Fn)
    requires s <= t && Inside(x, s, globalCode)
    ensures Inside(x, t, globalCode)
  {
    var k :| 0 <= k < |x.1| && x.1[k] in s;
    assert x.1[k] in t;
  }

  /** lexicalSubtree: the least set that holds root and is closed under both rules. */
  method LexicalSubtree(children: Children, creators: Creators, globalCode: Fn, root: Fn, ghost u: set<Fn>) returns (out: set<Fn>)
    requires Universe(children, creators, u) && root in u
    ensures IsLeast(children, creators, globalCode, root, out)
  {
    out := AddOwned(children, {}, root, u);
    assert out <= u;
    while true
      invariant root in out && out <= u && OwnsAll(children, out)
      invariant forall t {:trigger ClosedUnder(children, creators, globalCode, t)} :: root in t && ClosedUnder(children, creators, globalCode, t) ==> out <= t
      decreases u - out
    {
      var next, grew := Pass(children, creators, globalCode, out, u);
      if !grew { break; }
      out := next;
    }
  }

  ghost predicate SameCreators(a: Creators, b: Creators) {
    forall x: (Fn, seq<Fn>) :: x in a <==> x in b
  }

  lemma ClosedInAnyOrder(children: Children, a: Creators, b: Creators, globalCode: Fn, s: set<Fn>)
    requires SameCreators(a, b) && ClosedUnder(children, a, globalCode, s)
    ensures ClosedUnder(children, b, globalCode, s)
  {
    forall k | 0 <= k < |b| && Inside(b[k], s, globalCode) ensures b[k].0 in s {
      assert b[k] in a;
      var j :| 0 <= j < |a| && a[j] == b[k];
    }
  }

  /** The order the map is iterated in makes no difference. */
  lemma SubtreeIsOrderFree(children: Children, a: Creators, b: Creators, globalCode: Fn, root: Fn, s: set<Fn>, t: set<Fn>)
    requires SameCreators(a, b) && IsLeast(children, a, globalCode, root, s) && IsLeast(children, b, globalCode, root, t)
    ensures s == t
  {
    ClosedInAnyOrder(children, a, b, globalCode, s);
    ClosedInAnyOrder(children, b, a, globalCode, t);
  }
}
