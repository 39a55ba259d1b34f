// Which environments a function's body can name (src/cfg/env-graph.ts:654-705), and the slots
// that every accessor can.
module EnvVisible {
  import opened CfgTypes
  import opened EnvState

  function Up(facts: Facts, n: Node): Option<Node> {
    if n in facts.parent then facts.parent[n] else None
  }

  /** n is some number of parents above home. */
  ghost predicate OnChain(facts: Facts, home: Option<Node>, n: Node) {
    exists k: nat :: WalkUp(facts, home, k) == Env(n)
  }

  ghost predicate Visible(facts: Facts, created: set<Node>, home: Option<Node>, n: Node) {
    n in created || OnChain(facts, home, n)
  }

  lemma {:induction false} WalkNext(facts: Facts, start: Option<Node>, k: nat, n: Node)
    requires WalkUp(facts, start, k) == Env(n)
    ensures WalkUp(facts, start, k + 1) == if Up(facts, n).Some? then Env(Up(facts, n).value) else Unknown
    decreases k
  {
    if k > 0 { WalkNext(facts, Up(facts, start.value), k - 1, n); }
  }

  lemma ChainNext(facts: Facts, home: Option<Node>, n: Node)
    requires OnChain(facts, home, n) && Up(facts, n).Some?
    ensures OnChain(facts, home, Up(facts, n).value)
  {
    var k: nat :| WalkUp(facts, home, k) == Env(n);
    WalkNext(facts, home, k, n);
  }

  /** Every parent of a node in s is in s, or is e. */
  ghost predicate ClosedUpTo(facts: Facts, s: set<Node>, e: Option<Node>) {
    forall n {:trigger Up(facts, n)} :: n in s ==> Up(facts, n) == e || (Up(facts, n).Some? && Up(facts, n).value in s)
  }

  lemma {:induction false} ClosedHoldsWalk(facts: Facts, s: set<Node>, start: Option<Node>, k: nat, n: Node)
    requires ClosedUpTo(facts, s, None) && (start.Some? ==> start.value in s) && WalkUp(facts, start, k) == Env(n)
    ensures n in s
    decreases k
  {
    if k > 0 { ClosedHoldsWalk(facts, s, Up(facts, start.value), k - 1, n); }
  }

  /** visibleIn: the environments created in the function and the parent chain of the one it
      captured, whether or not that chain runs into a cycle. */
  method VisibleIn(facts: Facts, created: set<Node>, home: Option<Node>) returns (out: set<Node>)
    ensures forall n :: n in out <==> Visible(facts, created, home, n)
  {
    out := created;
    var e := home;
    var seen: set<Node> := {};
    if home.Some? { assert WalkUp(facts, home, 0) == Env(home.value); }
    while e.Some? && e.value !in seen
      invariant out == created + seen && ClosedUpTo(facts, seen, e) && (home.None? || home == e || home.value in seen)
      invariant forall n :: n in seen || e == Some(n) ==> OnChain(facts, home, n)
      decreases facts.parent.Keys - seen, e.Some?
    {
      var n := e.value;
      if Up(facts, n).Some? { ChainNext(facts, home, n); }
      assert n !in facts.parent ==> facts.parent.Keys - (seen + {n}) == facts.parent.Keys - seen;
      seen := seen + {n};
      out := out + {n};
      e := Up(facts, n);
    }
    forall n | OnChain(facts, home, n) ensures n in seen {
      var k: nat :| WalkUp(facts, home, k) == Env(n);
      ClosedHoldsWalk(facts, seen, home, k, n);
    }
  }

  /** What the classification knows about each function: what it creates and what it captured. */
  datatype Home = Home(created: set<Node>, env: Option<Node>)

  /** A slot is lexical exactly when its environment is visible in every function that reads or
      writes it. */
  method IsLexical(facts: Facts, homes: map<Fn, Home>, env: Node, accessors: seq<Fn>) returns (lexical: bool)
    requires forall f :: f in accessors ==> f in homes
    ensures lexical <==> forall f :: f in accessors ==> Visible(facts, homes[f].created, homes[f].env, env)
  {
    for i := 0 to |accessors|
      invariant forall j :: 0 <= j < i ==> Visible(facts, homes[accessors[j]].created, homes[accessors[j]].env, env)
    {
      var home := homes[accessors[i]];
      var visible := VisibleIn(facts, home.created, home.env);
      if env !in visible {
        assert accessors[i] in accessors;
        return false;
      }
    }
    lexical := true;
  }
}
