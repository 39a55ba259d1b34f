// Reachability over normal and exception edges (src/cfg/env-graph.ts:118-127 and the
// identical walk of src/cfg/invariants.ts:64-70).
module Reach {
  import opened CfgTypes

  type Handlers = map<BlockId, seq<BlockId>>

  /** A normal edge a -> b or an exception edge to a handler of a. */
  ghost predicate AnyEdge(blocks: seq<BasicBlock>, exc: Handlers, a: BlockId, b: BlockId) {
    IsEdge(blocks, a, b) || (a in exc && b in exc[a])
  }

  ghost predicate InRange(blocks: seq<BasicBlock>, exc: Handlers) {
    && EdgesValid(blocks)
    && forall a: nat, b: nat :: a in exc && b in exc[a] ==> b < |blocks|
  }

  ghost predicate AnyPath(blocks: seq<BasicBlock>, exc: Handlers, entry: BlockId, w: seq<BlockId>) {
    && |w| > 0
    && if |w| == 1 then w[0] == entry
       else AnyPath(blocks, exc, entry, w[..|w| - 1]) && AnyEdge(blocks, exc, w[|w| - 2], w[|w| - 1])
  }

  ghost predicate AnyReachable(blocks: seq<BasicBlock>, exc: Handlers, entry: BlockId, b: BlockId) {
    exists w :: AnyPath(blocks, exc, entry, w) && Last(w, b)
  }

  lemma AnyReachableStep(blocks: seq<BasicBlock>, exc: Handlers, entry: BlockId, a: BlockId, b: BlockId)
    requires AnyReachable(blocks, exc, entry, a) && AnyEdge(blocks, exc, a, b)
    ensures AnyReachable(blocks, exc, entry, b)
  {
    var w :| AnyPath(blocks, exc, entry, w) && Last(w, a);
    var v := w + [b];
    assert v[..|v| - 1] == w;
    assert AnyPath(blocks, exc, entry, v) && Last(v, b);
  }

  lemma {:induction false} ClosedHoldsAnyPath(blocks: seq<BasicBlock>, exc: Handlers, entry: BlockId, s: set<BlockId>, w: seq<BlockId>)
    requires entry in s && AnyPath(blocks, exc, entry, w)
    requires forall a, b {:trigger AnyEdge(blocks, exc, a, b)} :: a in s && AnyEdge(blocks, exc, a, b) ==> b in s
    ensures w[|w| - 1] in s
    decreases |w|
  {
    if |w| > 1 { ClosedHoldsAnyPath(blocks, exc, entry, s, w[..|w| - 1]); }
  }

  /** seen holds only reachable blocks, and all successors of those not on the stack. */
  ghost predicate Exploring(blocks: seq<BasicBlock>, exc: Handlers, entry: BlockId, seen: set<BlockId>, stack: seq<BlockId>) {
    && entry in seen
    && (forall b :: b in seen ==> b < |blocks| && AnyReachable(blocks, exc, entry, b))
    && (forall k :: 0 <= k < |stack| ==> stack[k] in seen)
    && forall a, b {:trigger AnyEdge(blocks, exc, a, b)} :: a in seen && a !in stack && AnyEdge(blocks, exc, a, b) ==> b in seen
  }

  /** Adds the unseen members of ts to both seen and the stack. */
  method Discover(blocks: seq<BasicBlock>, exc: Handlers, entry: BlockId, ts: seq<BlockId>, seen: set<BlockId>, stack: seq<BlockId>)
    returns (seen': set<BlockId>, stack': seq<BlockId>)
    requires forall k :: 0 <= k < |stack| ==> stack[k] in seen
    ensures forall b :: b in seen' <==> b in seen || b in ts
    ensures forall b :: b in stack' ==> b in stack || b in ts
    ensures forall b :: b in stack ==> b in stack'
    ensures forall b :: b in seen' && b !in seen ==> b in stack'
    ensures forall k :: 0 <= k < |stack'| ==> stack'[k] in seen'
    ensures seen' == seen ==> stack' == stack
  {
    seen', stack' := seen, stack;
    for k := 0 to |ts|
      invariant forall b :: b in seen' <==> b in seen || b in ts[..k]
      invariant forall b :: b in stack' ==> b in stack || b in ts[..k]
      invariant forall b :: b in stack ==> b in stack'
      invariant forall b :: b in seen' && b !in seen ==> b in stack'
      invariant forall k :: 0 <= k < |stack'| ==> stack'[k] in seen'
      invariant seen' == seen ==> stack' == stack
    {
      assert ts[..k + 1] == ts[..k] + [ts[k]];
      if ts[k] !in seen' {
        seen' := seen' + {ts[k]};
        stack' := stack' + [ts[k]];
      }
    }
    assert ts[..|ts|] == ts;
  }

  function Targets(succs: seq<Edge>): (r: seq<BlockId>)
    ensures |r| == |succs| && forall k :: 0 <= k < |r| ==> r[k] == succs[k].to
  {
    if succs == [] then [] else Targets(succs[..|succs| - 1]) + [succs[|succs| - 1].to]
  }

  lemma NextBlocks(blocks: seq<BasicBlock>, exc: Handlers, a: BlockId, b: BlockId)
    requires a < |blocks|
    ensures AnyEdge(blocks, exc, a, b) <==> b in Targets(blocks[a].succs) || (a in exc && b in exc[a])
  {
    var ts := Targets(blocks[a].succs);
    if e :| e in blocks[a].succs && e.to == b {
      var k :| 0 <= k < |blocks[a].succs| && blocks[a].succs[k] == e;
      assert ts[k] == b;
    }
    if b in ts {
      var k :| 0 <= k < |ts| && ts[k] == b;
      assert blocks[a].succs[k] in blocks[a].succs;
    }
  }

  ghost function Unseen(n: nat, seen: set<BlockId>): set<int> {
    set b | 0 <= b < n && b !in seen
  }

  lemma UnseenShrinks(n: nat, seen: set<BlockId>, seen': set<BlockId>)
    requires seen <= seen' && forall b :: b in seen' ==> b < n
    ensures if seen' == seen then Unseen(n, seen') == Unseen(n, seen) else Unseen(n, seen') < Unseen(n, seen)
  {
    if x :| x in seen' && x !in seen { assert x in Unseen(n, seen) && x !in Unseen(n, seen'); }
  }

  method ReachableBlocks(blocks: seq<BasicBlock>, exc: Handlers, entry: BlockId) returns (seen: set<BlockId>)
    requires InRange(blocks, exc) && entry < |blocks|
    ensures forall b :: b in seen <==> AnyReachable(blocks, exc, entry, b)
  {
    seen := {entry};
    var stack := [entry];
    assert AnyPath(blocks, exc, entry, [entry]) && Last([entry], entry);
    while |stack| > 0
      invariant Exploring(blocks, exc, entry, seen, stack)
      decreases Unseen(|blocks|, seen), |stack|
    {
      var b := stack[|stack| - 1];
      ghost var stack0, seen0 := stack, seen;
      stack := stack[..|stack| - 1];
      var succs := blocks[b].succs;
      seen, stack := Discover(blocks, exc, entry, Targets(succs), seen, stack);
      seen, stack := Discover(blocks, exc, entry, if b in exc then exc[b] else [], seen, stack);
      ExploreStep(blocks, exc, entry, seen0, stack0, b, seen, stack);
      UnseenShrinks(|blocks|, seen0, seen);
    }
    forall b | AnyReachable(blocks, exc, entry, b) ensures b in seen {
      var w :| AnyPath(blocks, exc, entry, w) && Last(w, b);
      ClosedHoldsAnyPath(blocks, exc, entry, seen, w);
    }
  }

  lemma ExploreStep(blocks: seq<BasicBlock>, exc: Handlers, entry: BlockId, seen: set<BlockId>, stack: seq<BlockId>, b: BlockId,
                    seen': set<BlockId>, stack': seq<BlockId>)
    requires InRange(blocks, exc) && Exploring(blocks, exc, entry, seen, stack) && |stack| > 0 && b == stack[|stack| - 1]
    requires forall x :: x in seen' <==> x in seen || x in Targets(blocks[b].succs) || (b in exc && x in exc[b])
    requires forall x :: x in stack[..|stack| - 1] ==> x in stack'
    requires forall x :: x in seen' && x !in seen ==> x in stack'
    requires forall k :: 0 <= k < |stack'| ==> stack'[k] in seen'
    ensures Exploring(blocks, exc, entry, seen', stack')
  {
    assert stack == stack[..|stack| - 1] + [b];
    forall x | x in seen' ensures x < |blocks| && AnyReachable(blocks, exc, entry, x) {
      if x !in seen {
        NextBlocks(blocks, exc, b, x);
        AnyReachableStep(blocks, exc, entry, b, x);
      }
    }
    forall x, y | x in seen' && x !in stack' && AnyEdge(blocks, exc, x, y) ensures y in seen' {
      if x == b { NextBlocks(blocks, exc, b, y); }
    }
  }
}
