// The __pc guard of an over-reaching try (planTries, src/emit/function.ts:86-141, printed at
// 825-836): the printed range test is membership in the exception region.
module TryGuard {
  import opened CfgTypes
  import opened BlockFlow
  import opened Regions
  import opened Exceptions

  /** The structured tree, as far as the plan looks at it. `own` is the block a node stands for,
      if it stands for one; `guardable` is false for a folded finalizer and for a region whose
      guard was proven redundant. */
  datatype Node =
    | Plain(own: Option<int>, kids: seq<Node>)
    | TryNode(cfgBlock: int, region: nat, guardable: bool, body: Node, handler: Node)

  function Kids(n: Node): seq<Node> {
    match n
    case Plain(_, kids) => kids
    case TryNode(_, _, _, body, handler) => [body, handler]
  }

  function OwnBlocks(n: Node): set<int> {
    match n
    case Plain(own, _) => if own.Some? then {own.value} else {}
    case TryNode(b, _, _, _, _) => {b}
  }

  /** Every node of the tree. */
  function Nodes(n: Node): set<Node>
    decreases n, 0
  {
    {n} + match n
          case Plain(_, kids) => NodesOfAll(kids)
          case TryNode(_, _, _, body, handler) => Nodes(body) + Nodes(handler)
  }

  function NodesOfAll(ns: seq<Node>): set<Node>
    decreases ns, 1
  {
    if ns == [] then {} else Nodes(ns[0]) + NodesOfAll(ns[1..])
  }

  function Weight(n: Node): (w: nat)
    ensures w > 0
    decreases n, 0
  {
    match n
    case Plain(_, kids) => 1 + WeightOfAll(kids)
    case TryNode(_, _, _, body, handler) => 1 + Weight(body) + Weight(handler)
  }

  function WeightOfAll(ns: seq<Node>): nat
    decreases ns, 1
  {
    if ns == [] then 0 else Weight(ns[0]) + WeightOfAll(ns[1..])
  }

  lemma {:induction false} ForestAppend(a: seq<Node>, b: seq<Node>)
    ensures WeightOfAll(a + b) == WeightOfAll(a) + WeightOfAll(b)
    ensures NodesOfAll(a + b) == NodesOfAll(a) + NodesOfAll(b)
    decreases |a|
  {
    if a == [] {
      assert a + b == b;
    } else {
      ForestAppend(a[1..], b);
      assert (a + b)[1..] == a[1..] + b;
    }
  }

  lemma KidsWeight(n: Node)
    ensures WeightOfAll(Kids(n)) + 1 == Weight(n) && NodesOfAll(Kids(n)) + {n} == Nodes(n)
  {
    if n.TryNode? {
      var ks := [n.body, n.handler];
      assert ks[1..] == [n.handler] && [n.handler][1..] == [];
      assert NodesOfAll([n.handler]) == Nodes(n.handler) && WeightOfAll([n.handler]) == Weight(n.handler);
      assert NodesOfAll(ks) == Nodes(n.body) + NodesOfAll([n.handler]);
      assert WeightOfAll(ks) == Weight(n.body) + WeightOfAll([n.handler]);
    }
  }

  /** One step of a stack walk: the top is replaced by its children. */
  lemma PopStep(stack: seq<Node>, rest: seq<Node>, n: Node)
    requires |stack| > 0 && n == stack[|stack| - 1] && rest == stack[..|stack| - 1] + Kids(n)
    ensures WeightOfAll(rest) < WeightOfAll(stack) && NodesOfAll(stack) == NodesOfAll(rest) + {n}
  {
    var front := stack[..|stack| - 1];
    assert stack == front + [n];
    ForestAppend(front, [n]);
    ForestAppend(front, Kids(n));
    KidsWeight(n);
    assert [n][1..] == [];
    assert NodesOfAll([n]) == Nodes(n);
  }

  ghost predicate OwnedIn(ns: set<Node>, b: int) {
    exists n :: n in ns && StandsFor(n, b)
  }

  /** A plain node stands for its own block, if it has one, and a try for its handler's. */
  ghost predicate StandsFor(n: Node, b: int) {
    (n.Plain? && n.own == Some(b)) || (n.TryNode? && n.cfgBlock == b)
  }

  /** bodyBlocksOf: every block some node of the tree stands for. */
  method BodyBlocksOf(root: Node) returns (out: set<int>)
    ensures forall b :: b in out <==> OwnedIn(Nodes(root), b)
  {
    out := {};
    var stack := [root];
    assert [root][1..] == [];
    assert NodesOfAll(stack) == Nodes(root);
    ghost var done: set<Node> := {};
    while |stack| > 0
      invariant done + NodesOfAll(stack) == Nodes(root) && forall b :: b in out <==> OwnedIn(done, b)
      decreases WeightOfAll(stack)
    {
      var n := stack[|stack| - 1];
      ghost var before, done0 := stack, done;
      stack := stack[..|stack| - 1] + Kids(n);
      PopStep(before, stack, n);
      out := out + OwnBlocks(n);
      done := done + {n};
      forall b ensures OwnedIn(done, b) <==> OwnedIn(done0, b) || b in OwnBlocks(n) {
        if b in OwnBlocks(n) { assert n in done; }
      }
    }
  }

  // ------------------------------------------------------------------- the plan

  /** A region's inclusive range of block ids. */
  datatype Range = Range(lo: int, hi: int)

  predicate OneOf(body: set<BlockId>, id: int) {
    id >= 0 && id in body
  }

  ghost predicate IsRange(body: set<BlockId>, r: Range) {
    OneOf(body, r.lo) && OneOf(body, r.hi) && forall b: BlockId :: b in body ==> r.lo <= b <= r.hi
  }

  method RangeOf(body: set<BlockId>) returns (r: Range)
    requires body != {}
    ensures IsRange(body, r)
  {
    var first :| first in body;
    r := Range(first, first);
    var left := body - {first};
    while left != {}
      invariant left <= body && OneOf(body, r.lo) && OneOf(body, r.hi)
      invariant forall b: BlockId :: b in body && b !in left ==> r.lo <= b <= r.hi
      decreases left
    {
      var b :| b in left;
      left := left - {b};
      r := Range(if b < r.lo then b else r.lo, if b > r.hi then b else r.hi);
    }
  }

  /** The body of a try holds a real block outside its region, or the try stands for no block. */
  ghost predicate OverReaches(t: Node, regions: seq<ExceptionRegion>, actual: set<int>)
    requires t.TryNode? && t.region < |regions|
  {
    t.cfgBlock < 0 || exists b :: b in actual && OwnedIn(Nodes(t.body), b) && !OneOf(regions[t.region].bodyBlocks, b)
  }

  ghost predicate RegionsKnown(root: Node, regions: seq<ExceptionRegion>) {
    forall n :: n in Nodes(root) && n.TryNode? ==> n.region < |regions|
  }

  ghost predicate Guards(n: Node, regions: seq<ExceptionRegion>, actual: set<int>, r: nat) {
    n.TryNode? && n.region < |regions| && n.region == r && n.guardable && OverReaches(n, regions, actual) && regions[r].bodyBlocks != {}
  }

  type GuardMap = map<nat, Range>

  method Reaches(t: Node, regions: seq<ExceptionRegion>, actual: set<int>) returns (over: bool)
    requires t.TryNode? && t.region < |regions|
    ensures over <==> OverReaches(t, regions, actual)
  {
    var inBody := BodyBlocksOf(t.body);
    over := t.cfgBlock < 0 || exists b :: b in inBody && b in actual && !OneOf(regions[t.region].bodyBlocks, b);
  }

  /** planTries: a region gets a range exactly when some guardable try of it over-reaches. */
  method PlanTries(root: Node, regions: seq<ExceptionRegion>, actual: set<int>) returns (guard: GuardMap, needsPc: bool)
    requires RegionsKnown(root, regions)
    ensures Planned(root, regions, actual, guard) && (needsPc <==> guard != map[])
  {
    guard, needsPc := map[], false;
    var stack := [root];
    assert [root][1..] == [];
    assert NodesOfAll(stack) == Nodes(root);
    ghost var done: set<Node> := {};
    while |stack| > 0
      invariant done + NodesOfAll(stack) == Nodes(root) && (needsPc <==> guard != map[])
      invariant forall r: nat :: r in guard <==> exists n :: n in done && Guards(n, regions, actual, r)
      invariant forall r: nat :: r in guard ==> r < |regions| && IsRange(regions[r].bodyBlocks, guard[r])
      decreases WeightOfAll(stack)
    {
      var n := stack[|stack| - 1];
      ghost var before := stack;
      stack := stack[..|stack| - 1] + Kids(n);
      PopStep(before, stack, n);
      assert n in Nodes(root);
      guard := PlanNode(n, regions, actual, guard, done);
      needsPc := guard != map[];
      done := done + {n};
    }
  }

  method PlanNode(n: Node, regions: seq<ExceptionRegion>, actual: set<int>, before: GuardMap, ghost done: set<Node>) returns (guard: GuardMap)
    requires n.TryNode? ==> n.region < |regions|
    requires forall r: nat :: r in before <==> exists x :: x in done && Guards(x, regions, actual, r)
    requires forall r: nat :: r in before ==> r < |regions| && IsRange(regions[r].bodyBlocks, before[r])
    ensures forall r: nat :: r in guard <==> exists x :: x in done + {n} && Guards(x, regions, actual, r)
    ensures forall r: nat :: r in guard ==> r < |regions| && IsRange(regions[r].bodyBlocks, guard[r])
  {
    guard := before;
    if n.TryNode? && n.guardable {
      var over := Reaches(n, regions, actual);
      if over && regions[n.region].bodyBlocks != {} {
        var range := RangeOf(regions[n.region].bodyBlocks);
        guard := guard[n.region := range];
      }
    }
    forall r: nat ensures r in guard <==> exists x :: x in done + {n} && Guards(x, regions, actual, r) {
      if Guards(n, regions, actual, r) { assert n in done + {n}; }
      if x :| x in done + {n} && Guards(x, regions, actual, r) { assert x == n || x in done; }
    }
  }

  // ---------------------------------------------------------- what the test decides

  /** The handler passes the exception on when the guard is there and __pc is outside it. */
  predicate Rethrows(guard: GuardMap, region: nat, pc: int) {
    region in guard && !(guard[region].lo <= pc <= guard[region].hi)
  }

  /** A region's blocks are consecutive: ids follow offsets. */
  lemma BodyIsInterval(blocks: seq<BasicBlock>, size: nat, h: ExceptionHandler, a: nat, b: nat, c: nat)
    requires Partition(blocks, size) && a <= b <= c < |blocks| && Covers(h, blocks[a]) && Covers(h, blocks[c])
    ensures Covers(h, blocks[b])
  {
    if a < b { BlocksAscend(blocks, size, a, b); }
    if b < c { BlocksAscend(blocks, size, b, c); }
    assert BlockEnds(blocks, size, b);
  }

  /** For every real block, the printed range test is membership in the region. */
  lemma RangeIsMembership(S: seq<Entry>, l: Layout, regions: seq<ExceptionRegion>, r: nat, range: Range, id: nat)
    requires Built(l) && RegionsRight(S, l.blocks, l.byOffset, l.size, regions) && r < |regions| && id < |l.blocks|
    requires IsRange(regions[r].bodyBlocks, range)
    ensures range.lo <= id <= range.hi <==> id in regions[r].bodyBlocks
  {
    BuiltPartitions(l);
    assert RegionStarted(S, l.blocks, l.byOffset, l.size, r, regions[r]);
    if range.lo <= id <= range.hi { BodyIsInterval(l.blocks, l.size, S[r].handler, range.lo, id, range.hi); }
  }

  ghost predicate Planned(root: Node, regions: seq<ExceptionRegion>, actual: set<int>, guard: GuardMap) {
    && (forall r: nat {:trigger r in guard} :: r in guard <==> exists n :: n in Nodes(root) && Guards(n, regions, actual, r))
    && forall r: nat {:trigger guard[r]} :: r in guard ==> r < |regions| && IsRange(regions[r].bodyBlocks, guard[r])
  }

  /** Where no range is planned, no real block of the body lies outside the region, unless the
      region covers nothing. */
  lemma UnplannedMeansCovered(root: Node, regions: seq<ExceptionRegion>, actual: set<int>, guard: GuardMap, t: Node, id: nat)
    requires RegionsKnown(root, regions) && Planned(root, regions, actual, guard) && t in Nodes(root) && t.TryNode? && t.guardable
    requires t.region !in guard && id in actual && OwnedIn(Nodes(t.body), id) && regions[t.region].bodyBlocks != {}
    ensures id in regions[t.region].bodyBlocks
  {
    assert !Guards(t, regions, actual, t.region);
  }

  /** The handler of a guardable try runs for an exception raised in a real block of its body
      exactly when the region covers that block: the over-reach cannot be observed. The one
      exception is a region that covers no block at all, whose handler runs for every block. */
  lemma HandlerRunsIffCovered(S: seq<Entry>, l: Layout, regions: seq<ExceptionRegion>, root: Node, actual: set<int>, guard: GuardMap, t: Node, id: nat)
    requires Built(l) && RegionsRight(S, l.blocks, l.byOffset, l.size, regions) && RegionsKnown(root, regions)
    requires Planned(root, regions, actual, guard) && t in Nodes(root) && t.TryNode? && t.guardable
    requires id in actual && id < |l.blocks| && OwnedIn(Nodes(t.body), id)
    ensures t.region < |regions|
    ensures regions[t.region].bodyBlocks != {} ==> (Rethrows(guard, t.region, id) <==> id !in regions[t.region].bodyBlocks)
    ensures regions[t.region].bodyBlocks == {} ==> !Rethrows(guard, t.region, id)
  {
    if t.region in guard {
      RangeIsMembership(S, l, regions, t.region, guard[t.region], id);
    } else if regions[t.region].bodyBlocks != {} {
      UnplannedMeansCovered(root, regions, actual, guard, t, id);
    }
  }
}
