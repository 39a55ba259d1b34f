// provenLastWrite (src/artifact/points-to.ts:185-252): the argument that one store is the last
// write to a name on every path to an exit.
module LastWrite {
  import opened CfgTypes
  import opened Dominators
  import opened Invariants
  import opened Reach

  predicate Contains(b: BasicBlock, offset: nat): (r: bool)
    ensures r <==> b.start >= 0 && !(offset < b.start) && !(b.end <= offset)
  {
    0 <= b.start <= offset < b.end
  }

  /** No offset lies in two blocks (CFG-01). */
  ghost predicate Disjoint(blocks: seq<BasicBlock>) {
    forall a: nat, b: nat, offset: nat {:trigger Contains(blocks[a], offset), Contains(blocks[b], offset)} ::
      a < |blocks| && b < |blocks| && Contains(blocks[a], offset) && Contains(blocks[b], offset) ==> a == b
  }

  ghost predicate IsBlockAt(blocks: seq<BasicBlock>, offset: nat, b: BlockId) {
    b < |blocks| && Contains(blocks[b], offset)
  }

  method BlockAt(blocks: seq<BasicBlock>, offset: nat) returns (r: Option<BlockId>)
    ensures r.Some? ==> IsBlockAt(blocks, offset, r.value)
    ensures r.None? ==> forall b :: !IsBlockAt(blocks, offset, b)
  {
    for k := 0 to |blocks|
      invariant forall b: nat :: b < k ==> !IsBlockAt(blocks, offset, b)
    {
      if Contains(blocks[k], offset) { return Some(k); }
    }
    return None;
  }

  // -------------------------------------------- reaching an exit without one block

  ghost predicate IsExitBlock(cfg: FunctionCfg, b: BlockId) {
    b in cfg.exits
  }

  /** A path of normal edges to an exit that never enters block c. */
  ghost predicate AvoidingPath(cfg: FunctionCfg, c: BlockId, w: seq<BlockId>)
    decreases |w|
  {
    && |w| > 0 && w[0] < |cfg.blocks| && w[0] != c
    && if |w| == 1 then IsExitBlock(cfg, w[0]) else IsEdge(cfg.blocks, w[0], w[1]) && AvoidingPath(cfg, c, w[1..])
  }

  ghost predicate EscapesExit(cfg: FunctionCfg, c: BlockId, b: BlockId) {
    exists w :: AvoidingPath(cfg, c, w) && w[0] == b
  }

  lemma EscapeStep(cfg: FunctionCfg, c: BlockId, p: BlockId, b: BlockId)
    requires EscapesExit(cfg, c, b) && IsEdge(cfg.blocks, p, b) && p != c
    ensures EscapesExit(cfg, c, p)
  {
    var w :| AvoidingPath(cfg, c, w) && w[0] == b;
    var v := [p] + w;
    assert v[1..] == w;
    assert AvoidingPath(cfg, c, v);
  }

  lemma {:induction false} ClosedHoldsEscapes(cfg: FunctionCfg, c: BlockId, s: set<BlockId>, w: seq<BlockId>)
    requires AvoidingPath(cfg, c, w)
    requires forall e: nat :: IsExitBlock(cfg, e) && e != c ==> e in s
    requires forall p, b {:trigger IsEdge(cfg.blocks, p, b)} :: b in s && p != c && IsEdge(cfg.blocks, p, b) ==> p in s
    ensures w[0] in s
    decreases |w|
  {
    if |w| > 1 { ClosedHoldsEscapes(cfg, c, s, w[1..]); }
  }

  ghost predicate CfgShape(cfg: FunctionCfg) {
    && PredsReverse(cfg.blocks) && EdgesValid(cfg.blocks) && QueryRight(cfg.blocks, cfg.entry, cfg.dom)
    && (forall e: nat :: IsExitBlock(cfg, e) ==> e < |cfg.blocks|)
    && forall b: nat :: b < |cfg.blocks| ==> forall k :: 0 <= k < |cfg.blocks[b].preds| ==> cfg.blocks[b].preds[k] < |cfg.blocks|
  }

  ghost predicate EscapeSearch(cfg: FunctionCfg, c: BlockId, seen: set<BlockId>, stack: seq<BlockId>) {
    && (forall b :: b in seen ==> b < |cfg.blocks| && b != c && EscapesExit(cfg, c, b))
    && (forall e: nat :: IsExitBlock(cfg, e) && e != c ==> e in seen)
    && (forall k :: 0 <= k < |stack| ==> stack[k] in seen)
    && forall p, b {:trigger IsEdge(cfg.blocks, p, b)} :: b in seen && b !in stack && p != c && IsEdge(cfg.blocks, p, b) ==> p in seen
  }

  method SeedExits(cfg: FunctionCfg, c: BlockId) returns (seen: set<BlockId>, stack: seq<BlockId>)
    requires CfgShape(cfg)
    ensures EscapeSearch(cfg, c, seen, stack)
  {
    seen, stack := {}, [];
    for k := 0 to |cfg.exits|
      invariant forall b :: b in seen <==> b in cfg.exits[..k] && b != c
      invariant forall b :: b in stack <==> b in seen
    {
      assert cfg.exits[..k + 1] == cfg.exits[..k] + [cfg.exits[k]];
      var e := cfg.exits[k];
      if e == c || e in seen { continue; }
      seen := seen + {e};
      stack := stack + [e];
    }
    assert cfg.exits[..|cfg.exits|] == cfg.exits;
    forall b | b in seen ensures b < |cfg.blocks| && b != c && EscapesExit(cfg, c, b) {
      assert IsExitBlock(cfg, b);
      assert AvoidingPath(cfg, c, [b]);
    }
  }

  method AddPreds(preds: seq<BlockId>, c: BlockId, seen0: set<BlockId>, stack0: seq<BlockId>) returns (seen: set<BlockId>, stack: seq<BlockId>)
    ensures forall b :: b in seen <==> b in seen0 || (b in preds && b != c)
    ensures forall b :: b in stack <==> b in stack0 || (b in seen && b !in seen0)
    ensures seen == seen0 ==> stack == stack0
  {
    seen, stack := seen0, stack0;
    for k := 0 to |preds|
      invariant forall b :: b in seen <==> b in seen0 || (b in preds[..k] && b != c)
      invariant forall b :: b in stack <==> b in stack0 || (b in seen && b !in seen0)
      invariant seen == seen0 ==> stack == stack0
    {
      assert preds[..k + 1] == preds[..k] + [preds[k]];
      var p := preds[k];
      if p == c || p in seen { continue; }
      seen := seen + {p};
      stack := stack + [p];
    }
    assert preds[..|preds|] == preds;
  }

  /** Backward reachability from the exits with block c removed. */
  method Escaping(cfg: FunctionCfg, c: BlockId) returns (seen: set<BlockId>)
    requires CfgShape(cfg)
    ensures forall b :: b in seen <==> EscapesExit(cfg, c, b)
  {
    var stack: seq<BlockId>;
    seen, stack := SeedExits(cfg, c);
    while |stack| > 0
      invariant EscapeSearch(cfg, c, seen, stack)
      decreases Unseen(|cfg.blocks|, seen), |stack|
    {
      var b := stack[|stack| - 1];
      ghost var seen0, stack0 := seen, stack;
      stack := stack[..|stack| - 1];
      seen, stack := AddPreds(cfg.blocks[b].preds, c, seen, stack);
      EscapeNext(cfg, c, seen0, stack0, b, seen, stack);
      UnseenShrinks(|cfg.blocks|, seen0, seen);
    }
    forall b | EscapesExit(cfg, c, b) ensures b in seen {
      var w :| AvoidingPath(cfg, c, w) && w[0] == b;
      ClosedHoldsEscapes(cfg, c, seen, w);
    }
  }

  lemma EscapeNext(cfg: FunctionCfg, c: BlockId, seen: set<BlockId>, stack: seq<BlockId>, b: BlockId, seen': set<BlockId>, stack': seq<BlockId>)
    requires CfgShape(cfg) && EscapeSearch(cfg, c, seen, stack) && |stack| > 0 && b == stack[|stack| - 1]
    requires forall x :: x in seen' <==> x in seen || (x in cfg.blocks[b].preds && x != c)
    requires forall x :: x in stack' <==> x in stack[..|stack| - 1] || (x in seen' && x !in seen)
    ensures EscapeSearch(cfg, c, seen', stack')
  {
    assert stack == stack[..|stack| - 1] + [b];
    assert b in seen;
    forall x | x in seen' ensures x < |cfg.blocks| && x != c && EscapesExit(cfg, c, x) {
      if x !in seen {
        assert IsEdge(cfg.blocks, x, b);
        EscapeStep(cfg, c, x, b);
      }
    }
    forall p, x | x in seen' && x !in stack' && p != c && IsEdge(cfg.blocks, p, x) ensures p in seen' {
      assert x in seen;
      if x == b { assert p in cfg.blocks[b].preds; }
    }
  }

  // ------------------------------------------------------------------ the conditions

  function Lowest(offsets: seq<nat>, c: nat): (r: nat)
    ensures r <= c && (r == c || r in offsets) && forall k :: 0 <= k < |offsets| ==> r <= offsets[k]
  {
    if offsets == [] then c
    else
      assert offsets == offsets[..|offsets| - 1] + [offsets[|offsets| - 1]];
      var r := Lowest(offsets[..|offsets| - 1], c);
      if offsets[|offsets| - 1] < r then offsets[|offsets| - 1] else r
  }

  /** No region covers any of the span, and the exports object is not used inside it. */
  predicate SpanClear(cfg: FunctionCfg, lo: nat, c: nat, escapes: seq<nat>) {
    && (forall k :: 0 <= k < |cfg.regions| ==> !(cfg.regions[k].startPc <= c && cfg.regions[k].endPc > lo))
    && forall k :: 0 <= k < |escapes| ==> !(lo <= escapes[k] <= c)
  }

  /** The void-0 store at u always runs before the closure store at c, and never last. */
  ghost predicate RunsBefore(cfg: FunctionCfg, u: nat, c: nat, bC: BlockId) {
    exists bU :: IsBlockAt(cfg.blocks, u, bU) &&
      if bU == bC then u < c else Dominates(cfg.blocks, cfg.entry, bU, bC) && !EscapesExit(cfg, bC, bU)
  }

  /** From u up to c nothing is protected, and the exports object is not used. */
  ghost predicate ClearFrom(cfg: FunctionCfg, u: nat, c: nat, escapes: seq<nat>) {
    && (forall r :: r in cfg.regions ==> r.endPc <= u || c < r.startPc)
    && forall e :: e in escapes ==> e < u || c < e
  }

  /** Some void-0 store comes before the closure store, which is in block bC, and every one of them
      has a clear way to it and always runs before it. */
  ghost predicate LastWriteAt(cfg: FunctionCfg, undefs: seq<nat>, c: nat, escapes: seq<nat>, bC: BlockId) {
    && IsBlockAt(cfg.blocks, c, bC) && (exists u :: u in undefs && u < c)
    && (forall u :: u in undefs ==> ClearFrom(cfg, u, c, escapes))
    && forall k {:trigger undefs[k]} :: 0 <= k < |undefs| ==> RunsBefore(cfg, undefs[k], c, bC)
  }

  /** The one test of the lowest store is the test of all. */
  lemma LowestTells(cfg: FunctionCfg, undefs: seq<nat>, c: nat, escapes: seq<nat>)
    ensures (Lowest(undefs, c) < c && SpanClear(cfg, Lowest(undefs, c), c, escapes)) <==>
      (exists u :: u in undefs && u < c) && forall u :: u in undefs ==> ClearFrom(cfg, u, c, escapes)
  {
    var lo := Lowest(undefs, c);
    if lo < c && SpanClear(cfg, lo, c, escapes) {
      forall u | u in undefs ensures ClearFrom(cfg, u, c, escapes) {}
    }
    if (exists u :: u in undefs && u < c) && forall u :: u in undefs ==> ClearFrom(cfg, u, c, escapes) {
      assert ClearFrom(cfg, lo, c, escapes);
      forall k | 0 <= k < |cfg.regions| ensures !(cfg.regions[k].startPc <= c && cfg.regions[k].endPc > lo) { assert cfg.regions[k] in cfg.regions; }
      forall k | 0 <= k < |escapes| ensures !(lo <= escapes[k] <= c) { assert escapes[k] in escapes; }
    }
  }

  ghost predicate ProvesLast(cfg: Option<FunctionCfg>, undefs: seq<nat>, c: nat, escapes: seq<nat>) {
    cfg.Some? && undefs != [] && exists bC :: LastWriteAt(cfg.value, undefs, c, escapes, bC)
  }

  /** One void-0 store. */
  method ChecksOut(cfg: FunctionCfg, u: nat, c: nat, bC: BlockId, escaping: set<BlockId>) returns (ok: bool)
    requires CfgShape(cfg) && Disjoint(cfg.blocks) && IsBlockAt(cfg.blocks, c, bC)
    requires forall b :: b in escaping <==> EscapesExit(cfg, bC, b)
    ensures ok <==> RunsBefore(cfg, u, c, bC)
  {
    var at := BlockAt(cfg.blocks, u);
    if at.None? { return false; }
    var bU := at.value;
    assert forall b :: IsBlockAt(cfg.blocks, u, b) <==> b == bU;
    if bU == bC { return u < c; }
    assert cfg.dom.DominatesQuery(bU, bC) <==> Dominates(cfg.blocks, cfg.entry, bU, bC);
    ok := cfg.dom.DominatesQuery(bU, bC) && bU !in escaping;
  }

  method ProvenLastWrite(cfg: Option<FunctionCfg>, undefs: seq<nat>, c: nat, escapes: seq<nat>) returns (r: bool)
    requires cfg.Some? ==> CfgShape(cfg.value) && Disjoint(cfg.value.blocks)
    ensures r <==> ProvesLast(cfg, undefs, c, escapes)
  {
    if cfg.None? || undefs == [] { return false; }
    var at := BlockAt(cfg.value.blocks, c);
    if at.None? { return false; }
    var bC := at.value;
    assert forall b :: IsBlockAt(cfg.value.blocks, c, b) <==> b == bC;
    LowestTells(cfg.value, undefs, c, escapes);
    var lo := Lowest(undefs, c);
    if lo >= c || !SpanClear(cfg.value, lo, c, escapes) { return false; }
    var escaping := Escaping(cfg.value, bC);
    for k := 0 to |undefs|
      invariant forall j {:trigger undefs[j]} :: 0 <= j < k ==> RunsBefore(cfg.value, undefs[j], c, bC)
    {
      var ok := ChecksOut(cfg.value, undefs[k], c, bC, escaping);
      if !ok { return false; }
    }
    assert LastWriteAt(cfg.value, undefs, c, escapes, bC);
    return true;
  }

  // ------------------------------------------------------------- what it is good for

  lemma {:induction false} SuffixEscapes(cfg: FunctionCfg, c: BlockId, w: seq<BlockId>, p: nat)
    requires Path(cfg.blocks, cfg.entry, w) && p < |w| && IsExitBlock(cfg, w[|w| - 1])
    requires forall q :: p <= q < |w| ==> w[q] != c
    ensures AvoidingPath(cfg, c, w[p..]) && EscapesExit(cfg, c, w[p])
    decreases |w| - p
  {
    PathStep(cfg, w, p);
    if p + 1 < |w| {
      SuffixEscapes(cfg, c, w, p + 1);
      assert w[p..][1..] == w[p + 1..];
    }
  }

  lemma {:induction false} PathStep(cfg: FunctionCfg, w: seq<BlockId>, p: nat)
    requires Path(cfg.blocks, cfg.entry, w) && p < |w|
    ensures w[p] < |cfg.blocks| && (p + 1 < |w| ==> IsEdge(cfg.blocks, w[p], w[p + 1]))
    decreases |w|
  {
    if p + 1 < |w| - 1 { PathStep(cfg, w[..|w| - 1], p); }
  }

  /** On every path to an exit, the closure store runs after every void-0 store on it. */
  lemma ClosureRunsAfter(cfg: FunctionCfg, undefs: seq<nat>, c: nat, escapes: seq<nat>, w: seq<BlockId>, p: nat, k: nat) returns (q: nat)
    requires ProvesLast(Some(cfg), undefs, c, escapes) && Disjoint(cfg.blocks)
    requires Path(cfg.blocks, cfg.entry, w) && IsExitBlock(cfg, w[|w| - 1])
    requires k < |undefs| && p < |w| && IsBlockAt(cfg.blocks, undefs[k], w[p])
    ensures p <= q < |w| && IsBlockAt(cfg.blocks, c, w[q]) && (q == p ==> undefs[k] < c)
  {
    var bC :| LastWriteAt(cfg, undefs, c, escapes, bC);
    assert RunsBefore(cfg, undefs[k], c, bC);
    assert w[p] == bC ==> undefs[k] < c;
    MustPass(cfg, bC, w, p);
    q :| p <= q < |w| && w[q] == bC;
  }

  lemma MustPass(cfg: FunctionCfg, c: BlockId, w: seq<BlockId>, p: nat)
    requires Path(cfg.blocks, cfg.entry, w) && p < |w| && IsExitBlock(cfg, w[|w| - 1])
    requires w[p] == c || !EscapesExit(cfg, c, w[p])
    ensures exists q: nat :: p <= q < |w| && w[q] == c
  {
    if forall q: nat :: p <= q < |w| ==> w[q] != c { SuffixEscapes(cfg, c, w, p); }
  }
}
