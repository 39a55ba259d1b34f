// The explicit-stack depth-first search of src/cfg/dom.ts:15-44.
module Postorder {
  import opened CfgTypes

  /** The search state. fin, par and at are bookkeeping of the proof: the position of a
      finished block in `order`, the block it was discovered from, its place on the stack. */
  datatype Search = Search(state: seq<int>, next: seq<int>, stack: seq<BlockId>, order: seq<BlockId>,
                           retreating: seq<(BlockId, BlockId)>, fin: seq<int>, par: seq<nat>, at: seq<int>)

  ghost predicate Sized(blocks: seq<BasicBlock>, entry: BlockId, s: Search) {
    |s.state| == |s.next| == |s.fin| == |s.par| == |s.at| == |blocks| && entry < |blocks|
  }

  /** States, the stack and the finished list agree with one another. */
  ghost predicate Shape(blocks: seq<BasicBlock>, entry: BlockId, s: Search) {
    && Sized(blocks, entry, s)
    && (forall v :: 0 <= v < |blocks| ==> 0 <= s.state[v] <= 2 && 0 <= s.next[v] <= |blocks[v].succs|)
    && (forall k :: 0 <= k < |s.stack| ==> s.stack[k] < |blocks| && s.state[s.stack[k]] == 1 && s.at[s.stack[k]] == k)
    && (forall v :: 0 <= v < |blocks| && s.state[v] == 1 ==> 0 <= s.at[v] < |s.stack| && s.stack[s.at[v]] == v)
    && (forall k :: 0 <= k < |s.order| ==> s.order[k] < |blocks| && s.state[s.order[k]] == 2 && s.fin[s.order[k]] == k)
    && (forall v :: 0 <= v < |blocks| && s.state[v] == 2 ==> 0 <= s.fin[v] < |s.order| && s.order[s.fin[v]] == v)
    && (forall v :: 0 <= v < |blocks| && s.state[v] == 2 ==> s.next[v] == |blocks[v].succs|)
    && (forall v :: 0 <= v < |blocks| && s.state[v] == 0 ==> s.next[v] == 0)
    && s.state[entry] != 0
    && (if s.stack == [] then |s.order| > 0 && s.order[|s.order| - 1] == entry else s.stack[0] == entry)
  }

  /** Discovered blocks hang off the entry in a tree of edges that finishes bottom-up. */
  ghost predicate TreeAt(blocks: seq<BasicBlock>, entry: BlockId, s: Search, v: nat)
    requires Sized(blocks, entry, s) && v < |blocks|
  {
    && s.par[v] < |blocks| && IsEdge(blocks, s.par[v], v) && s.state[s.par[v]] != 0
    && (s.state[v] == 1 ==> s.state[s.par[v]] == 1 && s.at[v] > 0 && s.at[v] - 1 == s.at[s.par[v]])
    && (s.state[v] == 2 && s.state[s.par[v]] == 2 ==> s.fin[v] < s.fin[s.par[v]])
  }

  ghost predicate Tree(blocks: seq<BasicBlock>, entry: BlockId, s: Search) {
    && Sized(blocks, entry, s)
    && (forall v: nat {:trigger Reachable(blocks, entry, v)} :: v < |blocks| && s.state[v] != 0 ==> Reachable(blocks, entry, v))
    && forall v: nat {:trigger TreeAt(blocks, entry, s, v)} ::
         v < |blocks| && s.state[v] != 0 && v != entry ==> TreeAt(blocks, entry, s, v)
  }

  /** The edge v -> t has been looked at and classified. */
  ghost predicate Seen(blocks: seq<BasicBlock>, entry: BlockId, s: Search, v: nat, t: nat)
    requires Sized(blocks, entry, s) && v < |blocks|
  {
    t < |blocks| && s.state[t] != 0 &&
    (|| (v, t) in s.retreating
     || (s.state[t] == 2 && (s.state[v] == 2 ==> s.fin[t] < s.fin[v]))
     || (s.state[t] == 1 && t != entry && s.par[t] == v))
  }

  ghost predicate AllSeen(blocks: seq<BasicBlock>, entry: BlockId, s: Search) {
    && Sized(blocks, entry, s)
    && forall v: nat, k {:trigger Seen(blocks, entry, s, v, blocks[v].succs[k].to)} ::
         v < |blocks| && s.state[v] != 0 && 0 <= k < s.next[v] && k < |blocks[v].succs| ==>
         Seen(blocks, entry, s, v, blocks[v].succs[k].to)
  }

  /** q leads from q[0] to its last block along tree edges. */
  ghost predicate TreePath(entry: BlockId, s: Search, q: seq<nat>) {
    && |q| > 0 && q[|q| - 1] < |s.state| == |s.par| && s.state[q[|q| - 1]] != 0
    && (|q| > 1 ==> q[|q| - 1] != entry && s.par[q[|q| - 1]] == q[|q| - 2] && TreePath(entry, s, q[..|q| - 1]))
  }

  ghost predicate Retreat(blocks: seq<BasicBlock>, entry: BlockId, s: Search, f: nat, t: nat) {
    IsEdge(blocks, f, t) && exists q :: TreePath(entry, s, q) && q[0] == t && Last(q, f)
  }

  ghost predicate Retreats(blocks: seq<BasicBlock>, entry: BlockId, s: Search) {
    forall r :: r in s.retreating ==> Retreat(blocks, entry, s, r.0, r.1)
  }

  ghost predicate Inv(blocks: seq<BasicBlock>, entry: BlockId, s: Search) {
    Shape(blocks, entry, s) && Tree(blocks, entry, s) && AllSeen(blocks, entry, s) && Retreats(blocks, entry, s)
  }

  /** What the search promises once the stack is empty. */
  ghost predicate Finished(blocks: seq<BasicBlock>, entry: BlockId, s: Search) {
    Inv(blocks, entry, s) && s.stack == []
  }

  /** b is on top of the stack. */
  ghost predicate Top(blocks: seq<BasicBlock>, entry: BlockId, s: Search, b: BlockId) {
    EdgesValid(blocks) && Shape(blocks, entry, s) && |s.stack| > 0 && b == s.stack[|s.stack| - 1]
  }

  /** t is the target of the next edge of the top block b. */
  ghost predicate NextEdge(blocks: seq<BasicBlock>, entry: BlockId, s: Search, b: BlockId, t: BlockId) {
    Top(blocks, entry, s, b) && s.next[b] < |blocks[b].succs| && t == blocks[b].succs[s.next[b]].to && t < |blocks|
  }

  function Advance(s: Search, b: BlockId): Search
    requires b < |s.next|
  {
    s.(next := s.next[b := s.next[b] + 1])
  }

  function Push(s: Search, b: BlockId, t: BlockId): Search
    requires b < |s.next| && t < |s.state| == |s.par| == |s.at|
  {
    Advance(s, b).(state := s.state[t := 1], stack := s.stack + [t], par := s.par[t := b], at := s.at[t := |s.stack|])
  }

  function Note(s: Search, b: BlockId, t: BlockId): Search
    requires b < |s.next|
  {
    Advance(s, b).(retreating := s.retreating + [(b, t)])
  }

  function Pop(s: Search, b: BlockId): Search
    requires |s.stack| > 0 && b < |s.state| == |s.fin|
  {
    s.(state := s.state[b := 2], order := s.order + [b], fin := s.fin[b := |s.order|], stack := s.stack[..|s.stack| - 1])
  }

  // ------------------------------------------------------------ one step each

  lemma {:induction false} TreePathGrows(entry: BlockId, s: Search, s': Search, q: seq<nat>)
    requires TreePath(entry, s, q) && |s'.state| == |s.state| == |s'.par| == |s.par|
    requires forall v :: 0 <= v < |s.state| && s.state[v] != 0 ==> s'.state[v] != 0 && s'.par[v] == s.par[v]
    ensures TreePath(entry, s', q)
    decreases |q|
  {
    if |q| > 1 { TreePathGrows(entry, s, s', q[..|q| - 1]); }
  }

  /** Recorded retreating edges stay valid while the tree grows. */
  lemma RetreatsGrow(blocks: seq<BasicBlock>, entry: BlockId, s: Search, s': Search)
    requires Retreats(blocks, entry, s) && |s'.state| == |s.state| == |s'.par| == |s.par|
    requires forall v :: 0 <= v < |s.state| && s.state[v] != 0 ==> s'.state[v] != 0 && s'.par[v] == s.par[v]
    requires s'.retreating == s.retreating
    ensures Retreats(blocks, entry, s')
  {
    forall r | r in s'.retreating ensures Retreat(blocks, entry, s', r.0, r.1) {
      assert Retreat(blocks, entry, s, r.0, r.1);
      var q :| TreePath(entry, s, q) && q[0] == r.1 && Last(q, r.0);
      TreePathGrows(entry, s, s', q);
    }
  }

  lemma NextIsEdge(blocks: seq<BasicBlock>, entry: BlockId, s: Search, b: BlockId, t: BlockId)
    requires NextEdge(blocks, entry, s, b, t)
    ensures b < |blocks| && IsEdge(blocks, b, t)
  {
    assert blocks[b].succs[s.next[b]] in blocks[b].succs;
  }

  lemma PushShape(blocks: seq<BasicBlock>, entry: BlockId, s: Search, b: BlockId, t: BlockId)
    requires NextEdge(blocks, entry, s, b, t) && s.state[t] == 0
    ensures Shape(blocks, entry, Push(s, b, t))
  {
  }

  lemma PushTree(blocks: seq<BasicBlock>, entry: BlockId, s: Search, b: BlockId, t: BlockId)
    requires NextEdge(blocks, entry, s, b, t) && s.state[t] == 0 && Tree(blocks, entry, s)
    ensures Tree(blocks, entry, Push(s, b, t))
  {
    NextIsEdge(blocks, entry, s, b, t);
    ReachableStep(blocks, entry, b, t);
    var s' := Push(s, b, t);
    forall v: nat | v < |blocks| && s'.state[v] != 0 && v != entry ensures TreeAt(blocks, entry, s', v) {
      if v != t { assert TreeAt(blocks, entry, s, v); }
    }
  }

  lemma PushSeen(blocks: seq<BasicBlock>, entry: BlockId, s: Search, b: BlockId, t: BlockId)
    requires NextEdge(blocks, entry, s, b, t) && s.state[t] == 0 && AllSeen(blocks, entry, s)
    ensures AllSeen(blocks, entry, Push(s, b, t))
  {
    var s' := Push(s, b, t);
    forall v: nat, k | v < |blocks| && s'.state[v] != 0 && 0 <= k < s'.next[v] && k < |blocks[v].succs|
      ensures Seen(blocks, entry, s', v, blocks[v].succs[k].to)
    {
      if v != t && !(v == b && k == s.next[b]) { assert Seen(blocks, entry, s, v, blocks[v].succs[k].to); }
    }
  }

  /** A stretch of the stack is a path of tree edges. */
  lemma {:induction false} StackPath(blocks: seq<BasicBlock>, entry: BlockId, s: Search, lo: nat, hi: nat)
    requires Shape(blocks, entry, s) && Tree(blocks, entry, s) && lo <= hi < |s.stack|
    ensures TreePath(entry, s, s.stack[lo..hi + 1])
    decreases hi
  {
    var q := s.stack[lo..hi + 1];
    var v := s.stack[hi];
    if lo < hi {
      StackPath(blocks, entry, s, lo, hi - 1);
      assert q[..|q| - 1] == s.stack[lo..hi - 1 + 1];
      assert s.at[v] == hi && s.at[s.stack[0]] == 0;
      assert TreeAt(blocks, entry, s, v);
    }
  }

  lemma NoteRetreat(blocks: seq<BasicBlock>, entry: BlockId, s: Search, b: BlockId, t: BlockId)
    requires NextEdge(blocks, entry, s, b, t) && s.state[t] == 1 && Tree(blocks, entry, s)
    ensures Retreat(blocks, entry, s, b, t)
  {
    NextIsEdge(blocks, entry, s, b, t);
    StackPath(blocks, entry, s, s.at[t], |s.stack| - 1);
    var q := s.stack[s.at[t]..|s.stack| - 1 + 1];
    assert q[0] == t && Last(q, b);
  }

  // Looking at one edge, with the retreating list becoming r.

  function Look(s: Search, b: BlockId, r: seq<(BlockId, BlockId)>): Search
    requires b < |s.next|
  {
    Advance(s, b).(retreating := r)
  }

  lemma LookShape(blocks: seq<BasicBlock>, entry: BlockId, s: Search, b: BlockId, t: BlockId, r: seq<(BlockId, BlockId)>)
    requires NextEdge(blocks, entry, s, b, t)
    ensures Shape(blocks, entry, Look(s, b, r))
  {
  }

  lemma LookTree(blocks: seq<BasicBlock>, entry: BlockId, s: Search, b: BlockId, t: BlockId, r: seq<(BlockId, BlockId)>)
    requires NextEdge(blocks, entry, s, b, t) && Tree(blocks, entry, s)
    ensures Tree(blocks, entry, Look(s, b, r))
  {
    forall v: nat | v < |blocks| && s.state[v] != 0 && v != entry ensures TreeAt(blocks, entry, Look(s, b, r), v) {
      assert TreeAt(blocks, entry, s, v);
    }
  }

  lemma LookSeen(blocks: seq<BasicBlock>, entry: BlockId, s: Search, b: BlockId, t: BlockId, r: seq<(BlockId, BlockId)>)
    requires NextEdge(blocks, entry, s, b, t) && AllSeen(blocks, entry, s) && (forall e :: e in s.retreating ==> e in r)
    requires Seen(blocks, entry, Look(s, b, r), b, t)
    ensures AllSeen(blocks, entry, Look(s, b, r))
  {
    var s' := Look(s, b, r);
    forall v: nat, k | v < |blocks| && s'.state[v] != 0 && 0 <= k < s'.next[v] && k < |blocks[v].succs|
      ensures Seen(blocks, entry, s', v, blocks[v].succs[k].to)
    {
      if !(v == b && k == s.next[b]) { assert Seen(blocks, entry, s, v, blocks[v].succs[k].to); }
    }
  }

  lemma PopShape(blocks: seq<BasicBlock>, entry: BlockId, s: Search, b: BlockId)
    requires Top(blocks, entry, s, b) && s.next[b] == |blocks[b].succs|
    ensures Shape(blocks, entry, Pop(s, b))
  {
  }

  /** Nothing on the stack was discovered from its top. */
  lemma TopHasNoChild(blocks: seq<BasicBlock>, entry: BlockId, s: Search, b: BlockId, v: nat)
    requires Top(blocks, entry, s, b) && Tree(blocks, entry, s) && v < |blocks| && s.state[v] == 1 && v != entry
    ensures s.par[v] != b
  {
    assert TreeAt(blocks, entry, s, v);
    assert s.at[b] == |s.stack| - 1;
  }

  lemma PopTree(blocks: seq<BasicBlock>, entry: BlockId, s: Search, b: BlockId)
    requires Top(blocks, entry, s, b) && s.next[b] == |blocks[b].succs| && Tree(blocks, entry, s)
    ensures Tree(blocks, entry, Pop(s, b))
  {
    var s' := Pop(s, b);
    forall v: nat | v < |blocks| && s'.state[v] != 0 && v != entry ensures TreeAt(blocks, entry, s', v) {
      assert TreeAt(blocks, entry, s, v);
      if s.state[v] == 1 { TopHasNoChild(blocks, entry, s, b, v); }
    }
  }

  lemma PopSeen(blocks: seq<BasicBlock>, entry: BlockId, s: Search, b: BlockId)
    requires Top(blocks, entry, s, b) && s.next[b] == |blocks[b].succs|
    requires Tree(blocks, entry, s) && AllSeen(blocks, entry, s)
    ensures AllSeen(blocks, entry, Pop(s, b))
  {
    var s' := Pop(s, b);
    forall v: nat, k | v < |blocks| && s'.state[v] != 0 && 0 <= k < s'.next[v] && k < |blocks[v].succs|
      ensures Seen(blocks, entry, s', v, blocks[v].succs[k].to)
    {
      var t := blocks[v].succs[k].to;
      assert Seen(blocks, entry, s, v, t);
      if s.state[t] == 1 && t != entry {
        assert TreeAt(blocks, entry, s, t);
        TopHasNoChild(blocks, entry, s, b, t);
      }
    }
  }

  lemma PushInv(blocks: seq<BasicBlock>, entry: BlockId, s: Search, b: BlockId, t: BlockId)
    requires NextEdge(blocks, entry, s, b, t) && s.state[t] == 0 && Inv(blocks, entry, s)
    ensures Inv(blocks, entry, Push(s, b, t))
  {
    PushShape(blocks, entry, s, b, t);
    PushTree(blocks, entry, s, b, t);
    PushSeen(blocks, entry, s, b, t);
    RetreatsGrow(blocks, entry, s, Push(s, b, t));
  }

  lemma LookInv(blocks: seq<BasicBlock>, entry: BlockId, s: Search, b: BlockId, t: BlockId)
    requires NextEdge(blocks, entry, s, b, t) && s.state[t] != 0 && Inv(blocks, entry, s)
    ensures Inv(blocks, entry, if s.state[t] == 1 then Note(s, b, t) else Advance(s, b))
  {
    var r := if s.state[t] == 1 then s.retreating + [(b, t)] else s.retreating;
    LookShape(blocks, entry, s, b, t, r);
    LookTree(blocks, entry, s, b, t, r);
    LookSeen(blocks, entry, s, b, t, r);
    RetreatsGrow(blocks, entry, s, Advance(s, b));
    if s.state[t] == 1 {
      NoteRetreat(blocks, entry, s, b, t);
      NoteRetreats(blocks, entry, s, b, t);
    }
  }

  lemma NoteRetreats(blocks: seq<BasicBlock>, entry: BlockId, s: Search, b: BlockId, t: BlockId)
    requires b < |s.next| && |s.state| == |s.par|
    requires Retreats(blocks, entry, Advance(s, b)) && Retreat(blocks, entry, s, b, t)
    ensures Retreats(blocks, entry, Note(s, b, t))
  {
    var s' := Note(s, b, t);
    forall e | e in s'.retreating ensures Retreat(blocks, entry, s', e.0, e.1) {
      var u := if e == (b, t) then s else Advance(s, b);
      assert Retreat(blocks, entry, u, e.0, e.1);
      var q :| TreePath(entry, u, q) && q[0] == e.1 && Last(q, e.0);
      TreePathGrows(entry, u, s', q);
    }
  }

  lemma PopInv(blocks: seq<BasicBlock>, entry: BlockId, s: Search, b: BlockId)
    requires Top(blocks, entry, s, b) && s.next[b] == |blocks[b].succs| && Inv(blocks, entry, s)
    ensures Inv(blocks, entry, Pop(s, b))
  {
    PopShape(blocks, entry, s, b);
    PopTree(blocks, entry, s, b);
    PopSeen(blocks, entry, s, b);
    RetreatsGrow(blocks, entry, s, Pop(s, b));
  }

  // -------------------------------------------------- the search as a machine

  function Start(n: nat, entry: BlockId): Search
    requires entry < n
  {
    Search(seq(n, i => 0)[entry := 1], seq(n, i => 0), [entry], [], [], seq(n, i => -1), seq(n, i => 0), seq(n, i => 0))
  }

  ghost predicate CanStep(blocks: seq<BasicBlock>, s: Search) {
    && |s.state| == |s.next| == |s.fin| == |s.par| == |s.at| == |blocks|
    && |s.stack| > 0 && s.stack[|s.stack| - 1] < |blocks|
    && var b := s.stack[|s.stack| - 1];
       0 <= s.next[b] <= |blocks[b].succs| && (s.next[b] < |blocks[b].succs| ==> blocks[b].succs[s.next[b]].to < |blocks|)
  }

  /** One turn of the search loop: look at the next edge of the top block, or finish it. */
  ghost function Step(blocks: seq<BasicBlock>, s: Search): Search
    requires CanStep(blocks, s)
  {
    var b := s.stack[|s.stack| - 1];
    if s.next[b] == |blocks[b].succs| then Pop(s, b)
    else
      var t := blocks[b].succs[s.next[b]].to;
      if s.state[t] == 0 then Push(s, b, t) else if s.state[t] == 1 then Note(s, b, t) else Advance(s, b)
  }

  ghost function Run(blocks: seq<BasicBlock>, entry: BlockId, k: nat): Search
    requires entry < |blocks|
  {
    if k == 0 then Start(|blocks|, entry)
    else
      var s := Run(blocks, entry, k - 1);
      if CanStep(blocks, s) then Step(blocks, s) else s
  }

  lemma InvCanStep(blocks: seq<BasicBlock>, entry: BlockId, s: Search)
    requires EdgesValid(blocks) && Inv(blocks, entry, s) && s.stack != []
    ensures CanStep(blocks, s)
  {
    var b := s.stack[|s.stack| - 1];
    if s.next[b] < |blocks[b].succs| { assert blocks[b].succs[s.next[b]] in blocks[b].succs; }
  }

  lemma StartInv(blocks: seq<BasicBlock>, entry: BlockId)
    requires EdgesValid(blocks) && entry < |blocks|
    ensures Inv(blocks, entry, Start(|blocks|, entry))
  {
    assert Path(blocks, entry, [entry]) && Last([entry], entry);
  }

  /** The search invariant holds after any number of turns. */
  lemma {:induction false} RunInv(blocks: seq<BasicBlock>, entry: BlockId, k: nat)
    requires EdgesValid(blocks) && entry < |blocks|
    ensures Inv(blocks, entry, Run(blocks, entry, k))
  {
    if k == 0 {
      StartInv(blocks, entry);
    } else {
      RunInv(blocks, entry, k - 1);
      StepInv(blocks, entry, Run(blocks, entry, k - 1));
    }
  }

  lemma StepInv(blocks: seq<BasicBlock>, entry: BlockId, s: Search)
    requires EdgesValid(blocks) && Inv(blocks, entry, s)
    ensures Inv(blocks, entry, if CanStep(blocks, s) then Step(blocks, s) else s)
  {
    if CanStep(blocks, s) {
      var b := s.stack[|s.stack| - 1];
      if s.next[b] == |blocks[b].succs| {
        PopInv(blocks, entry, s, b);
      } else {
        var t := blocks[b].succs[s.next[b]].to;
        if s.state[t] == 0 { PushInv(blocks, entry, s, b, t); } else { LookInv(blocks, entry, s, b, t); }
      }
    }
  }

  /** Edges to look at and state changes to make at block v. */
  ghost function WorkAt(blocks: seq<BasicBlock>, s: Search, v: nat): nat {
    if v < |blocks| && v < |s.next| && v < |s.state| && s.next[v] <= |blocks[v].succs| && s.state[v] <= 2
    then |blocks[v].succs| - s.next[v] + 2 - s.state[v] else 0
  }

  /** The work left in the first n blocks: it bounds the remaining turns. */
  ghost function Work(blocks: seq<BasicBlock>, s: Search, n: nat): nat {
    if n == 0 then 0 else Work(blocks, s, n - 1) + WorkAt(blocks, s, n - 1)
  }

  lemma {:induction false} WorkDecreases(blocks: seq<BasicBlock>, s': Search, s: Search, n: nat, b: nat)
    requires forall v: nat :: v < n ==> WorkAt(blocks, s', v) <= WorkAt(blocks, s, v)
    requires WorkAt(blocks, s', b) < WorkAt(blocks, s, b)
    ensures Work(blocks, s', n) <= Work(blocks, s, n)
    ensures b < n ==> Work(blocks, s', n) < Work(blocks, s, n)
  {
    if n > 0 { WorkDecreases(blocks, s', s, n - 1, b); }
  }

  lemma RunStep(blocks: seq<BasicBlock>, entry: BlockId, k: nat, s: Search)
    requires EdgesValid(blocks) && entry < |blocks| && s == Run(blocks, entry, k) && s.stack != []
    ensures CanStep(blocks, s) && Step(blocks, s) == Run(blocks, entry, k + 1)
    ensures Work(blocks, Step(blocks, s), |blocks|) < Work(blocks, s, |blocks|)
  {
    RunInv(blocks, entry, k);
    InvCanStep(blocks, entry, s);
    WorkDecreases(blocks, Step(blocks, s), s, |blocks|, s.stack[|s.stack| - 1]);
  }

  /** The arrays and lists of the running search hold the machine state s. */
  ghost predicate Holds(s: Search, state: array<int>, nextEdge: array<int>, stack: seq<BlockId>, order: seq<BlockId>, retreating: seq<(BlockId, BlockId)>)
    reads state, nextEdge
  {
    state[..] == s.state && nextEdge[..] == s.next && stack == s.stack && order == s.order && retreating == s.retreating
  }

  /** One turn of the search loop. */
  method Turn(blocks: seq<BasicBlock>, state: array<int>, nextEdge: array<int>, stack: seq<BlockId>, order: seq<BlockId>,
              retreating: seq<(BlockId, BlockId)>, ghost s: Search)
    returns (stack': seq<BlockId>, order': seq<BlockId>, retreating': seq<(BlockId, BlockId)>)
    requires CanStep(blocks, s) && state != nextEdge && Holds(s, state, nextEdge, stack, order, retreating)
    modifies state, nextEdge
    ensures Holds(Step(blocks, s), state, nextEdge, stack', order', retreating')
  {
    stack', order', retreating' := stack, order, retreating;
    var b := stack[|stack| - 1];
    var i := nextEdge[b];
    if i < |blocks[b].succs| {
      nextEdge[b] := i + 1;
      var t := blocks[b].succs[i].to;
      if state[t] == 0 {
        state[t] := 1;
        stack' := stack + [t];
      } else if state[t] == 1 {
        retreating' := retreating + [(b, t)];
      }
    } else {
      state[b] := 2;
      order' := order + [b];
      stack' := stack[..|stack| - 1];
    }
  }

  /** Iterative DFS postorder from `entry` over normal successors. */
  method ComputePostorder(blocks: seq<BasicBlock>, entry: BlockId)
    returns (order: seq<BlockId>, retreating: seq<(BlockId, BlockId)>, ghost s: Search)
    requires EdgesValid(blocks) && entry < |blocks|
    ensures FinishedRun(blocks, entry, s) && order == s.order && retreating == s.retreating
  {
    var n := |blocks|;
    var state := new int[n](i => 0);
    var nextEdge := new int[n](i => 0);
    order, retreating := [], [];
    var stack := [entry];
    state[entry] := 1;
    ghost var k := 0;
    s := Run(blocks, entry, 0);
    while |stack| > 0
      invariant s == Run(blocks, entry, k)
      invariant state != nextEdge && Holds(s, state, nextEdge, stack, order, retreating)
      decreases Work(blocks, s, n)
    {
      RunStep(blocks, entry, k, s);
      stack, order, retreating := Turn(blocks, state, nextEdge, stack, order, retreating, s);
      s, k := Step(blocks, s), k + 1;
    }
    RunInv(blocks, entry, k);
  }

  /** s is where the search, taking edges in order, ends up. */
  ghost predicate FinishedRun(blocks: seq<BasicBlock>, entry: BlockId, s: Search) {
    EdgesValid(blocks) && entry < |blocks| && Finished(blocks, entry, s) && exists k: nat :: s == Run(blocks, entry, k)
  }

  lemma {:induction false} StaysFinished(blocks: seq<BasicBlock>, entry: BlockId, k: nat, j: nat)
    requires EdgesValid(blocks) && entry < |blocks| && Run(blocks, entry, k).stack == [] && k <= j
    ensures Run(blocks, entry, j) == Run(blocks, entry, k)
    decreases j
  {
    if k < j { StaysFinished(blocks, entry, k, j - 1); }
  }

  /** The postorder is determined by the edges and their order. */
  lemma FinishedRunUnique(blocks: seq<BasicBlock>, entry: BlockId, a: Search, b: Search)
    requires FinishedRun(blocks, entry, a) && FinishedRun(blocks, entry, b)
    ensures a == b
  {
    var j: nat :| a == Run(blocks, entry, j);
    var k: nat :| b == Run(blocks, entry, k);
    if j <= k { StaysFinished(blocks, entry, j, k); } else { StaysFinished(blocks, entry, k, j); }
  }
}
