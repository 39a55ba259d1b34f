// The worklist of one function (runFunction, src/cfg/env-graph.ts:192-439) as a machine over
// its tables: what every visit keeps, and what holds once it drains without learning.
module EnvFlow {
  import opened CfgTypes
  import opened EnvState

  /** One function's flow graph: per block its instructions, normal successors, handlers, and
      the resume blocks of the generator saves it holds. */
  datatype Flow = Flow(code: seq<seq<EnvInsn>>, succs: seq<seq<nat>>, handlers: seq<seq<nat>>, resumes: seq<seq<nat>>,
                       rpo: seq<nat>, entry: nat)

  ghost predicate Within(ts: seq<nat>, n: nat) {
    forall j :: 0 <= j < |ts| ==> ts[j] < n
  }

  ghost predicate AllWithin(tss: seq<seq<nat>>, n: nat) {
    |tss| == n && forall b :: 0 <= b < n ==> Within(tss[b], n)
  }

  ghost predicate WellFormed(g: Flow) {
    var n := |g.code|;
    && AllWithin(g.succs, n) && AllWithin(g.handlers, n) && AllWithin(g.resumes, n)
    && Within(g.rpo, n) && g.entry in g.rpo
  }

  /** The tables of a run: facts, entry and exit state per block, pending blocks, visits made. */
  datatype Work = Work(facts: Facts, entry: seq<State>, exit: seq<State>, queue: seq<nat>, visits: nat)

  predicate Fits(w: Work, n: nat) {
    |w.entry| == n && |w.exit| == n
  }

  function Push(queue: seq<nat>, b: nat): seq<nat> {
    if b in queue then queue else queue + [b]
  }

  /** mergeState into entryState[t], with the push when it changed something. */
  function Absorb(w: Work, t: nat, s: State): Work
    requires t < |w.entry|
  {
    var m := Merge(w.entry[t], s);
    if m == w.entry[t] then w else w.(entry := w.entry[t := m], queue := Push(w.queue, t))
  }

  function AbsorbAll(w: Work, ts: seq<nat>, s: State): (v: Work)
    requires Within(ts, |w.entry|)
    ensures |v.entry| == |w.entry| && v.exit == w.exit && v.facts == w.facts && v.visits == w.visits
    decreases |ts|
  {
    if ts == [] then w else Absorb(AbsorbAll(w, ts[..|ts| - 1], s), ts[|ts| - 1], s)
  }

  /** The first k instructions of block b: tables and register state after them. */
  function Walk(g: Flow, self: Option<Option<Node>>, w: Work, b: nat, k: nat): (r: (Work, State))
    requires WellFormed(g) && Fits(w, |g.code|) && b < |g.code| && k <= |g.code[b]|
    ensures Fits(r.0, |g.code|) && r.0.exit == w.exit && r.0.visits == w.visits
    decreases k
  {
    if k == 0 then (AbsorbAll(w, g.handlers[b], w.entry[b]), w.entry[b])
    else
      var (v, s) := Walk(g, self, w, b, k - 1);
      var insn := g.code[b][k - 1];
      var s' := Transfer(v.facts, self, insn, s);
      (AbsorbAll(v.(facts := Learn(v.facts, self, insn, s)), g.handlers[b], s'), s')
  }

  /** The end of a visit: an unchanged exit state is not propagated again once every block
      has had its turn. */
  function Leave(g: Flow, w: Work, b: nat, s: State): (v: Work)
    requires WellFormed(g) && Fits(w, |g.code|) && b < |g.code|
    ensures Fits(v, |g.code|) && v.visits == w.visits && v.facts == w.facts
  {
    if s == w.exit[b] && w.visits > |g.code| then w
    else AbsorbAll(AbsorbAll(w.(exit := w.exit[b := s]), g.succs[b], s), g.resumes[b], s)
  }

  function Visit(g: Flow, self: Option<Option<Node>>, w: Work): (v: Work)
    requires WellFormed(g) && Fits(w, |g.code|) && w.queue != [] && w.queue[0] < |g.code|
    ensures Fits(v, |g.code|) && v.visits == w.visits + 1
  {
    var b := w.queue[0];
    var (v, s) := Walk(g, self, w.(queue := w.queue[1..], visits := w.visits + 1), b, |g.code[b]|);
    Leave(g, v, b, s)
  }

  // ------------------------------------------------------- what absorbing does

  /** v is w after absorbing some states: entry states only give up knowledge, and whatever
      changed is pending. */
  ghost predicate Grows(w: Work, v: Work) {
    && |v.entry| == |w.entry| && v.exit == w.exit
    && (forall b {:trigger w.entry[b]} {:trigger v.entry[b]} :: 0 <= b < |w.entry| ==>
          Below(w.entry[b], v.entry[b]) && (v.entry[b] == w.entry[b] || b in v.queue))
    && forall b {:trigger b in w.queue} {:trigger b in v.queue} :: b in w.queue ==> b in v.queue
  }

  /** Every pending block is a block. */
  ghost predicate Pending(w: Work) {
    Within(w.queue, |w.entry|)
  }

  /** s is absorbed by the entry state of every t in ts. */
  ghost predicate AllAbove(entry: seq<State>, ts: seq<nat>, s: State)
    requires Within(ts, |entry|)
  {
    forall j {:trigger ts[j]} :: 0 <= j < |ts| ==> Below(s, entry[ts[j]])
  }

  lemma GrowsTransitive(a: Work, b: Work, c: Work)
    requires Grows(a, b) && Grows(b, c)
    ensures Grows(a, c)
  {
    forall x | 0 <= x < |a.entry| ensures Below(a.entry[x], c.entry[x]) && (c.entry[x] == a.entry[x] || x in c.queue) {
      assert Below(a.entry[x], b.entry[x]) && Below(b.entry[x], c.entry[x]);
      BelowTransitive(a.entry[x], b.entry[x], c.entry[x]);
    }
  }

  lemma AbsorbGrows(w: Work, t: nat, s: State)
    requires t < |w.entry|
    ensures Grows(w, Absorb(w, t, s)) && Below(s, Absorb(w, t, s).entry[t])
    ensures Pending(w) ==> Pending(Absorb(w, t, s))
  {
    MergeIsUpper(w.entry[t], s);
    var v := Absorb(w, t, s);
    forall x | 0 <= x < |w.entry| ensures Below(w.entry[x], v.entry[x]) && (v.entry[x] == w.entry[x] || x in v.queue) {
      if x == t { assert Below(w.entry[t], Merge(w.entry[t], s)); }
    }
  }

  lemma StillAbove(w: Work, v: Work, ts: seq<nat>, s: State)
    requires Grows(w, v) && Within(ts, |w.entry|) && AllAbove(w.entry, ts, s)
    ensures AllAbove(v.entry, ts, s)
  {
    forall j | 0 <= j < |ts| ensures Below(s, v.entry[ts[j]]) {
      BelowTransitive(s, w.entry[ts[j]], v.entry[ts[j]]);
    }
  }

  lemma {:induction false} AbsorbAllGrows(w: Work, ts: seq<nat>, s: State)
    requires Within(ts, |w.entry|)
    ensures Grows(w, AbsorbAll(w, ts, s)) && AllAbove(AbsorbAll(w, ts, s).entry, ts, s)
    ensures Pending(w) ==> Pending(AbsorbAll(w, ts, s))
    decreases |ts|
  {
    if ts != [] {
      var front, t := ts[..|ts| - 1], ts[|ts| - 1];
      var v := AbsorbAll(w, front, s);
      AbsorbAllGrows(w, front, s);
      AbsorbGrows(v, t, s);
      GrowsTransitive(w, v, Absorb(v, t, s));
      StillAbove(v, Absorb(v, t, s), front, s);
    }
  }

  // ------------------------------------------------------ a visit to one block

  /** Register state after k instructions when the facts stay as they are. */
  function Out(facts: Facts, self: Option<Option<Node>>, code: seq<EnvInsn>, s: State, k: nat): State
    requires k <= |code|
    decreases k
  {
    if k == 0 then s else Transfer(facts, self, code[k - 1], Out(facts, self, code, s, k - 1))
  }

  /** The first k instructions teach nothing when run from s. */
  ghost predicate Quiet(facts: Facts, self: Option<Option<Node>>, code: seq<EnvInsn>, s: State, k: nat)
    requires k <= |code|
  {
    forall j {:trigger Out(facts, self, code, s, j)} :: 0 <= j < k ==> Learn(facts, self, code[j], Out(facts, self, code, s, j)) == facts
  }

  /** Block b teaches nothing, and what its handlers and successors are owed is in their
      entry states. */
  ghost predicate Settled(g: Flow, self: Option<Option<Node>>, facts: Facts, entry: seq<State>, b: nat)
    requires WellFormed(g) && |entry| == |g.code| && b < |g.code|
  {
    && (forall k {:trigger Out(facts, self, g.code[b], entry[b], k)} :: 0 <= k <= |g.code[b]| ==>
          AllAbove(entry, g.handlers[b], Out(facts, self, g.code[b], entry[b], k)))
    && AllAbove(entry, g.succs[b], Out(facts, self, g.code[b], entry[b], |g.code[b]|))
    && AllAbove(entry, g.resumes[b], Out(facts, self, g.code[b], entry[b], |g.code[b]|))
    && Quiet(facts, self, g.code[b], entry[b], |g.code[b]|)
  }

  /** The part of a visit before Leave. */
  ghost predicate Walked(g: Flow, self: Option<Option<Node>>, w: Work, b: nat, k: nat, v: Work, s: State)
    requires WellFormed(g) && Fits(w, |g.code|) && Fits(v, |g.code|) && b < |g.code| && k <= |g.code[b]|
  {
    && Grows(w, v) && FactsLe(w.facts, v.facts)
    && (v.facts == w.facts ==> s == Out(w.facts, self, g.code[b], w.entry[b], k) && Quiet(w.facts, self, g.code[b], w.entry[b], k))
    && (v.facts == w.facts ==> forall j {:trigger Out(w.facts, self, g.code[b], w.entry[b], j)} :: 0 <= j <= k ==>
          AllAbove(v.entry, g.handlers[b], Out(w.facts, self, g.code[b], w.entry[b], j)))
  }

  lemma FactsLeAntisymmetric(a: Facts, b: Facts)
    requires FactsLe(a, b) && FactsLe(b, a)
    ensures a == b
  {
    assert a.parent.Keys == b.parent.Keys;
    assert a.parent == b.parent;
    assert a.closureEnv.Keys == b.closureEnv.Keys;
    assert a.closureEnv == b.closureEnv;
    assert a.slotEnv.Keys == b.slotEnv.Keys;
    forall k | k in a.slotEnv ensures a.slotEnv[k] == b.slotEnv[k] {
      assert HeldLe(a.slotEnv[k], b.slotEnv[k]) && HeldLe(b.slotEnv[k], a.slotEnv[k]);
    }
    assert a.slotEnv == b.slotEnv;
  }

  lemma {:induction false} WalkIsRight(g: Flow, self: Option<Option<Node>>, w: Work, b: nat, k: nat)
    requires WellFormed(g) && Fits(w, |g.code|) && b < |g.code| && k <= |g.code[b]|
    ensures var (v, s) := Walk(g, self, w, b, k); Walked(g, self, w, b, k, v, s) && (Pending(w) ==> Pending(v))
    decreases k
  {
    if k == 0 {
      AbsorbAllGrows(w, g.handlers[b], w.entry[b]);
    } else {
      WalkIsRight(g, self, w, b, k - 1);
      var (v, s) := Walk(g, self, w, b, k - 1);
      WalkStep(g, self, w, b, k, v, s);
    }
  }

  lemma WalkStep(g: Flow, self: Option<Option<Node>>, w: Work, b: nat, k: nat, v: Work, s: State)
    requires WellFormed(g) && Fits(w, |g.code|) && Fits(v, |g.code|) && b < |g.code| && 0 < k <= |g.code[b]|
    requires Walked(g, self, w, b, k - 1, v, s) && (Pending(w) ==> Pending(v))
    ensures var insn := g.code[b][k - 1];
            var s' := Transfer(v.facts, self, insn, s);
            var v' := AbsorbAll(v.(facts := Learn(v.facts, self, insn, s)), g.handlers[b], s');
            Walked(g, self, w, b, k, v', s') && (Pending(w) ==> Pending(v'))
  {
    var insn := g.code[b][k - 1];
    var s' := Transfer(v.facts, self, insn, s);
    var u := v.(facts := Learn(v.facts, self, insn, s));
    var v' := AbsorbAll(u, g.handlers[b], s');
    AbsorbAllGrows(u, g.handlers[b], s');
    assert Grows(v, v');
    GrowsTransitive(w, v, v');
    LearnAscends(v.facts, self, insn, s);
    FactsLeTransitive(w.facts, v.facts, v'.facts);
    if v'.facts == w.facts {
      FactsLeAntisymmetric(w.facts, v.facts);
      WalkStill(g, self, w, b, k, v, s, v', s');
    }
  }

  lemma WalkStill(g: Flow, self: Option<Option<Node>>, w: Work, b: nat, k: nat, v: Work, s: State, v': Work, s': State)
    requires WellFormed(g) && Fits(w, |g.code|) && Fits(v, |g.code|) && Fits(v', |g.code|) && b < |g.code| && 0 < k <= |g.code[b]|
    requires Walked(g, self, w, b, k - 1, v, s) && v.facts == w.facts && Grows(v, v')
    requires Learn(w.facts, self, g.code[b][k - 1], s) == w.facts && s' == Transfer(w.facts, self, g.code[b][k - 1], s)
    requires AllAbove(v'.entry, g.handlers[b], s')
    ensures s' == Out(w.facts, self, g.code[b], w.entry[b], k) && Quiet(w.facts, self, g.code[b], w.entry[b], k)
    ensures forall j {:trigger Out(w.facts, self, g.code[b], w.entry[b], j)} :: 0 <= j <= k ==>
              AllAbove(v'.entry, g.handlers[b], Out(w.facts, self, g.code[b], w.entry[b], j))
  {
    assert s' == Out(w.facts, self, g.code[b], w.entry[b], k);
    forall j | 0 <= j <= k ensures AllAbove(v'.entry, g.handlers[b], Out(w.facts, self, g.code[b], w.entry[b], j)) {
      if j < k { StillAbove(v, v', g.handlers[b], Out(w.facts, self, g.code[b], w.entry[b], j)); }
    }
  }

  // ------------------------------------------------- the invariant of the loop

  /** A block that gets a visit: listed in rpo, or reached by some register. */
  ghost predicate Live(g: Flow, entry: seq<State>, b: nat)
    requires b < |entry|
  {
    b in g.rpo || entry[b] != map[]
  }

  /** Recorded exits have been passed on. */
  ghost predicate ExitsPassed(g: Flow, w: Work)
    requires WellFormed(g) && Fits(w, |g.code|)
  {
    forall b {:trigger w.exit[b]} :: 0 <= b < |g.code| ==> AllAbove(w.entry, g.succs[b], w.exit[b]) && AllAbove(w.entry, g.resumes[b], w.exit[b])
  }

  ghost predicate LiveSettled(g: Flow, self: Option<Option<Node>>, facts: Facts, w: Work)
    requires WellFormed(g) && Fits(w, |g.code|)
  {
    forall b: nat {:trigger Live(g, w.entry, b)} :: b < |g.code| && Live(g, w.entry, b) ==> b in w.queue || Settled(g, self, facts, w.entry, b)
  }

  /** The invariant: with nothing learned since `start`, every live block is pending or settled. */
  ghost predicate Inv(g: Flow, self: Option<Option<Node>>, start: Facts, w: Work) {
    && WellFormed(g) && Fits(w, |g.code|) && Pending(w) && FactsLe(start, w.facts) && ExitsPassed(g, w)
    && (w.facts == start ==> LiveSettled(g, self, start, w))
  }

  lemma LeaveIsRight(g: Flow, w: Work, b: nat, s: State)
    requires WellFormed(g) && Fits(w, |g.code|) && b < |g.code| && ExitsPassed(g, w)
    ensures var v := Leave(g, w, b, s);
      && (Pending(w) ==> Pending(v)) && ExitsPassed(g, v) && Grows(w.(exit := v.exit), v)
      && AllAbove(v.entry, g.succs[b], s) && AllAbove(v.entry, g.resumes[b], s)
  {
    if s == w.exit[b] && w.visits > |g.code| {
      assert AllAbove(w.entry, g.succs[b], w.exit[b]);
    } else {
      var w0 := w.(exit := w.exit[b := s]);
      var w1 := AbsorbAll(w0, g.succs[b], s);
      var v := AbsorbAll(w1, g.resumes[b], s);
      AbsorbAllGrows(w0, g.succs[b], s);
      AbsorbAllGrows(w1, g.resumes[b], s);
      GrowsTransitive(w0, w1, v);
      StillAbove(w1, v, g.succs[b], s);
      ExitsKept(g, w, w0, v, b, s);
    }
  }

  lemma ExitsKept(g: Flow, w: Work, w0: Work, v: Work, b: nat, s: State)
    requires WellFormed(g) && Fits(w, |g.code|) && b < |g.code| && ExitsPassed(g, w)
    requires w0 == w.(exit := w.exit[b := s]) && Grows(w0, v)
    requires AllAbove(v.entry, g.succs[b], s) && AllAbove(v.entry, g.resumes[b], s)
    ensures ExitsPassed(g, v)
  {
    forall x | 0 <= x < |g.code| ensures AllAbove(v.entry, g.succs[x], v.exit[x]) && AllAbove(v.entry, g.resumes[x], v.exit[x]) {
      if x != b {
        assert AllAbove(w.entry, g.succs[x], w.exit[x]);
        StillAbove(w0, v, g.succs[x], w.exit[x]);
        StillAbove(w0, v, g.resumes[x], w.exit[x]);
      }
    }
  }

  lemma ExitsWalked(g: Flow, w: Work, v: Work)
    requires WellFormed(g) && Fits(w, |g.code|) && ExitsPassed(g, w) && Grows(w, v)
    ensures ExitsPassed(g, v)
  {
    forall x | 0 <= x < |g.code| ensures AllAbove(v.entry, g.succs[x], v.exit[x]) && AllAbove(v.entry, g.resumes[x], v.exit[x]) {
      assert AllAbove(w.entry, g.succs[x], w.exit[x]);
      StillAbove(w, v, g.succs[x], w.exit[x]);
      StillAbove(w, v, g.resumes[x], w.exit[x]);
    }
  }

  lemma SettledStays(g: Flow, self: Option<Option<Node>>, facts: Facts, w: Work, v: Work, b: nat)
    requires WellFormed(g) && Fits(w, |g.code|) && Grows(w.(exit := v.exit), v) && b < |g.code|
    requires Settled(g, self, facts, w.entry, b) && v.entry[b] == w.entry[b]
    ensures Settled(g, self, facts, v.entry, b)
  {
    var w0 := w.(exit := v.exit);
    forall k | 0 <= k <= |g.code[b]| ensures AllAbove(v.entry, g.handlers[b], Out(facts, self, g.code[b], v.entry[b], k)) {
      StillAbove(w0, v, g.handlers[b], Out(facts, self, g.code[b], w.entry[b], k));
    }
    StillAbove(w0, v, g.succs[b], Out(facts, self, g.code[b], w.entry[b], |g.code[b]|));
    StillAbove(w0, v, g.resumes[b], Out(facts, self, g.code[b], w.entry[b], |g.code[b]|));
  }

  /** A visit settles the block it took, unless that block is pending again. */
  lemma VisitSettles(g: Flow, self: Option<Option<Node>>, start: Facts, w: Work, b: nat, v: Work, s: State, z: Work)
    requires WellFormed(g) && Fits(w, |g.code|) && Fits(v, |g.code|) && Fits(z, |g.code|) && b < |g.code|
    requires Walked(g, self, w, b, |g.code[b]|, v, s) && Grows(v.(exit := z.exit), z)
    requires AllAbove(z.entry, g.succs[b], s) && AllAbove(z.entry, g.resumes[b], s)
    requires v.facts == w.facts == start && b !in z.queue
    ensures Settled(g, self, start, z.entry, b)
  {
    assert v.entry[b] == z.entry[b];
    assert b !in v.queue;
    assert w.entry[b] == v.entry[b];
    forall k | 0 <= k <= |g.code[b]| ensures AllAbove(z.entry, g.handlers[b], Out(start, self, g.code[b], z.entry[b], k)) {
      StillAbove(v.(exit := z.exit), z, g.handlers[b], Out(start, self, g.code[b], w.entry[b], k));
    }
  }

  lemma VisitKeepsInv(g: Flow, self: Option<Option<Node>>, start: Facts, w: Work)
    requires Inv(g, self, start, w) && w.queue != []
    ensures w.queue[0] < |g.code| && Inv(g, self, start, Visit(g, self, w))
    ensures FactsLe(w.facts, Visit(g, self, w).facts)
  {
    var b := w.queue[0];
    var w1 := w.(queue := w.queue[1..], visits := w.visits + 1);
    assert w.queue == [b] + w1.queue;
    var (v, s) := Walk(g, self, w1, b, |g.code[b]|);
    WalkIsRight(g, self, w1, b, |g.code[b]|);
    VisitFrom(g, self, start, w, w1, b, v, s);
  }

  lemma VisitFrom(g: Flow, self: Option<Option<Node>>, start: Facts, w: Work, w1: Work, b: nat, v: Work, s: State)
    requires Inv(g, self, start, w) && b < |g.code| && w.queue == [b] + w1.queue
    requires w1.entry == w.entry && w1.exit == w.exit && w1.facts == w.facts && Fits(v, |g.code|)
    requires Walked(g, self, w1, b, |g.code[b]|, v, s) && (Pending(w1) ==> Pending(v))
    ensures FactsLe(w.facts, v.facts) && Inv(g, self, start, Leave(g, v, b, s))
  {
    forall j | 0 <= j < |w1.queue| ensures w1.queue[j] < |w1.entry| { assert w1.queue[j] == w.queue[j + 1]; }
    assert ExitsPassed(g, w1);
    ExitsWalked(g, w1, v);
    LeaveIsRight(g, v, b, s);
    var z := Leave(g, v, b, s);
    FactsLeTransitive(start, w.facts, z.facts);
    if z.facts == start {
      FactsLeAntisymmetric(start, w.facts);
      VisitLive(g, self, start, w, w1, b, v, s, z);
    }
  }

  lemma VisitLive(g: Flow, self: Option<Option<Node>>, start: Facts, w: Work, w1: Work, b: nat, v: Work, s: State, z: Work)
    requires WellFormed(g) && Fits(w, |g.code|) && Fits(v, |g.code|) && Fits(z, |g.code|) && b < |g.code|
    requires LiveSettled(g, self, start, w) && w.queue == [b] + w1.queue && w1.entry == w.entry && w1.exit == w.exit
    requires Walked(g, self, w1, b, |g.code[b]|, v, s) && Grows(v.(exit := z.exit), z)
    requires AllAbove(z.entry, g.succs[b], s) && AllAbove(z.entry, g.resumes[b], s)
    requires v.facts == w1.facts == start
    ensures LiveSettled(g, self, start, z)
  {
    var v0 := v.(exit := z.exit);
    GrowsTransitive(w1.(exit := z.exit), v0, z);
    forall x: nat | x < |g.code| && Live(g, z.entry, x) ensures x in z.queue || Settled(g, self, start, z.entry, x) {
      if x !in z.queue {
        if x == b {
          VisitSettles(g, self, start, w1, b, v, s, z);
        } else {
          assert x !in w1.queue;
          assert z.entry[x] == w1.entry[x];
          assert Live(g, w.entry, x);
          assert Grows(w.(queue := w1.queue, exit := z.exit), z);
          SettledStays(g, self, start, w1, z, x);
        }
      }
    }
  }

  // --------------------------------------------------------- the whole worklist

  function Budget(g: Flow): nat {
    |g.code| * 8 + 64
  }

  function Blank(n: nat): (r: seq<State>)
    ensures |r| == n && forall b :: 0 <= b < n ==> r[b] == map[]
  {
    if n == 0 then [] else Blank(n - 1) + [map[]]
  }

  function PushAll(queue: seq<nat>, bs: seq<nat>): (r: seq<nat>)
    ensures forall b :: b in r <==> b in queue || b in bs
    decreases |bs|
  {
    if bs == [] then queue
    else
      assert bs == bs[..|bs| - 1] + [bs[|bs| - 1]];
      Push(PushAll(queue, bs[..|bs| - 1]), bs[|bs| - 1])
  }

  function Start(g: Flow, facts: Facts): Work {
    Work(facts, Blank(|g.code|), Blank(|g.code|), PushAll([], g.rpo), 0)
  }

  lemma StartIsRight(g: Flow, self: Option<Option<Node>>, facts: Facts)
    requires WellFormed(g)
    ensures Inv(g, self, facts, Start(g, facts))
  {
    var w := Start(g, facts);
    forall j | 0 <= j < |w.queue| ensures w.queue[j] < |g.code| { assert w.queue[j] in g.rpo; }
  }

  /** Visits until nothing is pending or the budget is spent. */
  function Drain(g: Flow, self: Option<Option<Node>>, start: Facts, w: Work): (v: Work)
    requires Inv(g, self, start, w)
    ensures Inv(g, self, start, v) && FactsLe(w.facts, v.facts)
    decreases Budget(g) - w.visits
  {
    if w.queue == [] || w.visits >= Budget(g) then w
    else
      VisitKeepsInv(g, self, start, w);
      var next := Visit(g, self, w);
      var v := Drain(g, self, start, next);
      FactsLeTransitive(w.facts, next.facts, v.facts);
      v
  }

  /** runFunction up to the collection: the tables it ends with. */
  function RunFlow(g: Flow, f: Fn, facts: Facts): (v: Work)
    requires WellFormed(g)
    ensures Inv(g, SelfEnv(facts, f), facts, v)
  {
    StartIsRight(g, SelfEnv(facts, f), facts);
    Drain(g, SelfEnv(facts, f), facts, Start(g, facts))
  }

  /** A post-fixpoint over normal edges, over exception edges from every instruction
      boundary, and over save -> resume edges. */
  ghost predicate PostFix(g: Flow, self: Option<Option<Node>>, facts: Facts, entry: seq<State>) {
    && WellFormed(g) && |entry| == |g.code|
    && forall b: nat {:trigger Live(g, entry, b)} :: b < |g.code| && Live(g, entry, b) ==> Settled(g, self, facts, entry, b)
  }

  /** Drained with nothing learned: the entry states are a post-fixpoint. */
  lemma DrainedIsPostFix(g: Flow, f: Fn, facts: Facts)
    requires WellFormed(g)
    requires RunFlow(g, f, facts).queue == [] && RunFlow(g, f, facts).facts == facts
    ensures PostFix(g, SelfEnv(facts, f), facts, RunFlow(g, f, facts).entry)
  {
    assert Inv(g, SelfEnv(facts, f), facts, RunFlow(g, f, facts));
  }

  // ------------------------------------------- which blocks the worklist reaches

  /** No edge of any kind leaves the live blocks. */
  ghost predicate Covered(g: Flow, entry: seq<State>)
    requires WellFormed(g) && |entry| == |g.code|
  {
    forall b: nat {:trigger Live(g, entry, b)} :: b < |g.code| && Live(g, entry, b) ==>
      AllLive(g, entry, g.succs[b]) && AllLive(g, entry, g.handlers[b]) && AllLive(g, entry, g.resumes[b])
  }

  ghost predicate AllLive(g: Flow, entry: seq<State>, ts: seq<nat>)
    requires Within(ts, |entry|)
  {
    forall j {:trigger ts[j]} :: 0 <= j < |ts| ==> Live(g, entry, ts[j])
  }

  predicate Writes(insn: EnvInsn) {
    match insn
    case StoreSlot(_, _, _) => false
    case Other(writes) => writes != []
    case _ => true
  }

  /** What the builder provides: rpo is closed under normal edges, and resume blocks are
      successors of the dispatcher. */
  ghost predicate OrderClosed(g: Flow)
    requires WellFormed(g)
  {
    && (forall b: nat, j :: b in g.rpo && b < |g.code| && 0 <= j < |g.succs[b]| ==> g.succs[b][j] in g.rpo)
    && forall b: nat, j :: b < |g.code| && 0 <= j < |g.resumes[b]| ==> g.resumes[b][j] in g.rpo
  }

  /** Every protected block writes some register. */
  ghost predicate ProtectedBlocksWrite(g: Flow)
    requires WellFormed(g)
  {
    forall b: nat :: b < |g.code| && g.handlers[b] != [] ==> exists k :: 0 <= k < |g.code[b]| && Writes(g.code[b][k])
  }

  lemma {:induction false} ClobberKeeps(s: State, rs: seq<Reg>)
    ensures s.Keys <= Clobber(s, rs).Keys && (rs != [] ==> Clobber(s, rs) != map[])
    decreases |rs|
  {
    if rs != [] {
      ClobberKeeps(s, rs[..|rs| - 1]);
      assert rs[|rs| - 1] in Clobber(s, rs);
    }
  }

  lemma TransferKeeps(facts: Facts, self: Option<Option<Node>>, insn: EnvInsn, s: State)
    ensures s != map[] || Writes(insn) ==> Transfer(facts, self, insn, s) != map[]
  {
    var t := Transfer(facts, self, insn, s);
    match insn
    case MakeClosure(dst, clobbered, _, _) => assert dst in t;
    case StoreSlot(_, _, _) =>
    case Other(writes) =>
      ClobberKeeps(s, writes);
      if s != map[] { var r :| r in s; assert r in t; }
    case CreateEnv(dst, _, _) => assert dst in t;
    case GetOwnEnv(dst, _) => assert dst in t;
    case GetEnvAbove(dst, _, _) => assert dst in t;
    case GetClosureEnv(dst, _) => assert dst in t;
    case LoadUndefined(dst) => assert dst in t;
    case Move(dst, _) => assert dst in t;
    case LoadSlot(dst, _, _) => assert dst in t;
  }

  lemma {:induction false} OutKeeps(facts: Facts, self: Option<Option<Node>>, code: seq<EnvInsn>, s: State, k: nat)
    requires k <= |code| && (s != map[] || exists j :: 0 <= j < k && Writes(code[j]))
    ensures Out(facts, self, code, s, k) != map[]
    decreases k
  {
    if k > 0 {
      if s != map[] || exists j :: 0 <= j < k - 1 && Writes(code[j]) { OutKeeps(facts, self, code, s, k - 1); }
      TransferKeeps(facts, self, code[k - 1], Out(facts, self, code, s, k - 1));
    }
  }

  lemma AboveIsLive(g: Flow, entry: seq<State>, ts: seq<nat>, s: State)
    requires Within(ts, |entry|) && s != map[] && AllAbove(entry, ts, s)
    ensures AllLive(g, entry, ts)
  {
    var r :| r in s;
    forall j | 0 <= j < |ts| ensures Live(g, entry, ts[j]) {
      assert Below(s, entry[ts[j]]);
      assert r in entry[ts[j]];
    }
  }

  /** When every protected block writes a register, a post-fixpoint covers every block that
      control can reach. */
  lemma WritesCover(g: Flow, self: Option<Option<Node>>, facts: Facts, entry: seq<State>)
    requires PostFix(g, self, facts, entry) && OrderClosed(g) && ProtectedBlocksWrite(g)
    ensures Covered(g, entry)
  {
    forall b: nat | b < |g.code| && Live(g, entry, b)
      ensures AllLive(g, entry, g.succs[b]) && AllLive(g, entry, g.handlers[b]) && AllLive(g, entry, g.resumes[b])
    {
      var code := g.code[b];
      var out := Out(facts, self, code, entry[b], |code|);
      assert Settled(g, self, facts, entry, b);
      if entry[b] != map[] {
        OutKeeps(facts, self, code, entry[b], |code|);
        AboveIsLive(g, entry, g.succs[b], out);
      }
      if g.handlers[b] != [] {
        OutKeeps(facts, self, code, entry[b], |code|);
        assert AllAbove(entry, g.handlers[b], out);
        AboveIsLive(g, entry, g.handlers[b], out);
      }
    }
  }
}
