// What the worklist of the environment tracker holds at a block's entry, by what control brought
// there: a register is known there exactly when some state that arrived knows it and no other
// arrival says anything else.
module EnvArrivals {
  import opened CfgTypes
  import opened EnvState
  import opened EnvFlow

  /** A state passed on from block `from`, after k of its instructions, to block `to`. */
  datatype Arrival = Arrival(from: nat, k: nat, to: nat, state: State)

  /** It goes to a handler after any instruction, and from the end to a successor or the resume
      block of a save. */
  ghost predicate AlongEdge(g: Flow, a: Arrival)
    requires WellFormed(g)
  {
    && a.from < |g.code| && a.k <= |g.code[a.from]|
    && (a.to in g.handlers[a.from] || (a.k == |g.code[a.from]| && (a.to in g.succs[a.from] || a.to in g.resumes[a.from])))
  }

  ghost predicate AllAlong(g: Flow, mail: seq<Arrival>)
    requires WellFormed(g)
  {
    forall i {:trigger mail[i]} :: 0 <= i < |mail| ==> AlongEdge(g, mail[i])
  }

  // ------------------------------------------------------------------------- gathering

  /** s with every arrival at b merged in, in order. */
  ghost function Gather(s: State, mail: seq<Arrival>, b: nat): State
    decreases |mail|
  {
    if mail == [] then s
    else
      var before, last := Gather(s, mail[..|mail| - 1], b), mail[|mail| - 1];
      if last.to == b then Merge(before, last.state) else before
  }

  /** The entry states are those before with the mail gathered. */
  ghost predicate Gathered(before: seq<State>, mail: seq<Arrival>, after: seq<State>) {
    |before| == |after| && forall b: nat {:trigger after[b]} :: b < |after| ==> after[b] == Gather(before[b], mail, b)
  }

  lemma {:induction false} GatherOn(s: State, a: seq<Arrival>, m: seq<Arrival>, b: nat)
    ensures Gather(s, a + m, b) == Gather(Gather(s, a, b), m, b)
    decreases |m|
  {
    if m == [] {
      assert a + m == a;
    } else {
      GatherOn(s, a, m[..|m| - 1], b);
      assert (a + m)[..|a + m| - 1] == a + m[..|m| - 1];
    }
  }

  lemma GatheredOn(x: seq<State>, a: seq<Arrival>, y: seq<State>, m: seq<Arrival>, z: seq<State>)
    requires Gathered(x, a, y) && Gathered(y, m, z)
    ensures Gathered(x, a + m, z)
  {
    forall b: nat | b < |z| ensures z[b] == Gather(x[b], a + m, b) {
      GatherOn(x[b], a, m, b);
      assert y[b] == Gather(x[b], a, b);
    }
  }

  ghost predicate IsArrival(mail: seq<Arrival>, i: nat, b: nat, r: Reg) {
    i < |mail| && mail[i].to == b && r in mail[i].state
  }

  ghost predicate Arrives(mail: seq<Arrival>, b: nat, r: Reg) {
    exists i: nat :: IsArrival(mail, i, b, r)
  }

  /** Some arrival at b has r, and all that have it say v. */
  ghost predicate AllSay(mail: seq<Arrival>, b: nat, r: Reg, v: EnvValue) {
    Arrives(mail, b, r) && forall i: nat :: IsArrival(mail, i, b, r) ==> mail[i].state[r] == v
  }

  lemma ArrivalsNext(mail: seq<Arrival>, b: nat, r: Reg, i: nat)
    requires mail != []
    ensures IsArrival(mail, i, b, r) <==> IsArrival(mail[..|mail| - 1], i, b, r) || (i == |mail| - 1 && IsArrival(mail, |mail| - 1, b, r))
    ensures IsArrival(mail[..|mail| - 1], i, b, r) ==> mail[..|mail| - 1][i] == mail[i]
  {
  }

  lemma ArrivesNext(mail: seq<Arrival>, b: nat, r: Reg)
    requires mail != []
    ensures Arrives(mail, b, r) <==> Arrives(mail[..|mail| - 1], b, r) || IsArrival(mail, |mail| - 1, b, r)
  {
    if Arrives(mail, b, r) {
      var i: nat :| IsArrival(mail, i, b, r);
      ArrivalsNext(mail, b, r, i);
    }
    if Arrives(mail[..|mail| - 1], b, r) {
      var i: nat :| IsArrival(mail[..|mail| - 1], i, b, r);
      ArrivalsNext(mail, b, r, i);
    }
  }

  /** From nothing, what is gathered at b: a register is there when it arrived, and known when all
      arrivals agree. */
  lemma {:induction false} GatheredIff(mail: seq<Arrival>, b: nat, r: Reg)
    ensures r in Gather(map[], mail, b) <==> Arrives(mail, b, r)
    ensures forall v :: v != Unknown ==> (r in Gather(map[], mail, b) && Gather(map[], mail, b)[r] == v <==> AllSay(mail, b, r, v))
    decreases |mail|
  {
    if mail != [] {
      GatheredIff(mail[..|mail| - 1], b, r);
      ArrivesNext(mail, b, r);
      forall v | v != Unknown ensures r in Gather(map[], mail, b) && Gather(map[], mail, b)[r] == v <==> AllSay(mail, b, r, v) {
        SayNext(mail, b, r, v);
      }
    }
  }

  lemma SayNext(mail: seq<Arrival>, b: nat, r: Reg, v: EnvValue)
    requires mail != []
    ensures var rest, last := mail[..|mail| - 1], mail[|mail| - 1];
      AllSay(mail, b, r, v) <==>
        if !IsArrival(mail, |mail| - 1, b, r) then AllSay(rest, b, r, v)
        else last.state[r] == v && (AllSay(rest, b, r, v) || !Arrives(rest, b, r))
  {
    var rest, n := mail[..|mail| - 1], |mail| - 1;
    forall i: nat
      ensures IsArrival(mail, i, b, r) <==> IsArrival(rest, i, b, r) || (i == n && IsArrival(mail, n, b, r))
      ensures IsArrival(rest, i, b, r) ==> rest[i] == mail[i]
    {
      ArrivalsNext(mail, b, r, i);
    }
    ArrivesNext(mail, b, r);
    if AllSay(mail, b, r, v) {
      forall i: nat | IsArrival(rest, i, b, r) ensures rest[i].state[r] == v { assert IsArrival(mail, i, b, r); }
    }
  }

  // ---------------------------------------------------------------- what a run passes on

  ghost function Sent(from: nat, k: nat, ts: seq<nat>, s: State): (m: seq<Arrival>)
    ensures |m| == |ts| && forall j :: 0 <= j < |m| ==> m[j] == Arrival(from, k, ts[j], s)
  {
    seq(|ts|, j requires 0 <= j < |ts| => Arrival(from, k, ts[j], s))
  }

  lemma AbsorbGathers(w: Work, t: nat, from: nat, k: nat, s: State)
    requires t < |w.entry|
    ensures Gathered(w.entry, [Arrival(from, k, t, s)], Absorb(w, t, s).entry)
  {
    var a := Arrival(from, k, t, s);
    forall b: nat | b < |w.entry| ensures Absorb(w, t, s).entry[b] == Gather(w.entry[b], [a], b) {
      assert [a][..0] == [];
      assert Gather(w.entry[b], [], b) == w.entry[b];
    }
  }

  lemma {:induction false} AbsorbAllGathers(w: Work, from: nat, k: nat, ts: seq<nat>, s: State)
    requires Within(ts, |w.entry|)
    ensures Gathered(w.entry, Sent(from, k, ts, s), AbsorbAll(w, ts, s).entry)
    decreases |ts|
  {
    if ts != [] {
      var front, t := ts[..|ts| - 1], ts[|ts| - 1];
      AbsorbAllGathers(w, from, k, front, s);
      AbsorbGathers(AbsorbAll(w, front, s), t, from, k, s);
      GatheredOn(w.entry, Sent(from, k, front, s), AbsorbAll(w, front, s).entry, [Arrival(from, k, t, s)], AbsorbAll(w, ts, s).entry);
      assert Sent(from, k, ts, s) == Sent(from, k, front, s) + [Arrival(from, k, t, s)];
    }
  }

  ghost function WalkMail(g: Flow, self: Option<Option<Node>>, w: Work, b: nat, k: nat): (m: seq<Arrival>)
    requires WellFormed(g) && Fits(w, |g.code|) && b < |g.code| && k <= |g.code[b]|
    ensures Gathered(w.entry, m, Walk(g, self, w, b, k).0.entry) && AllAlong(g, m)
    decreases k
  {
    if k == 0 then
      AbsorbAllGathers(w, b, 0, g.handlers[b], w.entry[b]);
      Sent(b, 0, g.handlers[b], w.entry[b])
    else
      var before := WalkMail(g, self, w, b, k - 1);
      var (v, s) := Walk(g, self, w, b, k - 1);
      var s' := Transfer(v.facts, self, g.code[b][k - 1], s);
      var v' := v.(facts := Learn(v.facts, self, g.code[b][k - 1], s));
      AbsorbAllGathers(v', b, k, g.handlers[b], s');
      GatheredOn(w.entry, before, v.entry, Sent(b, k, g.handlers[b], s'), Walk(g, self, w, b, k).0.entry);
      before + Sent(b, k, g.handlers[b], s')
  }

  ghost function LeaveMail(g: Flow, w: Work, b: nat, s: State): (m: seq<Arrival>)
    requires WellFormed(g) && Fits(w, |g.code|) && b < |g.code|
    ensures Gathered(w.entry, m, Leave(g, w, b, s).entry) && AllAlong(g, m)
  {
    if s == w.exit[b] && w.visits > |g.code| then []
    else
      var n := |g.code[b]|;
      var w0 := w.(exit := w.exit[b := s]);
      var w1 := AbsorbAll(w0, g.succs[b], s);
      AbsorbAllGathers(w0, b, n, g.succs[b], s);
      AbsorbAllGathers(w1, b, n, g.resumes[b], s);
      GatheredOn(w0.entry, Sent(b, n, g.succs[b], s), w1.entry, Sent(b, n, g.resumes[b], s), AbsorbAll(w1, g.resumes[b], s).entry);
      Sent(b, n, g.succs[b], s) + Sent(b, n, g.resumes[b], s)
  }

  ghost function VisitMail(g: Flow, self: Option<Option<Node>>, w: Work): (m: seq<Arrival>)
    requires WellFormed(g) && Fits(w, |g.code|) && w.queue != [] && w.queue[0] < |g.code|
    ensures Gathered(w.entry, m, Visit(g, self, w).entry) && AllAlong(g, m)
  {
    var b := w.queue[0];
    var w1 := w.(queue := w.queue[1..], visits := w.visits + 1);
    var (v, s) := Walk(g, self, w1, b, |g.code[b]|);
    var walked := WalkMail(g, self, w1, b, |g.code[b]|);
    var left := LeaveMail(g, v, b, s);
    GatheredOn(w.entry, walked, v.entry, left, Leave(g, v, b, s).entry);
    walked + left
  }

  ghost function DrainMail(g: Flow, self: Option<Option<Node>>, start: Facts, w: Work): (m: seq<Arrival>)
    requires Inv(g, self, start, w)
    ensures Gathered(w.entry, m, Drain(g, self, start, w).entry) && AllAlong(g, m)
    decreases Budget(g) - w.visits
  {
    if w.queue == [] || w.visits >= Budget(g) then []
    else
      VisitKeepsInv(g, self, start, w);
      var next := Visit(g, self, w);
      var first := VisitMail(g, self, w);
      var rest := DrainMail(g, self, start, next);
      GatheredOn(w.entry, first, next.entry, rest, Drain(g, self, start, w).entry);
      first + rest
  }

  ghost function FlowMail(g: Flow, f: Fn, facts: Facts): (m: seq<Arrival>)
    requires WellFormed(g)
    ensures Gathered(Blank(|g.code|), m, RunFlow(g, f, facts).entry) && AllAlong(g, m)
  {
    StartIsRight(g, SelfEnv(facts, f), facts);
    DrainMail(g, SelfEnv(facts, f), facts, Start(g, facts))
  }

  /** Of the entry states a function's worklist ends with: a register is known at a block's entry
      exactly when all that arrived there with it agree, and unwritten exactly when nothing did. */
  lemma KnownIffAllAgree(g: Flow, f: Fn, facts: Facts, b: nat, r: Reg)
    requires WellFormed(g) && b < |g.code|
    ensures var s, mail := RunFlow(g, f, facts).entry[b], FlowMail(g, f, facts);
      && AllAlong(g, mail)
      && (r in s <==> Arrives(mail, b, r))
      && forall v :: v != Unknown ==> (Get(s, r) == v <==> AllSay(mail, b, r, v))
  {
    GatheredIff(FlowMail(g, f, facts), b, r);
    assert RunFlow(g, f, facts).entry[b] == Gather(Blank(|g.code|)[b], FlowMail(g, f, facts), b);
  }
}
