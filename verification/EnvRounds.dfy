// The rounds over the whole module (src/cfg/env-graph.ts:441-451): facts only ascend inside a
// finite scope, so the rounds settle with or without the cap.
module EnvRounds {
  import opened CfgTypes
  import opened EnvState
  import opened EnvFlow
  import opened EnvTracker

  // ------------------------------------------------------ the scope of a module

  /** The creation sites, the functions and the slot numbers a module mentions. */
  datatype Scope = Scope(nodes: set<Node>, fns: set<Fn>, slots: set<Slot>)

  predicate InsnIn(insn: EnvInsn, sc: Scope) {
    match insn
    case CreateEnv(_, node, _) => node in sc.nodes
    case MakeClosure(_, _, _, fn) => fn in sc.fns
    case StoreSlot(_, slot, _) => slot in sc.slots
    case _ => true
  }

  ghost predicate FlowIn(g: Flow, sc: Scope) {
    forall b, k :: 0 <= b < |g.code| && 0 <= k < |g.code[b]| ==> InsnIn(g.code[b][k], sc)
  }

  predicate ParentIn(p: Option<Node>, sc: Scope) {
    p.Some? ==> p.value in sc.nodes
  }

  predicate ValueIn(v: EnvValue, sc: Scope) {
    match v
    case Env(n) => n in sc.nodes
    case Closure(_, env) => ParentIn(env, sc)
    case _ => true
  }

  ghost predicate StateIn(s: State, sc: Scope) {
    forall r {:trigger s[r]} :: r in s ==> ValueIn(s[r], sc)
  }

  ghost predicate FactsIn(f: Facts, sc: Scope) {
    && f.parent.Keys <= sc.nodes && (forall n {:trigger f.parent[n]} :: n in f.parent ==> ParentIn(f.parent[n], sc))
    && f.closureEnv.Keys <= sc.fns && (forall n {:trigger f.closureEnv[n]} :: n in f.closureEnv ==> ParentIn(f.closureEnv[n], sc))
    && f.noEnv <= sc.fns && f.conflict <= sc.fns
    && forall k {:trigger f.slotEnv[k]} :: k in f.slotEnv ==>
         k.0 in sc.nodes && k.1 in sc.slots && (f.slotEnv[k].Holds? ==> f.slotEnv[k].node in sc.nodes)
  }

  ghost predicate SelfIn(self: Option<Option<Node>>, sc: Scope) {
    self.Some? ==> ParentIn(self.value, sc)
  }

  lemma {:induction false} WalkUpIn(f: Facts, start: Option<Node>, levels: nat, sc: Scope)
    requires FactsIn(f, sc) && ParentIn(start, sc)
    ensures ValueIn(WalkUp(f, start, levels), sc)
    decreases levels
  {
    if start.Some? && levels > 0 {
      WalkUpIn(f, if start.value in f.parent then f.parent[start.value] else None, levels - 1, sc);
    }
  }

  lemma {:induction false} ClobberIn(s: State, rs: seq<Reg>, sc: Scope)
    requires StateIn(s, sc)
    ensures StateIn(Clobber(s, rs), sc)
    decreases |rs|
  {
    if rs != [] { ClobberIn(s, rs[..|rs| - 1], sc); }
  }

  lemma TransferIn(f: Facts, self: Option<Option<Node>>, insn: EnvInsn, s: State, sc: Scope)
    requires FactsIn(f, sc) && SelfIn(self, sc) && InsnIn(insn, sc) && StateIn(s, sc)
    ensures StateIn(Transfer(f, self, insn, s), sc)
  {
    match insn
    case GetOwnEnv(_, levels) => WalkUpIn(f, Flat(self), levels, sc);
    case GetEnvAbove(_, src, levels) =>
      if Get(s, src).Env? { WalkUpIn(f, Some(Get(s, src).node), levels, sc); }
    case MakeClosure(_, clobbered, _, _) => ClobberIn(s, clobbered, sc);
    case Other(writes) => ClobberIn(s, writes, sc);
    case LoadSlot(_, env, slot) =>
    case _ =>
  }

  lemma LearnIn(f: Facts, self: Option<Option<Node>>, insn: EnvInsn, s: State, sc: Scope)
    requires FactsIn(f, sc) && SelfIn(self, sc) && InsnIn(insn, sc) && StateIn(s, sc)
    ensures FactsIn(Learn(f, self, insn, s), sc)
  {
  }

  ghost predicate EntriesIn(entry: seq<State>, sc: Scope) {
    forall b {:trigger entry[b]} :: 0 <= b < |entry| ==> StateIn(entry[b], sc)
  }

  lemma {:induction false} AbsorbIn(w: Work, ts: seq<nat>, s: State, sc: Scope)
    requires Within(ts, |w.entry|) && EntriesIn(w.entry, sc) && StateIn(s, sc)
    ensures EntriesIn(AbsorbAll(w, ts, s).entry, sc)
    decreases |ts|
  {
    if ts != [] {
      AbsorbIn(w, ts[..|ts| - 1], s, sc);
      var v := AbsorbAll(w, ts[..|ts| - 1], s);
      var t := ts[|ts| - 1];
      assert StateIn(v.entry[t], sc);
      assert StateIn(Merge(v.entry[t], s), sc);
    }
  }

  lemma {:induction false} WalkIn(g: Flow, self: Option<Option<Node>>, w: Work, b: nat, k: nat, sc: Scope)
    requires WellFormed(g) && Fits(w, |g.code|) && b < |g.code| && k <= |g.code[b]|
    requires FlowIn(g, sc) && SelfIn(self, sc) && FactsIn(w.facts, sc) && EntriesIn(w.entry, sc)
    ensures var (v, s) := Walk(g, self, w, b, k); FactsIn(v.facts, sc) && EntriesIn(v.entry, sc) && StateIn(s, sc)
    decreases k
  {
    if k == 0 {
      AbsorbIn(w, g.handlers[b], w.entry[b], sc);
    } else {
      WalkIn(g, self, w, b, k - 1, sc);
      var (v, s) := Walk(g, self, w, b, k - 1);
      var insn := g.code[b][k - 1];
      assert InsnIn(insn, sc);
      TransferIn(v.facts, self, insn, s, sc);
      LearnIn(v.facts, self, insn, s, sc);
      AbsorbIn(v.(facts := Learn(v.facts, self, insn, s)), g.handlers[b], Transfer(v.facts, self, insn, s), sc);
    }
  }

  lemma VisitIn(g: Flow, self: Option<Option<Node>>, w: Work, sc: Scope)
    requires WellFormed(g) && Fits(w, |g.code|) && w.queue != [] && w.queue[0] < |g.code|
    requires FlowIn(g, sc) && SelfIn(self, sc) && FactsIn(w.facts, sc) && EntriesIn(w.entry, sc)
    ensures FactsIn(Visit(g, self, w).facts, sc) && EntriesIn(Visit(g, self, w).entry, sc)
  {
    var b := w.queue[0];
    var w1 := w.(queue := w.queue[1..], visits := w.visits + 1);
    WalkIn(g, self, w1, b, |g.code[b]|, sc);
    var (v, s) := Walk(g, self, w1, b, |g.code[b]|);
    if !(s == v.exit[b] && v.visits > |g.code|) {
      var v0 := v.(exit := v.exit[b := s]);
      AbsorbIn(v0, g.succs[b], s, sc);
      AbsorbIn(AbsorbAll(v0, g.succs[b], s), g.resumes[b], s, sc);
    }
  }

  lemma {:induction false} DrainIn(g: Flow, self: Option<Option<Node>>, start: Facts, w: Work, sc: Scope)
    requires Inv(g, self, start, w)
    requires FlowIn(g, sc) && SelfIn(self, sc) && FactsIn(w.facts, sc) && EntriesIn(w.entry, sc)
    ensures FactsIn(Drain(g, self, start, w).facts, sc)
    decreases Budget(g) - w.visits
  {
    if w.queue != [] && w.visits < Budget(g) {
      VisitKeepsInv(g, self, start, w);
      VisitIn(g, self, w, sc);
      DrainIn(g, self, start, Visit(g, self, w), sc);
    }
  }

  /** Whatever a function's run learns stays inside the module's scope. */
  lemma RunIn(g: Flow, f: Fn, facts: Facts, sc: Scope)
    requires WellFormed(g) && FlowIn(g, sc) && FactsIn(facts, sc)
    ensures FactsIn(RunFlow(g, f, facts).facts, sc)
  {
    StartIsRight(g, SelfEnv(facts, f), facts);
    DrainIn(g, SelfEnv(facts, f), facts, Start(g, facts), sc);
  }

  // --------------------------------------------------------------- the measure

  ghost function Conflicted(f: Facts): set<(Node, Slot)> {
    set k | k in f.slotEnv && f.slotEnv[k] == Conflict
  }

  /** How much is known. */
  ghost function Measure(f: Facts): nat {
    |f.parent.Keys| + |f.closureEnv.Keys| + |f.noEnv| + |f.conflict| + |f.slotEnv.Keys| + |Conflicted(f)|
  }

  lemma {:induction false} SubsetSmaller<T>(a: set<T>, b: set<T>)
    requires a <= b
    ensures |a| <= |b| && (|a| == |b| ==> a == b)
    decreases |a|
  {
    if a == {} {
    } else {
      var x :| x in a;
      SubsetSmaller(a - {x}, b - {x});
      assert |a| == |a - {x}| + 1 && |b| == |b - {x}| + 1;
      if |a| == |b| { assert a == (a - {x}) + {x} == (b - {x}) + {x} == b; }
    }
  }

  /** Knowing more is measuring more, and strictly so when something is new. */
  lemma MeasureGrows(a: Facts, b: Facts)
    requires FactsLe(a, b)
    ensures Measure(a) <= Measure(b) && (Measure(a) == Measure(b) <==> a == b)
  {
    SubsetSmaller(a.parent.Keys, b.parent.Keys);
    SubsetSmaller(a.closureEnv.Keys, b.closureEnv.Keys);
    SubsetSmaller(a.noEnv, b.noEnv);
    SubsetSmaller(a.conflict, b.conflict);
    SubsetSmaller(a.slotEnv.Keys, b.slotEnv.Keys);
    assert Conflicted(a) <= Conflicted(b) by {
      forall k | k in Conflicted(a) ensures k in Conflicted(b) { assert k in a.slotEnv; }
    }
    SubsetSmaller(Conflicted(a), Conflicted(b));
    if Measure(a) == Measure(b) { SameMeasureSameFacts(a, b); }
  }

  lemma SameMeasureSameFacts(a: Facts, b: Facts)
    requires FactsLe(a, b) && a.parent.Keys == b.parent.Keys && a.closureEnv.Keys == b.closureEnv.Keys
    requires a.noEnv == b.noEnv && a.conflict == b.conflict && a.slotEnv.Keys == b.slotEnv.Keys && Conflicted(a) == Conflicted(b)
    ensures a == b
  {
    assert forall n :: n in a.parent ==> n in b.parent;
    assert a.parent == b.parent;
    assert a.closureEnv == b.closureEnv;
    forall k | k in a.slotEnv ensures a.slotEnv[k] == b.slotEnv[k] {
      assert HeldLe(a.slotEnv[k], b.slotEnv[k]);
      assert a.slotEnv[k] == Conflict <==> k in Conflicted(a);
      assert b.slotEnv[k] == Conflict <==> k in Conflicted(b);
    }
    assert a.slotEnv == b.slotEnv;
  }

  ghost function Pairs(ns: set<Node>, ss: set<Slot>): set<(Node, Slot)> {
    set n, s | n in ns && s in ss :: (n, s)
  }

  ghost function Row(n: Node, ss: set<Slot>): set<(Node, Slot)> {
    set s | s in ss :: (n, s)
  }

  lemma {:induction false} PairsSize(ns: set<Node>, ss: set<Slot>)
    ensures |Pairs(ns, ss)| == |ns| * |ss|
    decreases |ns|
  {
    if ns == {} {
      assert Pairs(ns, ss) == {};
      assert |ns| * |ss| == 0;
    } else {
      var n :| n in ns;
      PairsSize(ns - {n}, ss);
      RowSize(n, ss);
      PairsSplit(ns, n, ss);
      assert |ns| == |ns - {n}| + 1;
      assert |ns| * |ss| == |ns - {n}| * |ss| + |ss|;
    }
  }

  lemma PairsSplit(ns: set<Node>, n: Node, ss: set<Slot>)
    requires n in ns
    ensures |Pairs(ns, ss)| == |Pairs(ns - {n}, ss)| + |Row(n, ss)|
  {
    assert Pairs(ns, ss) == Pairs(ns - {n}, ss) + Row(n, ss);
    assert Pairs(ns - {n}, ss) * Row(n, ss) == {};
  }

  lemma {:induction false} RowSize(n: Node, ss: set<Slot>)
    ensures |Row(n, ss)| == |ss|
    decreases |ss|
  {
    if ss == {} {
      assert Row(n, ss) == {};
    } else {
      var x :| x in ss;
      RowSize(n, ss - {x});
      assert Row(n, ss) == Row(n, ss - {x}) + {(n, x)};
      assert (n, x) !in Row(n, ss - {x});
      assert |ss| == |ss - {x}| + 1;
    }
  }

  function Bound(sc: Scope): nat {
    |sc.nodes| + 3 * |sc.fns| + 2 * (|sc.nodes| * |sc.slots|)
  }

  lemma MeasureBounded(f: Facts, sc: Scope)
    requires FactsIn(f, sc)
    ensures Measure(f) <= Bound(sc)
  {
    SubsetSmaller(f.parent.Keys, sc.nodes);
    SubsetSmaller(f.closureEnv.Keys, sc.fns);
    SubsetSmaller(f.noEnv, sc.fns);
    SubsetSmaller(f.conflict, sc.fns);
    var all := Pairs(sc.nodes, sc.slots);
    PairsSize(sc.nodes, sc.slots);
    assert f.slotEnv.Keys <= all by {
      forall k | k in f.slotEnv ensures k in all { assert f.slotEnv[k] == f.slotEnv[k] && k == (k.0, k.1); }
    }
    assert Conflicted(f) <= f.slotEnv.Keys;
    SubsetSmaller(f.slotEnv.Keys, all);
    SubsetSmaller(Conflicted(f), f.slotEnv.Keys);
  }

  // ----------------------------------------------------------------- the rounds

  ghost predicate ModuleFormed(flows: seq<Flow>) {
    forall f :: 0 <= f < |flows| ==> WellFormed(flows[f])
  }

  ghost predicate ModuleIn(flows: seq<Flow>, sc: Scope) {
    forall f :: 0 <= f < |flows| ==> FlowIn(flows[f], sc)
  }

  /** No function learns anything any more. */
  ghost predicate Stable(flows: seq<Flow>, facts: Facts, n: nat)
    requires ModuleFormed(flows) && n <= |flows|
  {
    forall f: nat {:trigger flows[f]} :: f < n ==> RunFlow(flows[f], f, facts).facts == facts
  }

  ghost predicate Drained(flows: seq<Flow>, facts: Facts)
    requires ModuleFormed(flows)
  {
    forall f: nat {:trigger flows[f]} :: f < |flows| ==> RunFlow(flows[f], f, facts).queue == []
  }

  /** The facts after the first n functions of a round. */
  function AfterRound(flows: seq<Flow>, n: nat, facts: Facts): Facts
    requires ModuleFormed(flows) && n <= |flows|
  {
    if n == 0 then facts else RunFlow(flows[n - 1], n - 1, AfterRound(flows, n - 1, facts)).facts
  }

  /** The facts after the rounds: until one learns nothing, or `cap` of them. */
  function AfterRounds(flows: seq<Flow>, cap: nat, facts: Facts): Facts
    requires ModuleFormed(flows)
    decreases cap
  {
    if cap == 0 then facts
    else
      var next := AfterRound(flows, |flows|, facts);
      if next == facts then facts else AfterRounds(flows, cap - 1, next)
  }

  method Round(t: Tracker, flows: seq<Flow>, ghost sc: Scope) returns (learned: bool)
    requires ModuleFormed(flows) && ModuleIn(flows, sc) && FactsIn(t.facts, sc)
    modifies t
    ensures FactsIn(t.facts, sc) && FactsLe(old(t.facts), t.facts) && (learned <==> t.facts != old(t.facts))
    ensures t.facts == AfterRound(flows, |flows|, old(t.facts))
    ensures !learned ==> Stable(flows, t.facts, |flows|)
  {
    learned := false;
    ghost var start := t.facts;
    FactsLeTransitive(start, start, start);
    for f := 0 to |flows|
      invariant RoundSoFar(flows, sc, start, f, t.facts, learned)
    {
      learned := RunNext(t, flows, f, sc, start, learned);
    }
  }

  ghost predicate RoundSoFar(flows: seq<Flow>, sc: Scope, start: Facts, f: nat, facts: Facts, learned: bool) {
    && ModuleFormed(flows) && f <= |flows| && facts == AfterRound(flows, f, start) && FactsIn(facts, sc) && FactsLe(start, facts) && (learned <==> facts != start)
    && (!learned ==> Stable(flows, start, f))
  }

  lemma RoundStep(flows: seq<Flow>, sc: Scope, start: Facts, f: nat, before: Facts, after: Facts, learned: bool, more: bool)
    requires RoundSoFar(flows, sc, start, f, before, learned) && f < |flows|
    requires FactsIn(after, sc) && FactsLe(before, after) && (more <==> after != before)
    requires after == RunFlow(flows[f], f, before).facts
    ensures RoundSoFar(flows, sc, start, f + 1, after, learned || more)
  {
    MovedOn(start, before, after);
  }

  method RunOne(t: Tracker, flows: seq<Flow>, f: Fn, ghost sc: Scope) returns (learned: bool)
    requires ModuleFormed(flows) && ModuleIn(flows, sc) && FactsIn(t.facts, sc) && f < |flows|
    modifies t
    ensures FactsIn(t.facts, sc) && FactsLe(old(t.facts), t.facts) && (learned <==> t.facts != old(t.facts))
    ensures t.facts == RunFlow(flows[f], f, old(t.facts)).facts
  {
    RunIn(flows[f], f, t.facts, sc);
    var drained := t.RunFunction(flows[f], f);
    assert t.facts == t.View().facts;
    learned := t.learned;
  }

  method RunNext(t: Tracker, flows: seq<Flow>, f: Fn, ghost sc: Scope, ghost start: Facts, before: bool) returns (learned: bool)
    requires ModuleFormed(flows) && ModuleIn(flows, sc) && f < |flows| && RoundSoFar(flows, sc, start, f, t.facts, before)
    modifies t
    ensures RoundSoFar(flows, sc, start, f + 1, t.facts, learned)
  {
    ghost var facts := t.facts;
    var more := RunOne(t, flows, f, sc);
    RoundStep(flows, sc, start, f, facts, t.facts, before, more);
    learned := before || more;
  }

  /** At most `cap` rounds. A round that learns measures more, so with a cap above the bound
      the rounds always settle: the cap is not what makes the loop end. */
  method Rounds(t: Tracker, flows: seq<Flow>, cap: nat, ghost sc: Scope) returns (settled: bool)
    requires ModuleFormed(flows) && ModuleIn(flows, sc) && FactsIn(t.facts, sc)
    modifies t
    ensures t.facts == AfterRounds(flows, cap, old(t.facts))
    ensures FactsIn(t.facts, sc) && FactsLe(old(t.facts), t.facts)
    ensures settled ==> Stable(flows, t.facts, |flows|)
    ensures !settled ==> Measure(t.facts) >= Measure(old(t.facts)) + cap
    ensures cap > Bound(sc) - Measure(old(t.facts)) ==> settled
  {
    settled := false;
    ghost var start := t.facts;
    FactsLeTransitive(start, start, start);
    var round := 0;
    while round < cap
      invariant RoundsSoFar(flows, sc, start, cap, round, t.facts)
    {
      ghost var before := t.facts;
      var learned := Round(t, flows, sc);
      RoundsStep(flows, sc, start, cap, round, before, t.facts, learned);
      if !learned {
        settled := true;
        break;
      }
      round := round + 1;
    }
    RoundsDone(flows, sc, start, cap, round, t.facts);
  }

  ghost predicate RoundsSoFar(flows: seq<Flow>, sc: Scope, start: Facts, cap: nat, round: nat, facts: Facts) {
    && ModuleFormed(flows) && round <= cap && FactsIn(facts, sc) && FactsLe(start, facts) && Measure(facts) >= Measure(start) + round
    && AfterRounds(flows, cap - round, facts) == AfterRounds(flows, cap, start)
  }

  lemma RoundsStep(flows: seq<Flow>, sc: Scope, start: Facts, cap: nat, round: nat, before: Facts, after: Facts, learned: bool)
    requires RoundsSoFar(flows, sc, start, cap, round, before) && round < cap
    requires FactsIn(after, sc) && FactsLe(before, after) && (learned <==> after != before) && after == AfterRound(flows, |flows|, before)
    ensures if learned then RoundsSoFar(flows, sc, start, cap, round + 1, after)
            else RoundsSoFar(flows, sc, start, cap, round, after) && after == AfterRounds(flows, cap, start)
  {
    FactsLeTransitive(start, before, after);
    MeasureGrows(before, after);
  }

  lemma RoundsDone(flows: seq<Flow>, sc: Scope, start: Facts, cap: nat, round: nat, facts: Facts)
    requires RoundsSoFar(flows, sc, start, cap, round, facts)
    ensures round == cap ==> facts == AfterRounds(flows, cap, start)
    ensures Measure(facts) <= Bound(sc)
  {
    MeasureBounded(facts, sc);
  }
}
