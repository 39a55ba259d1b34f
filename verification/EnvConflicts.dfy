// What the rounds of the environment analysis record, by what the sites supplied: a function is
// in conflict exactly when its creation sites supplied different environments, or some an
// environment and some none; and on settled tables what is recorded is what every site supplies.
module EnvConflicts {
  import opened CfgTypes
  import opened Invariants
  import opened Reach
  import opened EnvState
  import opened EnvFlow
  import opened EnvTracker
  import opened EnvRounds
  import opened EnvCollect

  // -------------------------------------------------------- everything that was looked at

  /** An instruction the worklist looked at, and the register state it had then. */
  datatype Look = Look(fn: Fn, insn: EnvInsn, self: Option<Option<Node>>, state: State)

  ghost predicate LearnAt(trace: seq<Facts>, looks: seq<Look>, i: nat)
    requires i < |looks| && |trace| == |looks| + 1
  {
    trace[i + 1] == Learn(trace[i], looks[i].self, looks[i].insn, looks[i].state)
  }

  ghost predicate IsTrace(facts: Facts, looks: seq<Look>, now: Facts, trace: seq<Facts>) {
    && |trace| == |looks| + 1 && trace[0] == facts && trace[|looks|] == now
    && forall i: nat {:trigger LearnAt(trace, looks, i)} :: i < |looks| ==> LearnAt(trace, looks, i)
  }

  /** Learning from one look after the other leads from `facts` to `now`. */
  ghost predicate Told(facts: Facts, looks: seq<Look>, now: Facts) {
    exists trace :: IsTrace(facts, looks, now, trace)
  }

  lemma ToldNothing(facts: Facts)
    ensures Told(facts, [], facts)
  {
    assert IsTrace(facts, [], facts, [facts]);
  }

  lemma ToldOne(facts: Facts, x: Look)
    ensures Told(facts, [x], Learn(facts, x.self, x.insn, x.state))
  {
    var now := Learn(facts, x.self, x.insn, x.state);
    assert LearnAt([facts, now], [x], 0);
    assert IsTrace(facts, [x], now, [facts, now]);
  }

  lemma ToldJoin(facts: Facts, a: seq<Look>, mid: Facts, b: seq<Look>, now: Facts)
    requires Told(facts, a, mid) && Told(mid, b, now)
    ensures Told(facts, a + b, now)
  {
    var s :| IsTrace(facts, a, mid, s);
    var t :| IsTrace(mid, b, now, t);
    var trace := s + t[1..];
    forall i: nat | i < |a + b| ensures LearnAt(trace, a + b, i) {
      if i < |a| { assert LearnAt(s, a, i); } else { assert LearnAt(t, b, i - |a|); }
    }
    assert IsTrace(facts, a + b, now, trace);
  }

  lemma ToldLast(facts: Facts, looks: seq<Look>, now: Facts) returns (mid: Facts)
    requires Told(facts, looks, now) && looks != []
    ensures Told(facts, looks[..|looks| - 1], mid)
    ensures var last := looks[|looks| - 1]; now == Learn(mid, last.self, last.insn, last.state)
  {
    var t :| IsTrace(facts, looks, now, t);
    var n := |looks| - 1;
    mid := t[n];
    assert LearnAt(t, looks, n);
    var before, shorter := looks[..n], t[..n + 1];
    forall i: nat | i < n ensures LearnAt(shorter, before, i) { assert LearnAt(t, looks, i); }
    assert IsTrace(facts, before, mid, shorter);
  }

  ghost function WalkLooks(g: Flow, f: Fn, self: Option<Option<Node>>, w: Work, b: nat, k: nat): seq<Look>
    requires WellFormed(g) && EnvFlow.Fits(w, |g.code|) && b < |g.code| && k <= |g.code[b]|
    decreases k
  {
    if k == 0 then [] else WalkLooks(g, f, self, w, b, k - 1) + [Look(f, g.code[b][k - 1], self, Walk(g, self, w, b, k - 1).1)]
  }

  lemma {:induction false} WalkTold(g: Flow, f: Fn, self: Option<Option<Node>>, w: Work, b: nat, k: nat)
    requires WellFormed(g) && EnvFlow.Fits(w, |g.code|) && b < |g.code| && k <= |g.code[b]|
    ensures Told(w.facts, WalkLooks(g, f, self, w, b, k), Walk(g, self, w, b, k).0.facts)
    ensures AllFrom(g, f, WalkLooks(g, f, self, w, b, k))
    decreases k
  {
    if k > 0 {
      WalkTold(g, f, self, w, b, k - 1);
      var (v, s) := Walk(g, self, w, b, k - 1);
      var last := Look(f, g.code[b][k - 1], self, s);
      assert IsFrom(g, f, last);
      ToldOne(v.facts, last);
      ToldJoin(w.facts, WalkLooks(g, f, self, w, b, k - 1), v.facts, [last], Learn(v.facts, self, g.code[b][k - 1], s));
    } else {
      ToldNothing(w.facts);
    }
  }

  /** The look is at an instruction of function f. */
  ghost predicate IsFrom(g: Flow, f: Fn, x: Look) {
    x.fn == f && exists b: nat, k: nat :: b < |g.code| && k < |g.code[b]| && g.code[b][k] == x.insn
  }

  ghost predicate AllFrom(g: Flow, f: Fn, looks: seq<Look>) {
    forall i {:trigger looks[i]} :: 0 <= i < |looks| ==> IsFrom(g, f, looks[i])
  }

  ghost function DrainLooks(g: Flow, f: Fn, self: Option<Option<Node>>, start: Facts, w: Work): seq<Look>
    requires Inv(g, self, start, w)
    decreases Budget(g) - w.visits
  {
    if w.queue == [] || w.visits >= Budget(g) then []
    else
      VisitKeepsInv(g, self, start, w);
      VisitLooks(g, f, self, w) + DrainLooks(g, f, self, start, Visit(g, self, w))
  }

  ghost function VisitLooks(g: Flow, f: Fn, self: Option<Option<Node>>, w: Work): seq<Look>
    requires WellFormed(g) && EnvFlow.Fits(w, |g.code|) && w.queue != [] && w.queue[0] < |g.code|
  {
    WalkLooks(g, f, self, w.(queue := w.queue[1..], visits := w.visits + 1), w.queue[0], |g.code[w.queue[0]]|)
  }

  lemma VisitTold(g: Flow, f: Fn, self: Option<Option<Node>>, w: Work)
    requires WellFormed(g) && EnvFlow.Fits(w, |g.code|) && w.queue != [] && w.queue[0] < |g.code|
    ensures Told(w.facts, VisitLooks(g, f, self, w), Visit(g, self, w).facts) && AllFrom(g, f, VisitLooks(g, f, self, w))
  {
    WalkTold(g, f, self, w.(queue := w.queue[1..], visits := w.visits + 1), w.queue[0], |g.code[w.queue[0]]|);
  }

  lemma {:induction false} DrainTold(g: Flow, f: Fn, self: Option<Option<Node>>, start: Facts, w: Work)
    requires Inv(g, self, start, w)
    ensures Told(w.facts, DrainLooks(g, f, self, start, w), Drain(g, self, start, w).facts) && AllFrom(g, f, DrainLooks(g, f, self, start, w))
    decreases Budget(g) - w.visits
  {
    if w.queue != [] && w.visits < Budget(g) {
      VisitKeepsInv(g, self, start, w);
      VisitTold(g, f, self, w);
      DrainTold(g, f, self, start, Visit(g, self, w));
      var next := Visit(g, self, w);
      ToldJoin(w.facts, VisitLooks(g, f, self, w), next.facts, DrainLooks(g, f, self, start, next), Drain(g, self, start, next).facts);
    } else {
      ToldNothing(w.facts);
    }
  }

  ghost function FlowLooks(g: Flow, f: Fn, facts: Facts): seq<Look>
    requires WellFormed(g)
  {
    StartIsRight(g, SelfEnv(facts, f), facts);
    DrainLooks(g, f, SelfEnv(facts, f), facts, Start(g, facts))
  }

  lemma FlowTold(g: Flow, f: Fn, facts: Facts)
    requires WellFormed(g)
    ensures Told(facts, FlowLooks(g, f, facts), RunFlow(g, f, facts).facts) && AllFrom(g, f, FlowLooks(g, f, facts))
  {
    StartIsRight(g, SelfEnv(facts, f), facts);
    DrainTold(g, f, SelfEnv(facts, f), facts, Start(g, facts));
  }

  ghost predicate InModule(flows: seq<Flow>, looks: seq<Look>) {
    forall i {:trigger looks[i]} :: 0 <= i < |looks| ==> looks[i].fn < |flows| && IsFrom(flows[looks[i].fn], looks[i].fn, looks[i])
  }

  /** The facts `now` were told to `facts` by looks of the module. */
  ghost predicate ToldTo(flows: seq<Flow>, facts: Facts, looks: seq<Look>, now: Facts) {
    Told(facts, looks, now) && InModule(flows, looks)
  }

  lemma ToldOn(flows: seq<Flow>, facts: Facts, a: seq<Look>, mid: Facts, b: seq<Look>, now: Facts)
    requires ToldTo(flows, facts, a, mid) && ToldTo(flows, mid, b, now)
    ensures ToldTo(flows, facts, a + b, now)
  {
    ToldJoin(facts, a, mid, b, now);
    forall i | 0 <= i < |a + b| ensures (a + b)[i].fn < |flows| && IsFrom(flows[(a + b)[i].fn], (a + b)[i].fn, (a + b)[i]) {
      assert (a + b)[i] == if i < |a| then a[i] else b[i - |a|];
    }
  }

  /** What the worklist of function f looks at, and the facts it ends with. */
  ghost function FlowRun(flows: seq<Flow>, f: Fn, facts: Facts): (r: (seq<Look>, Facts))
    requires ModuleFormed(flows) && f < |flows|
    ensures r == (FlowLooks(flows[f], f, facts), RunFlow(flows[f], f, facts).facts) && ToldTo(flows, facts, r.0, r.1)
  {
    FlowToldTo(flows, f, facts);
    (FlowLooks(flows[f], f, facts), RunFlow(flows[f], f, facts).facts)
  }

  lemma FlowToldTo(flows: seq<Flow>, f: Fn, facts: Facts)
    requires ModuleFormed(flows) && f < |flows|
    ensures ToldTo(flows, facts, FlowLooks(flows[f], f, facts), RunFlow(flows[f], f, facts).facts)
  {
    FlowTold(flows[f], f, facts);
    var looks := FlowLooks(flows[f], f, facts);
    forall i | 0 <= i < |looks| ensures looks[i].fn < |flows| && IsFrom(flows[looks[i].fn], looks[i].fn, looks[i]) {
      assert IsFrom(flows[f], f, looks[i]);
    }
  }

  /** ... the first n functions of a round, one after the other. */
  ghost function RoundRun(flows: seq<Flow>, n: nat, facts: Facts): (r: (seq<Look>, Facts))
    requires ModuleFormed(flows) && n <= |flows|
    ensures r.1 == AfterRound(flows, n, facts) && ToldTo(flows, facts, r.0, r.1)
  {
    if n == 0 then ToldNothing(facts); ([], facts)
    else
      var before := RoundRun(flows, n - 1, facts);
      var more := FlowRun(flows, n - 1, before.1);
      ToldOn(flows, facts, before.0, before.1, more.0, more.1);
      (before.0 + more.0, more.1)
  }

  /** ... and all the rounds. */
  ghost function RoundsRun(flows: seq<Flow>, cap: nat, facts: Facts): (r: (seq<Look>, Facts))
    requires ModuleFormed(flows)
    ensures r.1 == AfterRounds(flows, cap, facts) && ToldTo(flows, facts, r.0, r.1)
    decreases cap
  {
    if cap == 0 then ToldNothing(facts); ([], facts)
    else
      var first := RoundRun(flows, |flows|, facts);
      if first.1 == facts then first
      else
        var rest := RoundsRun(flows, cap - 1, first.1);
        ToldOn(flows, facts, first.0, first.1, rest.0, rest.1);
        (first.0 + rest.0, rest.1)
  }

  // --------------------------------------------------------------- what was supplied

  ghost predicate Creates(x: Look, fn: Fn) {
    x.insn.MakeClosure? && x.insn.fn == fn
  }

  /** One of the looks saw fn created with an environment made at n. */
  ghost predicate Supplied(looks: seq<Look>, fn: Fn, n: Node) {
    exists i {:trigger looks[i]} :: 0 <= i < |looks| && Creates(looks[i], fn) && Get(looks[i].state, looks[i].insn.env) == Env(n)
  }

  /** ... and one saw it created without. */
  ghost predicate SuppliedNone(looks: seq<Look>, fn: Fn) {
    exists i {:trigger looks[i]} :: 0 <= i < |looks| && Creates(looks[i], fn) && Get(looks[i].state, looks[i].insn.env) == NoEnv
  }

  lemma SuppliedNext(looks: seq<Look>, fn: Fn, n: Node)
    requires looks != []
    ensures var last := looks[|looks| - 1];
      Supplied(looks, fn, n) <==> Supplied(looks[..|looks| - 1], fn, n) || (Creates(last, fn) && Get(last.state, last.insn.env) == Env(n))
  {
    var before := looks[..|looks| - 1];
    if Supplied(looks, fn, n) {
      var i :| 0 <= i < |looks| && Creates(looks[i], fn) && Get(looks[i].state, looks[i].insn.env) == Env(n);
      if i < |before| { assert before[i] == looks[i]; }
    }
    if Supplied(before, fn, n) {
      var i :| 0 <= i < |before| && Creates(before[i], fn) && Get(before[i].state, before[i].insn.env) == Env(n);
      assert looks[i] == before[i];
    }
  }

  lemma NoneNext(looks: seq<Look>, fn: Fn)
    requires looks != []
    ensures var last := looks[|looks| - 1];
      SuppliedNone(looks, fn) <==> SuppliedNone(looks[..|looks| - 1], fn) || (Creates(last, fn) && Get(last.state, last.insn.env) == NoEnv)
  {
    var before := looks[..|looks| - 1];
    if SuppliedNone(looks, fn) {
      var i :| 0 <= i < |looks| && Creates(looks[i], fn) && Get(looks[i].state, looks[i].insn.env) == NoEnv;
      if i < |before| { assert before[i] == looks[i]; }
    }
    if SuppliedNone(before, fn) {
      var i :| 0 <= i < |before| && Creates(before[i], fn) && Get(before[i].state, before[i].insn.env) == NoEnv;
      assert looks[i] == before[i];
    }
  }

  /** Two different environments. */
  ghost predicate SuppliedTwo(looks: seq<Look>, fn: Fn) {
    exists n: Node, m: Node {:trigger Supplied(looks, fn, n), Supplied(looks, fn, m)} :: n != m && Supplied(looks, fn, n) && Supplied(looks, fn, m)
  }

  ghost predicate SuppliedSome(looks: seq<Look>, fn: Fn) {
    exists n: Node :: Supplied(looks, fn, n)
  }

  /** What was recorded beforehand is contradicted. */
  ghost predicate Contradicted(facts: Facts, looks: seq<Look>, fn: Fn) {
    fn in facts.closureEnv && exists n: Node :: Supplied(looks, fn, n) && facts.closureEnv[fn] != Some(n)
  }

  /** An environment is recorded exactly when one was supplied, and it is one of those. */
  lemma {:induction false} EnvTold(facts: Facts, looks: seq<Look>, t: Facts, fn: Fn)
    requires Told(facts, looks, t)
    ensures
      if fn in facts.closureEnv then fn in t.closureEnv && t.closureEnv[fn] == facts.closureEnv[fn]
      else (fn in t.closureEnv <==> SuppliedSome(looks, fn)) && (fn in t.closureEnv ==> t.closureEnv[fn].Some? && Supplied(looks, fn, t.closureEnv[fn].value))
    decreases |looks|
  {
    if looks != [] {
      var before, last := looks[..|looks| - 1], looks[|looks| - 1];
      var mid := ToldLast(facts, looks, t);
      EnvTold(facts, before, mid, fn);
      forall n: Node ensures Supplied(looks, fn, n) <==> Supplied(before, fn, n) || (Creates(last, fn) && Get(last.state, last.insn.env) == Env(n)) {
        SuppliedNext(looks, fn, n);
      }
      if Creates(last, fn) && Get(last.state, last.insn.env).Env? { assert Supplied(looks, fn, Get(last.state, last.insn.env).node); }
    }
  }

  lemma {:induction false} NoneTold(facts: Facts, looks: seq<Look>, t: Facts, fn: Fn)
    requires Told(facts, looks, t)
    ensures fn in t.noEnv <==> fn in facts.noEnv || SuppliedNone(looks, fn)
    decreases |looks|
  {
    if looks != [] {
      var mid := ToldLast(facts, looks, t);
      NoneTold(facts, looks[..|looks| - 1], mid, fn);
      NoneNext(looks, fn);
    }
  }

  /** A function enters the conflicts exactly when two environments were supplied for it, or one
      other than what was recorded beforehand. */
  lemma {:induction false} ConflictTold(facts: Facts, looks: seq<Look>, t: Facts, fn: Fn)
    requires Told(facts, looks, t)
    ensures fn in t.conflict <==> fn in facts.conflict || SuppliedTwo(looks, fn) || Contradicted(facts, looks, fn)
    decreases |looks|
  {
    if looks != [] {
      var mid := ToldLast(facts, looks, t);
      ConflictTold(facts, looks[..|looks| - 1], mid, fn);
      ConflictNext(facts, looks, mid, t, fn);
    }
  }

  lemma ConflictNext(facts: Facts, looks: seq<Look>, mid: Facts, t: Facts, fn: Fn)
    requires looks != [] && Told(facts, looks[..|looks| - 1], mid)
    requires var last := looks[|looks| - 1]; t == Learn(mid, last.self, last.insn, last.state)
    requires var before := looks[..|looks| - 1];
      fn in mid.conflict <==> fn in facts.conflict || SuppliedTwo(before, fn) || Contradicted(facts, before, fn)
    ensures fn in t.conflict <==> fn in facts.conflict || SuppliedTwo(looks, fn) || Contradicted(facts, looks, fn)
  {
    var before, last := looks[..|looks| - 1], looks[|looks| - 1];
    EnvTold(facts, before, mid, fn);
    forall n: Node ensures Supplied(looks, fn, n) <==> Supplied(before, fn, n) || (Creates(last, fn) && Get(last.state, last.insn.env) == Env(n)) {
      SuppliedNext(looks, fn, n);
    }
    if Creates(last, fn) && Get(last.state, last.insn.env).Env? {
      assert Supplied(looks, fn, Get(last.state, last.insn.env).node);
      if fn !in facts.closureEnv && fn in mid.closureEnv { assert Supplied(looks, fn, mid.closureEnv[fn].value); }
    }
  }

  /** Of what the analysis returns when it is settled: a function is in conflict exactly when
      the rounds saw it created with two environments, or with one and without; the global code
      when it was created at all with one. */
  lemma ConflictIffDisagree(flows: seq<Flow>, globalCode: Fn, fn: Fn)
    requires ModuleFormed(flows)
    ensures var looks := RoundsRun(flows, MAX_ROUNDS, FirstFacts(globalCode)).0;
      && InModule(flows, looks)
      && (fn in Closed(AfterRounds(flows, MAX_ROUNDS, FirstFacts(globalCode))).conflict <==>
            SuppliedTwo(looks, fn) || (SuppliedSome(looks, fn) && (fn == globalCode || SuppliedNone(looks, fn))))
  {
    var first := FirstFacts(globalCode);
    var (looks, facts) := RoundsRun(flows, MAX_ROUNDS, first);
    ConflictTold(first, looks, facts, fn);
    EnvTold(first, looks, facts, fn);
    NoneTold(first, looks, facts, fn);
  }

  // ------------------------------------------------------------- settled tables, by the sites

  /** What a site supplies is what is recorded, or its function or slot is in conflict. */
  ghost predicate Recorded(facts: Facts, self: Option<Option<Node>>, insn: EnvInsn, s: State) {
    match insn
    case CreateEnv(_, node, source) => SuppliedParent(self, source, s).Some? ==> node in facts.parent
    case MakeClosure(_, _, env, fn) =>
      && (Get(s, env).Env? ==> fn in facts.closureEnv && (facts.closureEnv[fn] == Some(Get(s, env).node) || fn in facts.conflict))
      && (Get(s, env).NoEnv? ==> fn in facts.noEnv)
    case StoreSlot(env, slot, val) =>
      Get(s, env).Env? ==>
        var key := (Get(s, env).node, slot);
        if Get(s, val).Env? then key in facts.slotEnv && facts.slotEnv[key] in {Holds(Get(s, val).node), Conflict}
        else key in facts.slotEnv ==> facts.slotEnv[key] == Conflict
    case _ => true
  }

  lemma QuietRecords(facts: Facts, self: Option<Option<Node>>, insn: EnvInsn, s: State)
    requires Learn(facts, self, insn, s) == facts
    ensures Recorded(facts, self, insn, s)
  {
    match insn
    case CreateEnv(_, node, source) =>
      assert SuppliedParent(self, source, s).Some? ==> node in Learn(facts, self, insn, s).parent;
    case MakeClosure(_, _, env, fn) =>
      assert Get(s, env).Env? ==> fn in Learn(facts, self, insn, s).closureEnv;
    case StoreSlot(env, slot, val) =>
      if Get(s, env).Env? { assert (Get(s, env).node, slot) in facts.slotEnv ==> Learn(facts, self, insn, s).slotEnv[(Get(s, env).node, slot)] == facts.slotEnv[(Get(s, env).node, slot)]; }
    case _ =>
  }

  /** Instruction k of block b of f, on a path from the entry. */
  ghost predicate ReachableSite(cfgs: seq<FunctionCfg>, flows: seq<Flow>, f: nat, b: nat, k: nat)
    requires CfgsOf(cfgs, flows)
  {
    f < |flows| && b < |flows[f].code| && k < |flows[f].code[b]| && AnyReachable(cfgs[f].blocks, cfgs[f].exceptionSuccs, cfgs[f].entry, b)
  }

  ghost function StateAt(flows: seq<Flow>, facts: Facts, f: nat, b: nat, k: nat): State
    requires ModuleFormed(flows) && f < |flows| && b < |flows[f].code| && k <= |flows[f].code[b]|
  {
    Out(facts, SelfEnv(facts, f), flows[f].code[b], Entry(flows, facts, f)[b], k)
  }

  lemma SettledRecords(cfgs: seq<FunctionCfg>, flows: seq<Flow>, facts: Facts, f: nat, b: nat, k: nat)
    requires Solved(flows, facts) && CfgsOf(cfgs, flows) && ReachableSite(cfgs, flows, f, b, k)
    ensures Recorded(facts, SelfEnv(facts, f), flows[f].code[b][k], StateAt(flows, facts, f, b, k))
  {
    var g, entry, self := flows[f], Entry(flows, facts, f), SelfEnv(facts, f);
    SolvedIsPostFix(flows, facts, f);
    ReachableIsLive(cfgs[f], g, entry, b);
    assert Settled(g, self, facts, entry, b);
    assert Learn(facts, self, g.code[b][k], Out(facts, self, g.code[b], entry[b], k)) == facts;
    QuietRecords(facts, self, g.code[b][k], StateAt(flows, facts, f, b, k));
  }

  /** Of what the analysis returns when it is settled: every reachable site that creates a
      function out of conflict supplies the environment recorded for it; where the supplied
      one is known to be none, none is recorded. */
  lemma OutOfConflictAgrees(cfgs: seq<FunctionCfg>, flows: seq<Flow>, facts: Facts, f: nat, b: nat, k: nat)
    requires Solved(flows, facts) && CfgsOf(cfgs, flows) && ReachableSite(cfgs, flows, f, b, k)
    requires var insn := flows[f].code[b][k]; insn.MakeClosure? && insn.fn !in Closed(facts).conflict
    ensures var insn, s, after := flows[f].code[b][k], StateAt(flows, facts, f, b, k), Closed(facts);
      && (Get(s, insn.env).Env? ==> insn.fn in after.closureEnv && after.closureEnv[insn.fn] == Some(Get(s, insn.env).node))
      && (Get(s, insn.env).NoEnv? ==> insn.fn in after.closureEnv && after.closureEnv[insn.fn] == None)
  {
    SettledRecords(cfgs, flows, facts, f, b, k);
  }
}
