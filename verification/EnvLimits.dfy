// Two programs on which the environment graph is wrong about a run, one for each condition the
// soundness theorem asks for: covered blocks, and sites that agree with the recorded facts.
// buildCfg's graph of each goes through the rounds and the collecting pass.
module EnvLimits {
  import opened CfgTypes
  import opened Invariants
  import opened Reach
  import opened Programs
  import opened EnvState
  import opened EnvFlow
  import opened EnvTracker
  import opened EnvRounds
  import opened EnvCollect
  import opened EnvMachine
  import opened EnvSound
  import opened EnvRuns
  import opened EnvPrograms

  const NOTHING: State := map[]

  lemma MergeNothing(s: State)
    ensures Merge(s, NOTHING) == s && Merge(NOTHING, s) == s
  {
    assert Merge(s, NOTHING).Keys == s.Keys;
    assert Merge(NOTHING, s).Keys == s.Keys;
  }

  lemma MergeSame(a: State, s: State)
    ensures Merge(Merge(a, s), s) == Merge(a, s)
  {
    assert Merge(Merge(a, s), s).Keys == Merge(a, s).Keys;
  }

  /** Absorbing a state several times is absorbing it once. */
  lemma {:induction false} AbsorbOnly(w: Work, ts: seq<nat>, t: nat, s: State)
    requires Only(ts, t) && t < |w.entry|
    ensures AbsorbAll(w, ts, s) == Absorb(w, t, s)
    decreases |ts|
  {
    var front := ts[..|ts| - 1];
    if front == [] {
      assert AbsorbAll(w, front, s) == w;
    } else {
      AbsorbOnly(w, front, t, s);
      MergeSame(w.entry[t], s);
    }
  }

  lemma AbsorbNothing(w: Work, t: nat)
    requires t < |w.entry|
    ensures Absorb(w, t, NOTHING) == w && AbsorbAll(w, [], NOTHING) == w && AbsorbAll(w, [t], NOTHING) == w
  {
    MergeNothing(w.entry[t]);
    assert [t][..0] == [];
  }

  lemma PushLast(queue: seq<nat>, bs: seq<nat>, b: nat)
    ensures PushAll(queue, bs + [b]) == Push(PushAll(queue, bs), b)
  {
    assert (bs + [b])[..|bs|] == bs;
  }

  /** Some run of the machine ends in m. */
  ghost predicate Reaches(flows: seq<Flow>, globalCode: Fn, m: Machine) {
    exists run: seq<Machine> :: IsRun(flows, globalCode, run) && run[|run| - 1] == m
  }

  lemma ReachesInitial(flows: seq<Flow>, globalCode: Fn)
    ensures Reaches(flows, globalCode, Machine([], {(globalCode, None)}, []))
  {
    var run := [Machine([], {(globalCode, None)}, [])];
    assert IsRun(flows, globalCode, run);
  }

  lemma ReachesNext(flows: seq<Flow>, globalCode: Fn, m: Machine, m': Machine)
    requires Reaches(flows, globalCode, m) && Step(flows, m, m')
    ensures Reaches(flows, globalCode, m')
  {
    var run :| IsRun(flows, globalCode, run) && run[|run| - 1] == m;
    var longer := run + [m'];
    forall k | 0 < k < |longer| ensures StepAt(flows, longer, k) {
      if k < |run| { assert StepAt(flows, run, k); }
    }
    assert IsRun(flows, globalCode, longer);
  }

  /** The module of one function, in one frame about to run instruction pc of a block. */
  function OneFrame(heap: Heap, regs: Regs, block: nat, pc: nat): Machine {
    Machine(heap, {(0, None)}, [Frame(0, None, regs, block, pc)])
  }

  ghost predicate Arrives(g: Flow, heap: Heap, regs: Regs, block: nat, pc: nat) {
    Reaches([g], 0, OneFrame(heap, regs, block, pc))
  }

  lemma Begins(g: Flow)
    requires WellFormed(g) && g.entry == 0
    ensures Arrives(g, [], map[], 0, 0)
  {
    ReachesInitial([g], 0);
    assert Calls([g], Machine([], {(0, None)}, []), OneFrame([], map[], 0, 0), 0, None);
    ReachesNext([g], 0, Machine([], {(0, None)}, []), OneFrame([], map[], 0, 0));
  }

  lemma Continues(g: Flow, heap: Heap, regs: Regs, block: nat, pc: nat, heap': Heap, regs': Regs)
    requires WellFormed(g) && Arrives(g, heap, regs, block, pc) && block < |g.code| && pc < |g.code[block]|
    requires Executes(g.code[block][pc], None, heap, {(0, None)}, regs, heap', {(0, None)}, regs')
    ensures Arrives(g, heap', regs', block, pc + 1)
  {
    assert Runs([g], OneFrame(heap, regs, block, pc), OneFrame(heap', regs', block, pc + 1), 0);
    ReachesNext([g], 0, OneFrame(heap, regs, block, pc), OneFrame(heap', regs', block, pc + 1));
  }

  lemma GoesTo(g: Flow, heap: Heap, regs: Regs, block: nat, pc: nat, t: nat)
    requires WellFormed(g) && Arrives(g, heap, regs, block, pc) && block < |g.code| && pc <= |g.code[block]|
    requires t in g.handlers[block] || (pc == |g.code[block]| && t in g.succs[block])
    ensures Arrives(g, heap, regs, t, 0)
  {
    assert Jumps([g], OneFrame(heap, regs, block, pc), OneFrame(heap, regs, t, 0), 0, t);
    ReachesNext([g], 0, OneFrame(heap, regs, block, pc), OneFrame(heap, regs, t, 0));
  }

  /** A run gets to an access whose register holds an environment made elsewhere than where
      the graph says. */
  ghost predicate WrongAbout(g: Flow, resolved: map<Site, Node>) {
    exists heap: Heap, regs: Regs, block: nat, pc: nat, env: Reg, at: nat {:trigger Arrives(g, heap, regs, block, pc), Read(regs, env), EnvRef(at)} ::
      Arrives(g, heap, regs, block, pc) && AboutToAccess([g], Frame(0, None, regs, block, pc), env)
      && Read(regs, env) == EnvRef(at) && at < |heap| && (0, block, pc) in resolved && heap[at].node != resolved[(0, block, pc)]
  }

  // ------------------------------------- a handler the worklist never visits

  function Met(before: Node): State {
    map[0 := Env(before)]
  }

  function Left(before: Node): State {
    map[0 := Env(before), 1 := Unknown]
  }

  function SilentWork(facts: Facts, e3: State, x1: State, x3: State, queue: seq<nat>, visits: nat): Work {
    Work(facts, [NOTHING, NOTHING, NOTHING, e3], [NOTHING, x1, NOTHING, x3], queue, visits)
  }

  /** Known before the first round, or after it. */
  ghost predicate SilentFacts(facts: Facts, before: Node) {
    facts == FirstFacts(0) || facts == FirstFacts(0).(parent := map[before := None])
  }

  function SilentLearned(before: Node): Facts {
    FirstFacts(0).(parent := map[before := None])
  }

  lemma SilentStart(g: Flow, a: Node, c: Node, facts: Facts)
    requires SilentShape(g, a, c)
    ensures Start(g, facts) == SilentWork(facts, NOTHING, NOTHING, NOTHING, [0, 1, 3], 0)
  {
    assert Blank(4) == [NOTHING, NOTHING, NOTHING, NOTHING];
    PushLast([], [], 0);
    PushLast([], [0], 1);
    PushLast([], [0, 1], 3);
    assert [0, 1, 3] == [0, 1] + [3] && [0, 1] == [0] + [1] && [0] == [] + [0];
  }

  lemma SilentVisit0(g: Flow, a: Node, c: Node, facts: Facts, self: Option<Option<Node>>)
    requires SilentShape(g, a, c) && WellFormed(g)
    ensures Visit(g, self, SilentWork(facts, NOTHING, NOTHING, NOTHING, [0, 1, 3], 0)) == SilentWork(facts, NOTHING, NOTHING, NOTHING, [1, 3], 1)
  {
    var w1 := SilentWork(facts, NOTHING, NOTHING, NOTHING, [1, 3], 1);
    assert [0, 1, 3][1..] == [1, 3];
    AbsorbNothing(w1, 2);
    assert Walk(g, self, w1, 0, 0) == (w1, NOTHING);
    assert Walk(g, self, w1, 0, 1) == (w1, NOTHING);
    AbsorbOnly(w1, g.succs[0], 1, NOTHING);
    AbsorbNothing(w1, 1);
    assert w1.exit[0 := NOTHING] == w1.exit;
  }

  lemma SilentWalk1(g: Flow, a: Node, c: Node, facts: Facts, self: Option<Option<Node>>, w: Work)
    requires SilentShape(g, a, c) && WellFormed(g) && Fits(w, 4) && w.facts == facts && w.entry[1] == NOTHING && SilentFacts(facts, a)
    ensures Walk(g, self, w, 1, 2) == (w.(facts := SilentLearned(a)), Met(a))
  {
    assert Walk(g, self, w, 1, 0) == (w, NOTHING);
    assert Learn(facts, self, CreateEnv(0, a, Root), NOTHING) == SilentLearned(a);
    assert Transfer(facts, self, CreateEnv(0, a, Root), NOTHING) == Met(a);
    assert Walk(g, self, w, 1, 1) == (w.(facts := SilentLearned(a)), Met(a));
  }

  lemma SilentVisit1(g: Flow, a: Node, c: Node, facts: Facts, self: Option<Option<Node>>)
    requires SilentShape(g, a, c) && WellFormed(g) && SilentFacts(facts, a)
    ensures Visit(g, self, SilentWork(facts, NOTHING, NOTHING, NOTHING, [1, 3], 1)) == SilentWork(SilentLearned(a), Met(a), Met(a), NOTHING, [3], 2)
  {
    var w1 := SilentWork(facts, NOTHING, NOTHING, NOTHING, [3], 2);
    assert [1, 3][1..] == [3];
    SilentWalk1(g, a, c, facts, self, w1);
    var v := w1.(facts := SilentLearned(a), exit := w1.exit[1 := Met(a)]);
    AbsorbOnly(v, g.succs[1], 3, Met(a));
    MergeNothing(Met(a));
    assert Absorb(v, 3, Met(a)) == SilentWork(SilentLearned(a), Met(a), Met(a), NOTHING, [3], 2);
  }

  lemma SilentVisit3(g: Flow, a: Node, c: Node, self: Option<Option<Node>>)
    requires SilentShape(g, a, c) && WellFormed(g)
    ensures Visit(g, self, SilentWork(SilentLearned(a), Met(a), Met(a), NOTHING, [3], 2)) == SilentWork(SilentLearned(a), Met(a), Met(a), Left(a), [], 3)
  {
    var w1 := SilentWork(SilentLearned(a), Met(a), Met(a), NOTHING, [], 3);
    assert [3][1..] == [];
    assert Walk(g, self, w1, 3, 0) == (w1, Met(a));
    assert Transfer(SilentLearned(a), self, LoadSlot(1, 0, 0), Met(a)) == Left(a);
    assert Walk(g, self, w1, 3, 1) == (w1, Left(a));
    assert Walk(g, self, w1, 3, 2) == (w1, Left(a));
    assert w1.exit[3 := Left(a)] == [NOTHING, Met(a), NOTHING, Left(a)];
  }

  /** The worklist drains after three visits. Block 2, the handler, gets none: block 0 owes it
      only states that know nothing. */
  lemma SilentRun(g: Flow, a: Node, c: Node, facts: Facts)
    requires SilentShape(g, a, c) && WellFormed(g) && SilentFacts(facts, a)
    ensures RunFlow(g, 0, facts) == SilentWork(SilentLearned(a), Met(a), Met(a), Left(a), [], 3)
  {
    var self := SelfEnv(facts, 0);
    SilentStart(g, a, c, facts);
    StartIsRight(g, self, facts);
    SilentVisit0(g, a, c, facts, self);
    SilentVisit1(g, a, c, facts, self);
    SilentVisit3(g, a, c, self);
    var w0 := SilentWork(facts, NOTHING, NOTHING, NOTHING, [0, 1, 3], 0);
    var w1 := SilentWork(facts, NOTHING, NOTHING, NOTHING, [1, 3], 1);
    var w2 := SilentWork(SilentLearned(a), Met(a), Met(a), NOTHING, [3], 2);
    var w3 := SilentWork(SilentLearned(a), Met(a), Met(a), Left(a), [], 3);
    DrainThrice(g, self, facts, w0, w1, w2, w3);
  }

  lemma DrainThrice(g: Flow, self: Option<Option<Node>>, start: Facts, w0: Work, w1: Work, w2: Work, w3: Work)
    requires Inv(g, self, start, w0) && w0.queue != [] && w0.visits == 0 && w0.queue[0] < |g.code|
    requires w1 == Visit(g, self, w0) && w1.queue != [] && w1.queue[0] < |g.code|
    requires w2 == Visit(g, self, w1) && w2.queue != [] && w2.queue[0] < |g.code|
    requires w3 == Visit(g, self, w2) && w3.queue == []
    ensures Drain(g, self, start, w0) == w3
  {
    DrainStep(g, self, start, w0);
    DrainStep(g, self, start, w1);
    DrainStep(g, self, start, w2);
    assert Drain(g, self, start, w3) == w3;
  }

  lemma OneRound(g: Flow, facts: Facts)
    requires WellFormed(g)
    ensures AfterRound([g], 1, facts) == RunFlow(g, 0, facts).facts
  {
    assert AfterRound([g], 0, facts) == facts;
  }

  /** One round learns, the next learns nothing. */
  lemma TwoRounds(g: Flow, first: Facts, next: Facts)
    requires WellFormed(g) && first != next && RunFlow(g, 0, first).facts == next && RunFlow(g, 0, next).facts == next
    ensures AfterRounds([g], MAX_ROUNDS, first) == next && Stable([g], next, 1)
  {
    OneRound(g, first);
    OneRound(g, next);
    assert AfterRounds([g], MAX_ROUNDS - 1, next) == next;
  }

  lemma DrainedOne(g: Flow, facts: Facts)
    requires WellFormed(g) && RunFlow(g, 0, facts).queue == []
    ensures Drained([g], facts)
  {
  }

  lemma SilentRounds(g: Flow, a: Node, c: Node)
    requires SilentShape(g, a, c) && WellFormed(g)
    ensures AfterRounds([g], MAX_ROUNDS, FirstFacts(0)) == SilentLearned(a)
    ensures Stable([g], SilentLearned(a), 1) && Drained([g], SilentLearned(a)) && RunFlow(g, 0, SilentLearned(a)).entry[3] == Met(a)
  {
    SilentRun(g, a, c, FirstFacts(0));
    SilentRun(g, a, c, SilentLearned(a));
    SilentLearns(a);
    TwoRounds(g, FirstFacts(0), SilentLearned(a));
    DrainedOne(g, SilentLearned(a));
  }

  lemma SilentLearns(a: Node)
    ensures FirstFacts(0) != SilentLearned(a)
  {
    assert a in SilentLearned(a).parent;
  }

  /** The exception at 0 goes through the handler to the access with the handler's environment. */
  lemma SilentMachine(g: Flow, a: Node, c: Node)
    requires SilentShape(g, a, c) && WellFormed(g)
    ensures Arrives(g, [Instance(c, None, map[])], map[5 := Else(0), 0 := EnvRef(0)], 3, 0)
  {
    Begins(g);
    GoesTo(g, [], map[], 0, 0, 2);
    Continues(g, [], map[], 2, 0, [], map[5 := Else(0)]);
    var made: Heap := [Instance(c, None, map[])];
    var caught: Regs := map[5 := Else(0)];
    assert [] + made == made;
    Continues(g, [], caught, 2, 1, made, caught[0 := EnvRef(0)]);
    assert g.succs[2][0] == 3;
    GoesTo(g, made, caught[0 := EnvRef(0)], 2, 2, 3);
  }

  lemma SilentReachable(cfg: FunctionCfg)
    requires SilentCfg(cfg)
    ensures AnyReachable(cfg.blocks, cfg.exceptionSuccs, cfg.entry, 3)
  {
    EdgeOnly(cfg.blocks, 0, 1, 1);
    EdgeOnly(cfg.blocks, 1, 3, 3);
    assert AnyPath(cfg.blocks, cfg.exceptionSuccs, cfg.entry, [0]) && Last([0], 0);
    AnyReachableStep(cfg.blocks, cfg.exceptionSuccs, cfg.entry, 0, 1);
    AnyReachableStep(cfg.blocks, cfg.exceptionSuccs, cfg.entry, 1, 3);
  }

  lemma SilentNode(cfg: FunctionCfg, g: Flow, a: Node, c: Node)
    requires SilentCfg(cfg) && SilentShape(g, a, c) && WellFormed(g)
    ensures NodeAt([cfg], [g], SilentLearned(a), (0, 3, 0)) == Some(a)
  {
    SilentReachable(cfg);
    SilentRun(g, a, c, SilentLearned(a));
    SilentAccess(a);
    FirstAccess(cfg, g, SilentLearned(a), 3, Met(a), a);
  }

  /** The access is resolved to the environment made after block 0. */
  lemma SilentResolves(cfg: FunctionCfg, g: Flow, a: Node, c: Node, resolved: map<Site, Node>)
    requires SilentCfg(cfg) && SilentShape(g, a, c) && WellFormed(g) && CollectedAs([cfg], [g], SilentLearned(a), resolved)
    ensures (0, 3, 0) in resolved && resolved[(0, 3, 0)] == a
  {
    SilentNode(cfg, g, a, c);
    SiteCollected(cfg, g, SilentLearned(a), (0, 3, 0), resolved, a);
  }

  lemma SiteCollected(cfg: FunctionCfg, g: Flow, facts: Facts, x: Site, resolved: map<Site, Node>, n: Node)
    requires WellFormed(g) && CollectedAs([cfg], [g], facts, resolved) && NodeAt([cfg], [g], facts, x) == Some(n)
    ensures x in resolved && resolved[x] == n
  {
  }

  lemma SilentAccess(a: Node)
    ensures ResolvedIn(Met(a), LoadSlot(1, 0, 0)) == Some(a)
  {
  }

  /** What the first instruction of a reachable block of the only function is resolved to. */
  lemma FirstAccess(cfg: FunctionCfg, g: Flow, facts: Facts, b: nat, s: State, n: Node)
    requires WellFormed(g) && b < |g.code| && |g.code[b]| > 0 && AnyReachable(cfg.blocks, cfg.exceptionSuccs, cfg.entry, b)
    requires RunFlow(g, 0, facts).entry[b] == s && ResolvedIn(s, g.code[b][0]) == Some(n)
    ensures NodeAt([cfg], [g], facts, (0, b, 0)) == Some(n)
  {
    assert FactsAtFunction([cfg], [g], facts, 0) == facts;
  }

  /** Whatever buildCfg makes of the first body, the rounds settle and the worklist drains, but
      its handler is not covered, and the graph is wrong about a run. */
  lemma UncoveredHandlerIsUnsound(cfg: FunctionCfg, g: Flow, resolved: map<Site, Node>)
    requires SilentCfg(cfg) && FlowOf(cfg, g)
    requires |g.code| == 4 && |g.code[1]| == 2 && |g.code[2]| == 2 && g.code[1][0].CreateEnv? && g.code[2][1].CreateEnv? && g.code[1][0].node != g.code[2][1].node
    requires CollectedAs([cfg], [g], AfterRounds([g], MAX_ROUNDS, FirstFacts(0)), resolved)
    ensures var facts := AfterRounds([g], MAX_ROUNDS, FirstFacts(0));
            Stable([g], facts, 1) && Drained([g], facts) && !ModuleCovered([g], facts)
    ensures IsDecoded(SilentBody()) && WrongAbout(g, resolved)
  {
    SilentDecodes();
    SilentFlow(cfg, g);
    var a, c := g.code[1][0].node, g.code[2][1].node;
    SilentRounds(g, a, c);
    SilentUncovers(g, a, c);
    SilentMachine(g, a, c);
    SilentResolves(cfg, g, a, c, resolved);
    SilentWrong(g, a, c, resolved);
  }

  lemma SilentUncovers(g: Flow, a: Node, c: Node)
    requires SilentShape(g, a, c) && WellFormed(g)
    ensures !ModuleCovered([g], SilentLearned(a))
  {
    SilentRun(g, a, c, SilentLearned(a));
    HandlerUncovered(g, RunFlow(g, 0, SilentLearned(a)).entry);
    assert [g][0] == g && !Covered(g, Entry([g], SilentLearned(a), 0));
  }

  lemma HandlerUncovered(g: Flow, entry: seq<State>)
    requires WellFormed(g) && |g.code| == |entry| == 4 && g.rpo == [0, 1, 3] && g.handlers[0] == [2] && entry[2] == map[]
    ensures !Covered(g, entry)
  {
    assert g.rpo[0] == 0 && Live(g, entry, 0);
    assert g.handlers[0][0] == 2 && !Live(g, entry, 2);
    assert !AllLive(g, entry, g.handlers[0]);
  }

  lemma SilentWrong(g: Flow, a: Node, c: Node, resolved: map<Site, Node>)
    requires SilentShape(g, a, c) && WellFormed(g) && a != c && (0, 3, 0) in resolved && resolved[(0, 3, 0)] == a
    requires Arrives(g, [Instance(c, None, map[])], map[5 := Else(0), 0 := EnvRef(0)], 3, 0)
    ensures WrongAbout(g, resolved)
  {
    var regs: Regs := map[5 := Else(0), 0 := EnvRef(0)];
    assert AboutToAccess([g], Frame(0, None, regs, 3, 0), 0);
    assert Read(regs, 0) == EnvRef(0);
  }

  /** buildEnvGraph on a module of one function. */
  method Analyse(cfg: FunctionCfg, g: Flow, ghost sc: Scope) returns (resolved: map<Site, Node>)
    requires FlowOf(cfg, g) && FlowIn(g, sc) && 0 in sc.fns
    ensures CollectedAs([cfg], [g], AfterRounds([g], MAX_ROUNDS, FirstFacts(0)), resolved)
  {
    var t, settled;
    ghost var facts;
    t, resolved, settled, facts := BuildEnvFacts([cfg], [g], 0, sc);
  }

  lemma SilentScope(g: Flow)
    requires SilentShape(g, 0, 1)
    ensures FlowIn(g, Scope({0, 1}, {0}, {0}))
  {
  }

  /** ... such as on this run of buildCfg and buildEnvGraph. */
  method SilentModule() returns (cfg: FunctionCfg, g: Flow, resolved: map<Site, Node>)
    ensures IsDecoded(SilentBody()) && FlowOf(cfg, g) && SilentCfg(cfg) && WrongAbout(g, resolved)
  {
    cfg, g := BuildSilent();
    SilentWellFormed(g, 0, 1);
    SilentScope(g);
    resolved := Analyse(cfg, g, Scope({0, 1}, {0}, {0}));
    UncoveredHandlerIsUnsound(cfg, g, resolved);
  }

  // ------------------------------------------------ a parent recorded too early

  function Parents(a: Node, i: Node, e: Node): map<Node, Option<Node>> {
    map[a := None, i := Some(a), e := Some(a)]
  }

  function LoopLearned(a: Node, i: Node, e: Node): Facts {
    FirstFacts(0).(parent := Parents(a, i, e))
  }

  ghost predicate LoopFacts(facts: Facts, a: Node, i: Node, e: Node) {
    facts == FirstFacts(0) || facts == LoopLearned(a, i, e)
  }

  /** The nodes are three. */
  predicate Three(a: Node, i: Node, e: Node) {
    a != i && a != e && i != e
  }

  function In(a: Node, i: Node): State {
    map[0 := Env(a), 1 := Env(i), 2 := Env(a)]
  }

  function Back(a: Node, i: Node, e: Node): State {
    map[0 := Env(a), 1 := Env(i), 2 := Env(i), 3 := Env(e), 4 := Env(a), 5 := Unknown]
  }

  function Both(a: Node, i: Node, e: Node): State {
    map[0 := Env(a), 1 := Env(i), 2 := Unknown, 3 := Env(e), 4 := Env(a), 5 := Unknown]
  }

  function LoopWork(facts: Facts, e1: State, x0: State, x1: State, queue: seq<nat>, visits: nat): Work {
    Work(facts, [NOTHING, e1], [x0, x1], queue, visits)
  }

  lemma LoopStart(g: Flow, a: Node, i: Node, e: Node, facts: Facts)
    requires LoopingShape(g, a, i, e)
    ensures Start(g, facts) == LoopWork(facts, NOTHING, NOTHING, NOTHING, [0, 1], 0)
  {
    assert Blank(2) == [NOTHING, NOTHING];
    PushLast([], [], 0);
    PushLast([], [0], 1);
    assert [0, 1] == [0] + [1] && [0] == [] + [0];
  }

  function Early(facts: Facts, a: Node): Facts {
    if facts == FirstFacts(0) then facts.(parent := map[a := None]) else facts
  }

  function Entered(facts: Facts, a: Node, i: Node): Facts {
    if facts == FirstFacts(0) then facts.(parent := map[a := None, i := Some(a)]) else facts
  }

  /** Block 0 in three steps. */
  lemma LoopWalk0(g: Flow, a: Node, i: Node, e: Node, facts: Facts, self: Option<Option<Node>>, w: Work)
    requires LoopingShape(g, a, i, e) && WellFormed(g) && Three(a, i, e) && LoopFacts(facts, a, i, e)
    requires Fits(w, 2) && w.facts == facts && w.entry[0] == NOTHING
    ensures Walk(g, self, w, 0, 3) == (w.(facts := Entered(facts, a, i)), In(a, i))
  {
    var s1: State := map[0 := Env(a)];
    var s2: State := map[0 := Env(a), 1 := Env(i)];
    LoopFirstLearns(facts, self, a, i, e);
    assert Walk(g, self, w, 0, 0) == (w, NOTHING);
    assert Transfer(facts, self, CreateEnv(0, a, Root), NOTHING) == s1;
    assert Walk(g, self, w, 0, 1) == (w.(facts := Early(facts, a)), s1);
    assert Transfer(Early(facts, a), self, CreateEnv(1, i, InReg(0)), s1) == s2;
    assert Walk(g, self, w, 0, 2) == (w.(facts := Entered(facts, a, i)), s2);
    assert Transfer(Entered(facts, a, i), self, Move(2, 0), s2) == In(a, i);
  }

  lemma LoopFirstLearns(facts: Facts, self: Option<Option<Node>>, a: Node, i: Node, e: Node)
    requires Three(a, i, e) && LoopFacts(facts, a, i, e)
    ensures Learn(facts, self, CreateEnv(0, a, Root), NOTHING) == Early(facts, a)
    ensures Learn(Early(facts, a), self, CreateEnv(1, i, InReg(0)), map[0 := Env(a)]) == Entered(facts, a, i)
  {
    var s1: State := map[0 := Env(a)];
    assert SuppliedParent(self, InReg(0), s1) == Some(Some(a));
    assert a in LoopLearned(a, i, e).parent;
  }

  /** Block 1 is entered with what block 0 left, or with that and what it left itself. */
  ghost predicate LoopEntry(facts: Facts, s: State, a: Node, i: Node, e: Node) {
    if s == In(a, i) then facts == Entered(FirstFacts(0), a, i) || facts == LoopLearned(a, i, e) else s == Both(a, i, e) && facts == LoopLearned(a, i, e)
  }

  /** The first two instructions of block 1. */
  lemma LoopWalkHead(g: Flow, a: Node, i: Node, e: Node, facts: Facts, self: Option<Option<Node>>, w: Work, s: State)
    requires LoopingShape(g, a, i, e) && WellFormed(g) && Three(a, i, e) && Fits(w, 2) && w.facts == facts && w.entry[1] == s
    requires LoopEntry(facts, s, a, i, e)
    ensures Walk(g, self, w, 1, 2) == (w.(facts := LoopLearned(a, i, e)), s[3 := Env(e)][4 := Env(a)])
  {
    var f, s1 := LoopLearned(a, i, e), s[3 := Env(e)];
    LoopLastLearns(facts, self, a, i, e, s);
    assert Walk(g, self, w, 1, 0) == (w, s);
    assert Transfer(facts, self, CreateEnv(3, e, InReg(2)), s) == s1;
    assert Walk(g, self, w, 1, 1) == (w.(facts := f), s1);
    LoopUp(a, i, e);
    assert Transfer(f, self, GetEnvAbove(4, 3, 1), s1) == s1[4 := Env(a)];
  }

  /** All five, from either entry state. */
  lemma LoopWalk1(g: Flow, a: Node, i: Node, e: Node, facts: Facts, self: Option<Option<Node>>, w: Work, s: State)
    requires LoopingShape(g, a, i, e) && WellFormed(g) && Three(a, i, e) && Fits(w, 2) && w.facts == facts && w.entry[1] == s
    requires LoopEntry(facts, s, a, i, e)
    ensures Walk(g, self, w, 1, 5) == (w.(facts := LoopLearned(a, i, e)), Back(a, i, e))
  {
    var f, s2 := LoopLearned(a, i, e), s[3 := Env(e)][4 := Env(a)];
    LoopWalkHead(g, a, i, e, facts, self, w, s);
    LoopTail(self, a, i, e, s);
    assert Walk(g, self, w, 1, 3) == (w.(facts := f), s2[5 := Unknown]);
    assert Walk(g, self, w, 1, 4) == (w.(facts := f), Back(a, i, e));
  }

  lemma LoopTail(self: Option<Option<Node>>, a: Node, i: Node, e: Node, s: State)
    requires s == In(a, i) || s == Both(a, i, e)
    ensures var f, s2 := LoopLearned(a, i, e), s[3 := Env(e)][4 := Env(a)];
            Transfer(f, self, LoadSlot(5, 4, 0), s2) == s2[5 := Unknown] && Transfer(f, self, Move(2, 1), s2[5 := Unknown]) == Back(a, i, e)
  {
  }

  lemma LoopLastLearns(facts: Facts, self: Option<Option<Node>>, a: Node, i: Node, e: Node, s: State)
    requires Three(a, i, e) && LoopEntry(facts, s, a, i, e)
    ensures Learn(facts, self, CreateEnv(3, e, InReg(2)), s) == LoopLearned(a, i, e)
  {
    if s == In(a, i) { assert SuppliedParent(self, InReg(2), s) == Some(Some(a)); }
  }

  lemma LoopUp(a: Node, i: Node, e: Node)
    requires Three(a, i, e)
    ensures WalkUp(LoopLearned(a, i, e), Some(e), 1) == Env(a)
  {
    assert WalkUp(LoopLearned(a, i, e), Some(a), 0) == Env(a);
  }

  lemma LoopVisit0(g: Flow, a: Node, i: Node, e: Node, facts: Facts, self: Option<Option<Node>>)
    requires LoopingShape(g, a, i, e) && WellFormed(g) && Three(a, i, e) && LoopFacts(facts, a, i, e)
    ensures Visit(g, self, LoopWork(facts, NOTHING, NOTHING, NOTHING, [0, 1], 0)) == LoopWork(Entered(facts, a, i), In(a, i), In(a, i), NOTHING, [1], 1)
  {
    var w1 := LoopWork(facts, NOTHING, NOTHING, NOTHING, [1], 1);
    assert [0, 1][1..] == [1];
    LoopWalk0(g, a, i, e, facts, self, w1);
    MergeNothing(In(a, i));
    LeaveLoop(g, a, i, e, Entered(facts, a, i), 0, NOTHING, NOTHING, NOTHING, [1], 1, In(a, i), In(a, i));
  }

  /** Leaving either block with s: it is absorbed by the entry state of block 1. */
  lemma LeaveLoop(g: Flow, a: Node, i: Node, e: Node, facts: Facts, b: nat, e1: State, x0: State, x1: State, queue: seq<nat>, visits: nat, s: State, m: State)
    requires LoopingShape(g, a, i, e) && WellFormed(g) && b < 2 && visits <= 2 && m == Merge(e1, s)
    ensures Leave(g, LoopWork(facts, e1, x0, x1, queue, visits), b, s) ==
      LoopWork(facts, m, if b == 0 then s else x0, if b == 1 then s else x1, if m == e1 then queue else Push(queue, 1), visits)
  {
    var w := LoopWork(facts, e1, x0, x1, queue, visits);
    var v := LoopWork(facts, e1, if b == 0 then s else x0, if b == 1 then s else x1, queue, visits);
    assert w.(exit := w.exit[b := s]) == v;
    AbsorbOnly(v, g.succs[b], 1, s);
    assert g.resumes[b] == [];
  }

  lemma MergeBack(a: Node, i: Node, e: Node)
    requires Three(a, i, e)
    ensures Merge(In(a, i), Back(a, i, e)) == Both(a, i, e) && Merge(Both(a, i, e), Back(a, i, e)) == Both(a, i, e) && Both(a, i, e) != In(a, i)
  {
    assert Merge(In(a, i), Back(a, i, e)).Keys == Both(a, i, e).Keys;
    assert Merge(Both(a, i, e), Back(a, i, e)).Keys == Both(a, i, e).Keys;
    assert Both(a, i, e)[2] != In(a, i)[2];
  }

  lemma LoopVisit1(g: Flow, a: Node, i: Node, e: Node, facts: Facts, self: Option<Option<Node>>)
    requires LoopingShape(g, a, i, e) && WellFormed(g) && Three(a, i, e) && (facts == Entered(FirstFacts(0), a, i) || facts == LoopLearned(a, i, e))
    ensures Visit(g, self, LoopWork(facts, In(a, i), In(a, i), NOTHING, [1], 1)) == LoopWork(LoopLearned(a, i, e), Both(a, i, e), In(a, i), Back(a, i, e), [1], 2)
  {
    var w1 := LoopWork(facts, In(a, i), In(a, i), NOTHING, [], 2);
    assert [1][1..] == [];
    LoopWalk1(g, a, i, e, facts, self, w1, In(a, i));
    MergeBack(a, i, e);
    LeaveLoop(g, a, i, e, LoopLearned(a, i, e), 1, In(a, i), In(a, i), NOTHING, [], 2, Back(a, i, e), Both(a, i, e));
  }

  lemma LoopVisit1Again(g: Flow, a: Node, i: Node, e: Node, self: Option<Option<Node>>)
    requires LoopingShape(g, a, i, e) && WellFormed(g) && Three(a, i, e)
    ensures Visit(g, self, LoopWork(LoopLearned(a, i, e), Both(a, i, e), In(a, i), Back(a, i, e), [1], 2)) ==
      LoopWork(LoopLearned(a, i, e), Both(a, i, e), In(a, i), Back(a, i, e), [], 3)
  {
    var w1 := LoopWork(LoopLearned(a, i, e), Both(a, i, e), In(a, i), Back(a, i, e), [], 3);
    assert [1][1..] == [];
    MergeBack(a, i, e);
    LoopWalk1(g, a, i, e, LoopLearned(a, i, e), self, w1, Both(a, i, e));
    LoopStays(g, a, i, e, w1);
  }

  /** By the third visit every block had its turn, and nothing new leaves block 1. */
  lemma LoopStays(g: Flow, a: Node, i: Node, e: Node, w: Work)
    requires WellFormed(g) && |g.code| == 2 && w == LoopWork(LoopLearned(a, i, e), Both(a, i, e), In(a, i), Back(a, i, e), [], 3)
    ensures Leave(g, w, 1, Back(a, i, e)) == w
  {
  }

  /** The worklist drains after three visits, in the first round and in the second. */
  lemma LoopRun(g: Flow, a: Node, i: Node, e: Node, facts: Facts)
    requires LoopingShape(g, a, i, e) && WellFormed(g) && Three(a, i, e) && LoopFacts(facts, a, i, e)
    ensures RunFlow(g, 0, facts) == LoopWork(LoopLearned(a, i, e), Both(a, i, e), In(a, i), Back(a, i, e), [], 3)
  {
    var self := SelfEnv(facts, 0);
    LoopStart(g, a, i, e, facts);
    StartIsRight(g, self, facts);
    LoopVisit0(g, a, i, e, facts, self);
    LoopVisit1(g, a, i, e, Entered(facts, a, i), self);
    LoopVisit1Again(g, a, i, e, self);
    var w0 := LoopWork(facts, NOTHING, NOTHING, NOTHING, [0, 1], 0);
    var w1 := LoopWork(Entered(facts, a, i), In(a, i), In(a, i), NOTHING, [1], 1);
    var w2 := LoopWork(LoopLearned(a, i, e), Both(a, i, e), In(a, i), Back(a, i, e), [1], 2);
    var w3 := LoopWork(LoopLearned(a, i, e), Both(a, i, e), In(a, i), Back(a, i, e), [], 3);
    DrainThrice(g, self, facts, w0, w1, w2, w3);
  }

  lemma LoopLearns(a: Node, i: Node, e: Node)
    ensures FirstFacts(0) != LoopLearned(a, i, e)
  {
    assert a in LoopLearned(a, i, e).parent;
  }

  lemma LoopRounds(g: Flow, a: Node, i: Node, e: Node)
    requires LoopingShape(g, a, i, e) && WellFormed(g) && Three(a, i, e)
    ensures AfterRounds([g], MAX_ROUNDS, FirstFacts(0)) == LoopLearned(a, i, e)
    ensures Stable([g], LoopLearned(a, i, e), 1) && Drained([g], LoopLearned(a, i, e))
  {
    LoopRun(g, a, i, e, FirstFacts(0));
    LoopRun(g, a, i, e, LoopLearned(a, i, e));
    LoopLearns(a, i, e);
    TwoRounds(g, FirstFacts(0), LoopLearned(a, i, e));
    DrainedOne(g, LoopLearned(a, i, e));
  }

  lemma LoopCovered(g: Flow, a: Node, i: Node, e: Node)
    requires LoopingShape(g, a, i, e) && WellFormed(g) && Three(a, i, e)
    ensures Covered(g, [NOTHING, Both(a, i, e)])
  {
    var entry := [NOTHING, Both(a, i, e)];
    assert g.rpo[1] == 1;
    forall b: nat | b < 2 && Live(g, entry, b)
      ensures AllLive(g, entry, g.succs[b]) && AllLive(g, entry, g.handlers[b]) && AllLive(g, entry, g.resumes[b])
    {
      assert g.handlers[b] == [] && g.resumes[b] == [];
    }
  }

  lemma LoopSolved(g: Flow, a: Node, i: Node, e: Node)
    requires LoopingShape(g, a, i, e) && WellFormed(g) && Three(a, i, e)
    ensures Solved([g], LoopLearned(a, i, e)) && Entry([g], LoopLearned(a, i, e), 0) == [NOTHING, Both(a, i, e)]
  {
    LoopRounds(g, a, i, e);
    LoopRun(g, a, i, e, LoopLearned(a, i, e));
    LoopCovered(g, a, i, e);
    assert [g][0] == g;
  }

  // What runs do.

  lemma LoopCreates(g: Flow, heap: Heap, regs: Regs, block: nat, pc: nat, dst: Reg, node: Node, source: ParentSource, p: Option<nat>)
    requires WellFormed(g) && Arrives(g, heap, regs, block, pc) && block < |g.code| && pc < |g.code[block]|
    requires g.code[block][pc] == CreateEnv(dst, node, source) && ParentOperand(heap, None, regs, source) == Some(p)
    ensures Arrives(g, heap + [Instance(node, p, map[])], regs[dst := EnvRef(|heap|)], block, pc + 1)
  {
    Continues(g, heap, regs, block, pc, heap + [Instance(node, p, map[])], regs[dst := EnvRef(|heap|)]);
  }

  lemma LoopMoves(g: Flow, heap: Heap, regs: Regs, block: nat, pc: nat, dst: Reg, src: Reg)
    requires WellFormed(g) && Arrives(g, heap, regs, block, pc) && block < |g.code| && pc < |g.code[block]| && g.code[block][pc] == Move(dst, src)
    ensures Arrives(g, heap, regs[dst := Read(regs, src)], block, pc + 1)
  {
    Continues(g, heap, regs, block, pc, heap, regs[dst := Read(regs, src)]);
  }

  function Two(a: Node, i: Node): Heap {
    [Instance(a, None, map[]), Instance(i, Some(0), map[])]
  }

  /** Block 0, up to the loop. */
  lemma LoopEnters(g: Flow, a: Node, i: Node, e: Node) returns (regs: Regs)
    requires LoopingShape(g, a, i, e) && WellFormed(g)
    ensures Arrives(g, Two(a, i), regs, 1, 0) && Read(regs, 1) == EnvRef(1) && Read(regs, 2) == EnvRef(0)
  {
    Begins(g);
    LoopCreates(g, [], map[], 0, 0, 0, a, Root, None);
    var h1: Heap := [Instance(a, None, map[])];
    assert [] + h1 == h1;
    var r0: Regs := map[];
    var r1 := r0[0 := EnvRef(0)];
    LoopCreates(g, h1, r1, 0, 1, 1, i, InReg(0), Some(0));
    assert h1 + [Instance(i, Some(0), map[])] == Two(a, i);
    var r2 := r1[1 := EnvRef(1)];
    LoopMoves(g, Two(a, i), r2, 0, 2, 2, 0);
    regs := r2[2 := Read(r2, 0)];
    assert g.succs[0][0] == 1;
    GoesTo(g, Two(a, i), regs, 0, 3, 1);
  }

  lemma ClimbOne(heap: Heap, at: nat, p: nat)
    requires at < |heap| && heap[at].parent == Some(p) && p < |heap|
    ensures Climb(heap, Some(at), 1) == Some(p)
  {
    assert Climb(heap, Some(p), 0) == Some(p);
  }

  /** The first two instructions of the loop body: register 4 holds the parent of the new
      environment, whatever register 2 held. */
  lemma LoopTurn(g: Flow, a: Node, i: Node, e: Node, heap: Heap, regs: Regs, p: nat)
    requires LoopingShape(g, a, i, e) && WellFormed(g) && Arrives(g, heap, regs, 1, 0) && Read(regs, 2) == EnvRef(p) && p < |heap|
    ensures Arrives(g, heap + [Instance(e, Some(p), map[])], regs[3 := EnvRef(|heap|)][4 := EnvRef(p)], 1, 2)
  {
    LoopCreates(g, heap, regs, 1, 0, 3, e, InReg(2), Some(p));
    var h := heap + [Instance(e, Some(p), map[])];
    var r := regs[3 := EnvRef(|heap|)];
    ClimbOne(h, |heap|, p);
    Continues(g, h, r, 1, 1, h, r[4 := EnvRef(p)]);
  }

  /** The rest of the body, and the first two instructions again. */
  lemma LoopAgain(g: Flow, a: Node, i: Node, e: Node, h: Heap, r: Regs) returns (heap: Heap, regs: Regs)
    requires LoopingShape(g, a, i, e) && WellFormed(g) && Arrives(g, h, r, 1, 2)
    requires Read(r, 1) == EnvRef(1) && |h| > 1 && Read(r, 4) == EnvRef(0) && h[0].slots == map[]
    ensures Arrives(g, heap, regs, 1, 2) && Read(regs, 4) == EnvRef(1) && |heap| > |h| && heap[..|h|] == h
  {
    var r1 := r[5 := Unwritten];
    Continues(g, h, r, 1, 2, h, r1);
    LoopMoves(g, h, r1, 1, 3, 2, 1);
    var r2 := r1[2 := Read(r1, 1)];
    Continues(g, h, r2, 1, 4, h, r2);
    assert g.succs[1][0] == 1;
    GoesTo(g, h, r2, 1, 5, 1);
    LoopTurn(g, a, i, e, h, r2, 1);
    heap := h + [Instance(e, Some(1), map[])];
    regs := r2[3 := EnvRef(|h|)][4 := EnvRef(1)];
  }

  lemma LoopTwice(g: Flow, a: Node, i: Node, e: Node) returns (heap: Heap, regs: Regs)
    requires LoopingShape(g, a, i, e) && WellFormed(g)
    ensures Arrives(g, heap, regs, 1, 2) && Read(regs, 4) == EnvRef(1) && MadeAt(heap, 1, i)
  {
    var r2 := LoopEnters(g, a, i, e);
    LoopTurn(g, a, i, e, Two(a, i), r2, 0);
    var h3 := Two(a, i) + [Instance(e, Some(0), map[])];
    var r3 := r2[3 := EnvRef(2)][4 := EnvRef(0)];
    heap, regs := LoopAgain(g, a, i, e, h3, r3);
    assert heap[1] == Instance(i, Some(0), map[]);
  }

  lemma LoopReachable(cfg: FunctionCfg)
    requires LoopingCfg(cfg)
    ensures AnyReachable(cfg.blocks, cfg.exceptionSuccs, cfg.entry, 1)
  {
    EdgeOnly(cfg.blocks, 0, 1, 1);
    assert AnyPath(cfg.blocks, cfg.exceptionSuccs, cfg.entry, [0]) && Last([0], 0);
    AnyReachableStep(cfg.blocks, cfg.exceptionSuccs, cfg.entry, 0, 1);
  }

  lemma LoopTracks(g: Flow, a: Node, i: Node, e: Node, self: Option<Option<Node>>)
    requires LoopingShape(g, a, i, e) && Three(a, i, e)
    ensures ResolvedTo(LoopLearned(a, i, e), self, g.code[1], Both(a, i, e), 2) == Some(a)
  {
    var f, code, s := LoopLearned(a, i, e), g.code[1], Both(a, i, e);
    assert Out(f, self, code, s, 0) == s;
    assert Out(f, self, code, s, 1) == s[3 := Env(e)];
    LoopUp(a, i, e);
  }

  /** What settled tables resolve an access of the only function to. */
  lemma LaterAccess(cfg: FunctionCfg, g: Flow, facts: Facts, b: nat, k: nat, s: State, n: Node)
    requires FlowOf(cfg, g) && Solved([g], facts) && b < |g.code| && k < |g.code[b]| && AnyReachable(cfg.blocks, cfg.exceptionSuccs, cfg.entry, b)
    requires Entry([g], facts, 0)[b] == s && ResolvedTo(facts, SelfEnv(facts, 0), g.code[b], s, k) == Some(n)
    ensures NodeAt([cfg], [g], facts, (0, b, k)) == Some(n)
  {
    SettledNode([cfg], [g], facts, (0, b, k));
    assert SiteNode([cfg], [g], facts, (0, b, k)) == ResolvedTo(facts, SelfEnv(facts, 0), g.code[b], s, k);
  }

  lemma LoopSettles(g: Flow, a: Node, i: Node, e: Node)
    requires LoopingShape(g, a, i, e) && WellFormed(g) && Three(a, i, e)
    ensures Solved([g], LoopLearned(a, i, e)) && |g.code| == 2 && |g.code[1]| == 5
    ensures Entry([g], LoopLearned(a, i, e), 0)[1] == Both(a, i, e)
  {
    LoopSolved(g, a, i, e);
  }

  lemma LoopNode(cfg: FunctionCfg, g: Flow, a: Node, i: Node, e: Node)
    requires FlowOf(cfg, g) && LoopingShape(g, a, i, e) && Three(a, i, e) && AnyReachable(cfg.blocks, cfg.exceptionSuccs, cfg.entry, 1)
    ensures NodeAt([cfg], [g], LoopLearned(a, i, e), (0, 1, 2)) == Some(a)
  {
    var facts := LoopLearned(a, i, e);
    LoopSettles(g, a, i, e);
    LoopTracks(g, a, i, e, SelfEnv(facts, 0));
    LaterAccess(cfg, g, facts, 1, 2, Both(a, i, e), a);
  }

  /** The access in the loop is resolved to the outer environment. */
  lemma LoopResolves(cfg: FunctionCfg, g: Flow, a: Node, i: Node, e: Node, resolved: map<Site, Node>)
    requires LoopingCfg(cfg) && FlowOf(cfg, g) && LoopingShape(g, a, i, e) && Three(a, i, e)
    requires CollectedAs([cfg], [g], LoopLearned(a, i, e), resolved)
    ensures (0, 1, 2) in resolved && resolved[(0, 1, 2)] == a
  {
    LoopReachable(cfg);
    LoopNode(cfg, g, a, i, e);
    SiteCollected(cfg, g, LoopLearned(a, i, e), (0, 1, 2), resolved, a);
  }

  lemma LoopWrong(g: Flow, a: Node, i: Node, e: Node, resolved: map<Site, Node>)
    requires LoopingShape(g, a, i, e) && WellFormed(g) && Three(a, i, e) && (0, 1, 2) in resolved && resolved[(0, 1, 2)] == a
    ensures WrongAbout(g, resolved)
  {
    var heap, regs := LoopTwice(g, a, i, e);
    assert AboutToAccess([g], Frame(0, None, regs, 1, 2), 4);
  }

  /** The site of the third environment does not agree with the parent recorded for it. */
  lemma StaleSiteDisagrees(g: Flow, a: Node, i: Node, e: Node)
    requires LoopingShape(g, a, i, e) && WellFormed(g) && Three(a, i, e) && Solved([g], LoopLearned(a, i, e))
    ensures !SitesAgree([g], LoopLearned(a, i, e), Entries([g], LoopLearned(a, i, e)))
  {
    var facts := LoopLearned(a, i, e);
    LoopSolved(g, a, i, e);
    DisagreesAt(g, facts, Entries([g], facts), a, i, e);
  }

  lemma DisagreesAt(g: Flow, facts: Facts, E: seq<seq<State>>, a: Node, i: Node, e: Node)
    requires LoopingShape(g, a, i, e) && WellFormed(g) && Three(a, i, e) && facts == LoopLearned(a, i, e)
    requires Tables([g], facts, E) && E[0] == [NOTHING, Both(a, i, e)]
    ensures !SitesAgree([g], facts, E)
  {
    assert g.rpo[1] == 1 && Live(g, E[0], 1);
    assert Out(facts, SelfEnv(facts, 0), [g][0].code[1], E[0][1], 0) == Both(a, i, e);
    assert !Agrees(facts, SelfEnv(facts, 0), [g][0].code[1][0], Both(a, i, e));
  }

  /** Whatever buildCfg makes of the second body, the rounds settle, the worklist drains and
      every block is covered, but a site does not agree, and the graph is wrong about a run. */
  lemma StaleParentIsUnsound(cfg: FunctionCfg, g: Flow, resolved: map<Site, Node>)
    requires LoopingCfg(cfg) && FlowOf(cfg, g)
    requires |g.code| == 2 && |g.code[0]| == 3 && |g.code[1]| == 5 && g.code[0][0].CreateEnv? && g.code[0][1].CreateEnv? && g.code[1][0].CreateEnv?
    requires Three(g.code[0][0].node, g.code[0][1].node, g.code[1][0].node)
    requires CollectedAs([cfg], [g], AfterRounds([g], MAX_ROUNDS, FirstFacts(0)), resolved)
    ensures var facts := AfterRounds([g], MAX_ROUNDS, FirstFacts(0));
            Solved([g], facts) && !SitesAgree([g], facts, Entries([g], facts))
    ensures IsDecoded(LoopingBody()) && WrongAbout(g, resolved)
  {
    LoopingDecodes();
    LoopingFlow(cfg, g);
    var a, i, e := g.code[0][0].node, g.code[0][1].node, g.code[1][0].node;
    LoopRounds(g, a, i, e);
    LoopSolved(g, a, i, e);
    StaleSiteDisagrees(g, a, i, e);
    LoopResolves(cfg, g, a, i, e, resolved);
    LoopWrong(g, a, i, e, resolved);
  }

  lemma LoopScope(g: Flow)
    requires LoopingShape(g, 0, 1, 2)
    ensures FlowIn(g, Scope({0, 1, 2}, {0}, {0}))
  {
  }

  /** ... such as on this run of buildCfg and buildEnvGraph. */
  method LoopModule() returns (cfg: FunctionCfg, g: Flow, resolved: map<Site, Node>)
    ensures IsDecoded(LoopingBody()) && FlowOf(cfg, g) && LoopingCfg(cfg) && WrongAbout(g, resolved)
  {
    cfg, g := BuildLooping();
    LoopingWellFormed(g, 0, 1, 2);
    LoopScope(g);
    resolved := Analyse(cfg, g, Scope({0, 1, 2}, {0}, {0}));
    StaleParentIsUnsound(cfg, g, resolved);
  }
}
