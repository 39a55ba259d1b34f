// The collecting pass (src/cfg/env-graph.ts:118-127, 423-438, 453-466): what it resolves every
// access of every reachable block to, and, once the tables are settled, that it is what they say.
module EnvCollect {
  import opened CfgTypes
  import opened EnvState
  import opened EnvFlow
  import opened EnvTracker
  import opened EnvRounds
  import opened Invariants
  import opened Reach
  import opened EnvOps

  // --------------------------------------------------------- the collecting pass

  /** The flow graph of a built CFG: what the tracker sees in its instructions, its edges, its
      handlers, its resume blocks, its order and its entry. */
  ghost predicate FlowOf(cfg: FunctionCfg, g: Flow) {
    && WellFormed(g) && |cfg.blocks| == |g.code| && InRange(cfg.blocks, cfg.exceptionSuccs)
    && cfg.entry == g.entry && cfg.entry < |cfg.blocks| && cfg.rpo == g.rpo
    && (forall b :: 0 <= b < |g.code| ==>
         g.succs[b] == Targets(cfg.blocks[b].succs) && g.handlers[b] == (if b in cfg.exceptionSuccs then cfg.exceptionSuccs[b] else []))
    && CodeOf(cfg.blocks, g.code) && ResumesRight(cfg, g)
  }

  /** A block resumes where the saves it holds say. */
  ghost predicate ResumesRight(cfg: FunctionCfg, g: Flow)
    requires WellFormed(g) && |cfg.blocks| == |g.code|
  {
    forall b: nat, t: nat {:trigger t in g.resumes[b]} :: b < |g.code| ==>
      (t in g.resumes[b] <==> exists k :: 0 <= k < |cfg.suspendPoints| && cfg.suspendPoints[k].resumeBlock == t
                                          && 0 <= cfg.blocks[b].start <= cfg.suspendPoints[k].saveOffset < cfg.blocks[b].end)
  }

  type Site = (Fn, nat, nat)

  /** The environment register of a slot access. */
  function AccessReg(insn: EnvInsn): Option<Reg> {
    match insn
    case LoadSlot(_, env, _) => Some(env)
    case StoreSlot(env, _, _) => Some(env)
    case _ => None
  }

  ghost function ResolvedIn(s: State, insn: EnvInsn): Option<Node> {
    var env := AccessReg(insn);
    if env.Some? && Get(s, env.value).Env? then Some(Get(s, env.value).node) else None
  }

  /** The node the k-th access resolves to when its block is entered in state s. */
  ghost function ResolvedTo(facts: Facts, self: Option<Option<Node>>, code: seq<EnvInsn>, s: State, k: nat): Option<Node>
    requires k < |code|
  {
    ResolvedIn(Out(facts, self, code, s, k), code[k])
  }

  /** Facts and registers after k instructions of a block entered in state s. */
  ghost function Follow(facts: Facts, self: Option<Option<Node>>, code: seq<EnvInsn>, s: State, k: nat): (Facts, State)
    requires k <= |code|
    decreases k
  {
    if k == 0 then (facts, s)
    else
      var (f, t) := Follow(facts, self, code, s, k - 1);
      (Learn(f, self, code[k - 1], t), Transfer(f, self, code[k - 1], t))
  }

  /** resolved is before, plus what the first k accesses of b are found to touch. */
  ghost predicate CollectedBlock(facts: Facts, self: Option<Option<Node>>, f: Fn, b: nat, code: seq<EnvInsn>, s: State, k: nat,
                                 before: map<Site, Node>, resolved: map<Site, Node>)
    requires k <= |code|
  {
    && (forall x: Site {:trigger x in resolved} :: (x.0 != f || x.1 != b) ==>
          (x in resolved <==> x in before) && (x in resolved ==> resolved[x] == before[x]))
    && forall j: nat {:trigger (f, b, j) in resolved} ::
         ((f, b, j) in resolved <==> j < k && ResolvedIn(Follow(facts, self, code, s, j).1, code[j]).Some?)
         && ((f, b, j) in resolved ==> ResolvedIn(Follow(facts, self, code, s, j).1, code[j]) == Some(resolved[(f, b, j)]))
  }

  /** One reachable block of the collecting pass. */
  method CollectBlock(t: Tracker, self: Option<Option<Node>>, f: Fn, b: nat, code: seq<EnvInsn>, s: State, before: map<Site, Node>)
    returns (resolved: map<Site, Node>)
    requires forall j: nat {:trigger (f, b, j) in before} :: (f, b, j) !in before
    modifies t`facts, t`learned, t`state
    ensures t.facts == Follow(old(t.facts), self, code, s, |code|).0
    ensures CollectedBlock(old(t.facts), self, f, b, code, s, |code|, before, resolved)
  {
    resolved := before;
    ghost var start := t.facts;
    t.state := s;
    for k := 0 to |code|
      invariant (t.facts, t.state) == Follow(start, self, code, s, k)
      invariant CollectedBlock(start, self, f, b, code, s, k, before, resolved)
    {
      ghost var known := resolved;
      var node := Resolve(t, code[k]);
      if node.Some? { resolved := resolved[(f, b, k) := node.value]; }
      CollectStep(start, self, f, b, code, s, k, before, known, node, resolved);
      t.ApplyTransfer(self, code[k]);
    }
  }

  method Resolve(t: Tracker, insn: EnvInsn) returns (node: Option<Node>)
    ensures node == ResolvedIn(t.state, insn)
  {
    var env := AccessReg(insn);
    if env.None? { return None; }
    var ev := t.Tracked(env.value);
    node := if ev.Env? then Some(ev.node) else None;
  }

  lemma CollectStep(facts: Facts, self: Option<Option<Node>>, f: Fn, b: nat, code: seq<EnvInsn>, s: State, k: nat,
                    before: map<Site, Node>, known: map<Site, Node>, node: Option<Node>, resolved: map<Site, Node>)
    requires k < |code| && CollectedBlock(facts, self, f, b, code, s, k, before, known)
    requires node == ResolvedIn(Follow(facts, self, code, s, k).1, code[k])
    requires resolved == if node.Some? then known[(f, b, k) := node.value] else known
    ensures CollectedBlock(facts, self, f, b, code, s, k + 1, before, resolved)
  {
    assert (f, b, k) !in known;
  }

  // ------------------------------------------------------------- whole functions

  ghost function Entry(flows: seq<Flow>, facts: Facts, f: Fn): (r: seq<State>)
    requires ModuleFormed(flows) && f < |flows|
    ensures |r| == |flows[f].code|
  {
    RunFlow(flows[f], f, facts).entry
  }

  ghost predicate ModuleCovered(flows: seq<Flow>, facts: Facts)
    requires ModuleFormed(flows)
  {
    forall f: nat {:trigger flows[f]} :: f < |flows| ==> Covered(flows[f], Entry(flows, facts, f))
  }

  /** The rounds ended with nothing learned, every worklist drained, and no edge leaves the
      blocks the worklists visited. */
  ghost predicate Solved(flows: seq<Flow>, facts: Facts) {
    ModuleFormed(flows) && Stable(flows, facts, |flows|) && Drained(flows, facts) && ModuleCovered(flows, facts)
  }

  lemma SolvedIsPostFix(flows: seq<Flow>, facts: Facts, f: Fn)
    requires Solved(flows, facts) && f < |flows|
    ensures PostFix(flows[f], SelfEnv(facts, f), facts, Entry(flows, facts, f)) && Covered(flows[f], Entry(flows, facts, f))
  {
    DrainedIsPostFix(flows[f], f, facts);
  }

  ghost predicate CfgsOf(cfgs: seq<FunctionCfg>, flows: seq<Flow>) {
    |cfgs| == |flows| && forall f {:trigger cfgs[f]} {:trigger flows[f]} :: 0 <= f < |flows| ==> FlowOf(cfgs[f], flows[f])
  }

  lemma EdgesAgree(cfg: FunctionCfg, g: Flow, a: nat, b: nat)
    requires FlowOf(cfg, g) && a < |g.code| && AnyEdge(cfg.blocks, cfg.exceptionSuccs, a, b)
    ensures b in g.succs[a] || b in g.handlers[a]
  {
    NextBlocks(cfg.blocks, cfg.exceptionSuccs, a, b);
  }

  /** Every block reachable over normal and exception edges got its visit. */
  lemma ReachableIsLive(cfg: FunctionCfg, g: Flow, entry: seq<State>, b: nat)
    requires FlowOf(cfg, g) && |entry| == |g.code| && Covered(g, entry)
    requires AnyReachable(cfg.blocks, cfg.exceptionSuccs, cfg.entry, b)
    ensures b < |g.code| && Live(g, entry, b)
  {
    var live := set x: nat | x < |g.code| && Live(g, entry, x);
    forall x, y | x in live && AnyEdge(cfg.blocks, cfg.exceptionSuccs, x, y) ensures y in live {
      EdgesAgree(cfg, g, x, y);
      assert AllLive(g, entry, g.succs[x]) && AllLive(g, entry, g.handlers[x]);
    }
    var w :| AnyPath(cfg.blocks, cfg.exceptionSuccs, cfg.entry, w) && Last(w, b);
    ClosedHoldsAnyPath(cfg.blocks, cfg.exceptionSuccs, cfg.entry, live, w);
  }

  /** What the settled tables resolve an access site to; None for a site no entry path reaches. */
  ghost function SiteNode(cfgs: seq<FunctionCfg>, flows: seq<Flow>, facts: Facts, x: Site): Option<Node>
    requires ModuleFormed(flows) && CfgsOf(cfgs, flows)
  {
    if x.0 < |flows| && x.1 < |flows[x.0].code| && x.2 < |flows[x.0].code[x.1]|
       && AnyReachable(cfgs[x.0].blocks, cfgs[x.0].exceptionSuccs, cfgs[x.0].entry, x.1)
    then ResolvedTo(facts, SelfEnv(facts, x.0), flows[x.0].code[x.1], Entry(flows, facts, x.0)[x.1], x.2)
    else None
  }

  // ----------------------------------------------- what the pass resolves, in general

  /** The blocks the pass collects from. */
  ghost function LiveBlocks(cfg: FunctionCfg): iset<BlockId> {
    iset b: BlockId | AnyReachable(cfg.blocks, cfg.exceptionSuccs, cfg.entry, b)
  }

  /** The facts when the pass gets to block b of a function. */
  ghost function FactsAtBlock(live: iset<BlockId>, code: seq<seq<EnvInsn>>, self: Option<Option<Node>>, entry: seq<State>, facts: Facts, b: nat): Facts
    requires b <= |code| == |entry|
  {
    if b == 0 then facts
    else
      var before := FactsAtBlock(live, code, self, entry, facts, b - 1);
      if b - 1 in live
      then Follow(before, self, code[b - 1], entry[b - 1], |code[b - 1]|).0
      else before
  }

  /** The facts when the pass gets to function f. */
  ghost function FactsAtFunction(cfgs: seq<FunctionCfg>, flows: seq<Flow>, facts: Facts, f: nat): Facts
    requires ModuleFormed(flows) && |cfgs| == |flows| && f <= |flows|
  {
    if f == 0 then facts
    else
      var before := FactsAtFunction(cfgs, flows, facts, f - 1);
      var run := RunFlow(flows[f - 1], f - 1, before);
      FactsAtBlock(LiveBlocks(cfgs[f - 1]), flows[f - 1].code, SelfEnv(before, f - 1), run.entry, run.facts, |flows[f - 1].code|)
  }

  /** The node of one access of a live block, given the tables the run of its function leaves. */
  ghost function NodeOf(live: iset<BlockId>, code: seq<seq<EnvInsn>>, self: Option<Option<Node>>, entry: seq<State>, ran: Facts, b: nat, k: nat): Option<Node>
    requires |code| == |entry|
  {
    if b < |code| && b in live && k < |code[b]|
    then ResolvedIn(Follow(FactsAtBlock(live, code, self, entry, ran, b), self, code[b], entry[b], k).1, code[b][k])
    else None
  }

  ghost function NodeInFunction(cfg: FunctionCfg, g: Flow, f: Fn, facts: Facts, b: nat, k: nat): Option<Node>
    requires WellFormed(g)
  {
    var run := RunFlow(g, f, facts);
    NodeOf(LiveBlocks(cfg), g.code, SelfEnv(facts, f), run.entry, run.facts, b, k)
  }

  ghost function NodeAt(cfgs: seq<FunctionCfg>, flows: seq<Flow>, facts: Facts, x: Site): Option<Node>
    requires ModuleFormed(flows) && |cfgs| == |flows|
  {
    if x.0 < |flows| then NodeInFunction(cfgs[x.0], flows[x.0], x.0, FactsAtFunction(cfgs, flows, facts, x.0), x.1, x.2) else None
  }

  /** resolved holds exactly the resolved sites of the functions below f. */
  ghost predicate CollectedTo(cfgs: seq<FunctionCfg>, flows: seq<Flow>, facts: Facts, f: nat, resolved: map<Site, Node>)
    requires ModuleFormed(flows) && |cfgs| == |flows|
  {
    forall x: Site {:trigger x in resolved} ::
      (x in resolved <==> x.0 < f && NodeAt(cfgs, flows, facts, x).Some?)
      && (x in resolved ==> NodeAt(cfgs, flows, facts, x) == Some(resolved[x]))
  }

  // ------------------------------------------------------------- in one function

  /** Of function f, resolved holds exactly the resolved sites of the blocks below b; of the
      others what was there before. */
  ghost predicate CollectedIn(live: iset<BlockId>, code: seq<seq<EnvInsn>>, self: Option<Option<Node>>, entry: seq<State>, ran: Facts, f: Fn, b: nat,
                              before: map<Site, Node>, resolved: map<Site, Node>)
    requires |code| == |entry|
  {
    forall x: Site {:trigger x in resolved} ::
      if x.0 != f then (x in resolved <==> x in before) && (x in resolved ==> resolved[x] == before[x])
      else (x in resolved <==> x.1 < b && NodeOf(live, code, self, entry, ran, x.1, x.2).Some?)
           && (x in resolved ==> NodeOf(live, code, self, entry, ran, x.1, x.2) == Some(resolved[x]))
  }

  lemma CollectedNext(live: iset<BlockId>, code: seq<seq<EnvInsn>>, self: Option<Option<Node>>, entry: seq<State>, ran: Facts, f: Fn, b: nat,
                      before: map<Site, Node>, known: map<Site, Node>, resolved: map<Site, Node>)
    requires b < |code| == |entry| && CollectedIn(live, code, self, entry, ran, f, b, before, known)
    requires if b in live
             then CollectedBlock(FactsAtBlock(live, code, self, entry, ran, b), self, f, b, code[b], entry[b], |code[b]|, known, resolved)
             else resolved == known
    ensures CollectedIn(live, code, self, entry, ran, f, b + 1, before, resolved)
  {
    forall x: Site
      ensures x.0 != f ==> (x in resolved <==> x in before) && (x in resolved ==> resolved[x] == before[x])
      ensures x.0 == f ==> (x in resolved <==> x.1 < b + 1 && NodeOf(live, code, self, entry, ran, x.1, x.2).Some?)
                           && (x in resolved ==> NodeOf(live, code, self, entry, ran, x.1, x.2) == Some(resolved[x]))
    {
      if x.0 == f && x.1 == b {
        assert x == (f, b, x.2) && x !in known;
      } else {
        assert x in resolved <==> x in known;
      }
    }
  }

  /** The reachable blocks of one function, in id order. */
  method CollectBlocks(t: Tracker, self: Option<Option<Node>>, f: Fn, code: seq<seq<EnvInsn>>, reachable: set<BlockId>, ghost live: iset<BlockId>,
                       before: map<Site, Node>) returns (resolved: map<Site, Node>)
    requires |code| == |t.entryState| && (forall b: BlockId :: b in reachable <==> b in live)
    requires forall x: Site {:trigger x in before} :: x in before ==> x.0 != f
    modifies t`facts, t`learned, t`state
    ensures t.facts == FactsAtBlock(live, code, self, t.entryState, old(t.facts), |code|)
    ensures CollectedIn(live, code, self, t.entryState, old(t.facts), f, |code|, before, resolved)
  {
    resolved := before;
    ghost var ran := t.facts;
    for b := 0 to |code|
      invariant t.facts == FactsAtBlock(live, code, self, t.entryState, ran, b)
      invariant CollectedIn(live, code, self, t.entryState, ran, f, b, before, resolved)
    {
      ghost var known := resolved;
      if b in reachable {
        resolved := CollectBlock(t, self, f, b, code[b], t.entryState[b], resolved);
      }
      CollectedNext(live, code, self, t.entryState, ran, f, b, before, known, resolved);
    }
  }

  // ------------------------------------------------------------- function by function

  /** The tables between functions: the facts when the pass gets to f, and what is resolved. */
  ghost predicate Between(cfgs: seq<FunctionCfg>, flows: seq<Flow>, facts: Facts, f: nat, now: Facts, resolved: map<Site, Node>)
    requires ModuleFormed(flows) && |cfgs| == |flows|
  {
    f <= |flows| && now == FactsAtFunction(cfgs, flows, facts, f) && CollectedTo(cfgs, flows, facts, f, resolved)
  }

  /** A run of function f and its collection lead from one function to the next. */
  lemma CollectedFunction(cfgs: seq<FunctionCfg>, flows: seq<Flow>, facts: Facts, f: nat, earlier: Facts, before: map<Site, Node>,
                          run: Work, now: Facts, resolved: map<Site, Node>)
    requires ModuleFormed(flows) && |cfgs| == |flows| && f < |flows| && Between(cfgs, flows, facts, f, earlier, before)
    requires run == RunFlow(flows[f], f, earlier)
    requires now == FactsAtBlock(LiveBlocks(cfgs[f]), flows[f].code, SelfEnv(earlier, f), run.entry, run.facts, |flows[f].code|)
    requires CollectedIn(LiveBlocks(cfgs[f]), flows[f].code, SelfEnv(earlier, f), run.entry, run.facts, f, |flows[f].code|, before, resolved)
    ensures Between(cfgs, flows, facts, f + 1, now, resolved)
  {
    forall x: Site ensures (x in resolved <==> x.0 < f + 1 && NodeAt(cfgs, flows, facts, x).Some?)
                           && (x in resolved ==> NodeAt(cfgs, flows, facts, x) == Some(resolved[x]))
    {
      if x.0 == f {
        assert NodeAt(cfgs, flows, facts, x) == NodeOf(LiveBlocks(cfgs[f]), flows[f].code, SelfEnv(earlier, f), run.entry, run.facts, x.1, x.2);
      } else {
        assert x in resolved <==> x in before;
      }
    }
  }

  lemma FlowInRange(cfgs: seq<FunctionCfg>, flows: seq<Flow>, f: nat)
    requires CfgsOf(cfgs, flows) && f < |flows|
    ensures InRange(cfgs[f].blocks, cfgs[f].exceptionSuccs) && cfgs[f].entry < |cfgs[f].blocks|
  {
    assert FlowOf(cfgs[f], flows[f]);
  }

  /** runFunction with a collector. */
  method CollectFunction(t: Tracker, cfgs: seq<FunctionCfg>, flows: seq<Flow>, f: nat, ghost start: Facts, before: map<Site, Node>)
    returns (resolved: map<Site, Node>)
    requires ModuleFormed(flows) && CfgsOf(cfgs, flows) && f < |flows| && Between(cfgs, flows, start, f, t.facts, before)
    modifies t
    ensures Between(cfgs, flows, start, f + 1, t.facts, resolved)
  {
    var self := SelfEnv(t.facts, f);
    ghost var earlier := t.facts;
    var drained := t.RunFunction(flows[f], f);
    ghost var run := t.View();
    FlowInRange(cfgs, flows, f);
    var reachable := ReachableBlocks(cfgs[f].blocks, cfgs[f].exceptionSuccs, cfgs[f].entry);
    resolved := CollectBlocks(t, self, f, flows[f].code, reachable, LiveBlocks(cfgs[f]), before);
    CollectedFunction(cfgs, flows, start, f, earlier, before, run, t.facts, resolved);
  }

  /** Every reachable access, and nothing else, is resolved to what the pass finds there. */
  ghost predicate CollectedAs(cfgs: seq<FunctionCfg>, flows: seq<Flow>, facts: Facts, resolved: map<Site, Node>)
    requires ModuleFormed(flows) && |cfgs| == |flows|
  {
    forall x: Site {:trigger x in resolved} ::
      (x in resolved <==> NodeAt(cfgs, flows, facts, x).Some?) && (x in resolved ==> NodeAt(cfgs, flows, facts, x) == Some(resolved[x]))
  }

  lemma CollectedAll(cfgs: seq<FunctionCfg>, flows: seq<Flow>, facts: Facts, resolved: map<Site, Node>)
    requires ModuleFormed(flows) && |cfgs| == |flows| && CollectedTo(cfgs, flows, facts, |flows|, resolved)
    ensures CollectedAs(cfgs, flows, facts, resolved)
  {
  }

  /** The final round, on any tables: it learns as it goes, function by function and block by
      block, and resolves each access with what is known when it gets there. */
  method CollectModule(t: Tracker, cfgs: seq<FunctionCfg>, flows: seq<Flow>) returns (resolved: map<Site, Node>)
    requires ModuleFormed(flows) && CfgsOf(cfgs, flows)
    modifies t
    ensures t.facts == FactsAtFunction(cfgs, flows, old(t.facts), |flows|) && CollectedAs(cfgs, flows, old(t.facts), resolved)
  {
    resolved := map[];
    ghost var start := t.facts;
    for f := 0 to |flows|
      invariant Between(cfgs, flows, start, f, t.facts, resolved)
    {
      resolved := CollectFunction(t, cfgs, flows, f, start, resolved);
    }
    CollectedAll(cfgs, flows, start, resolved);
  }

  // ------------------------------------------------------ ... on settled tables

  lemma BlockIsQuiet(cfgs: seq<FunctionCfg>, flows: seq<Flow>, facts: Facts, f: nat, b: nat)
    requires Solved(flows, facts) && CfgsOf(cfgs, flows) && f < |flows|
    requires AnyReachable(cfgs[f].blocks, cfgs[f].exceptionSuccs, cfgs[f].entry, b)
    ensures b < |flows[f].code| && Quiet(facts, SelfEnv(facts, f), flows[f].code[b], Entry(flows, facts, f)[b], |flows[f].code[b]|)
  {
    SolvedIsPostFix(flows, facts, f);
    ReachableIsLive(cfgs[f], flows[f], Entry(flows, facts, f), b);
  }

  /** A quiet block leaves the facts alone. */
  lemma {:induction false} QuietFollow(facts: Facts, self: Option<Option<Node>>, code: seq<EnvInsn>, s: State, k: nat)
    requires k <= |code| && Quiet(facts, self, code, s, |code|)
    ensures Follow(facts, self, code, s, k) == (facts, Out(facts, self, code, s, k))
    decreases k
  {
    if k > 0 { QuietFollow(facts, self, code, s, k - 1); }
  }

  /** Collecting from block b learns nothing. */
  ghost predicate Keeps(facts: Facts, self: Option<Option<Node>>, code: seq<seq<EnvInsn>>, entry: seq<State>, b: nat)
    requires b < |code| == |entry|
  {
    Follow(facts, self, code[b], entry[b], |code[b]|).0 == facts
  }

  lemma {:induction false} KeptToBlock(live: iset<BlockId>, code: seq<seq<EnvInsn>>, self: Option<Option<Node>>, entry: seq<State>, facts: Facts, b: nat)
    requires b <= |code| == |entry| && forall x: nat {:trigger Keeps(facts, self, code, entry, x)} :: x < |code| && x in live ==> Keeps(facts, self, code, entry, x)
    ensures FactsAtBlock(live, code, self, entry, facts, b) == facts
    decreases b
  {
    if b > 0 {
      KeptToBlock(live, code, self, entry, facts, b - 1);
      assert b - 1 in live ==> Keeps(facts, self, code, entry, b - 1);
    }
  }

  lemma SettledBlock(cfgs: seq<FunctionCfg>, flows: seq<Flow>, facts: Facts, f: nat, b: nat)
    requires Solved(flows, facts) && CfgsOf(cfgs, flows) && f < |flows|
    requires b < |flows[f].code| && b in LiveBlocks(cfgs[f])
    ensures Keeps(facts, SelfEnv(facts, f), flows[f].code, Entry(flows, facts, f), b)
  {
    BlockIsQuiet(cfgs, flows, facts, f, b);
    QuietFollow(facts, SelfEnv(facts, f), flows[f].code[b], Entry(flows, facts, f)[b], |flows[f].code[b]|);
  }

  lemma SettledBlocks(cfgs: seq<FunctionCfg>, flows: seq<Flow>, facts: Facts, f: nat, n: nat)
    requires Solved(flows, facts) && CfgsOf(cfgs, flows) && f < |flows| && n <= |flows[f].code|
    ensures FactsAtBlock(LiveBlocks(cfgs[f]), flows[f].code, SelfEnv(facts, f), Entry(flows, facts, f), facts, n) == facts
  {
    var self, entry, code := SelfEnv(facts, f), Entry(flows, facts, f), flows[f].code;
    var live := LiveBlocks(cfgs[f]);
    forall x: nat | x < |code| && x in live ensures Keeps(facts, self, code, entry, x) { SettledBlock(cfgs, flows, facts, f, x); }
    KeptToBlock(live, code, self, entry, facts, n);
  }

  lemma SettledRun(flows: seq<Flow>, facts: Facts, f: nat)
    requires Solved(flows, facts) && f < |flows|
    ensures RunFlow(flows[f], f, facts).facts == facts && RunFlow(flows[f], f, facts).entry == Entry(flows, facts, f)
  {
  }

  lemma NextFunction(cfgs: seq<FunctionCfg>, flows: seq<Flow>, facts: Facts, f: nat, now: Facts)
    requires ModuleFormed(flows) && |cfgs| == |flows| && f < |flows| && FactsAtFunction(cfgs, flows, facts, f) == now
    ensures FactsAtFunction(cfgs, flows, facts, f + 1) ==
      FactsAtBlock(LiveBlocks(cfgs[f]), flows[f].code, SelfEnv(now, f), RunFlow(flows[f], f, now).entry, RunFlow(flows[f], f, now).facts, |flows[f].code|)
  {
  }

  lemma SettledFunction(cfgs: seq<FunctionCfg>, flows: seq<Flow>, facts: Facts, f: nat)
    requires Solved(flows, facts) && CfgsOf(cfgs, flows) && f < |flows| && FactsAtFunction(cfgs, flows, facts, f) == facts
    ensures FactsAtFunction(cfgs, flows, facts, f + 1) == facts
  {
    NextFunction(cfgs, flows, facts, f, facts);
    SettledRun(flows, facts, f);
    SettledBlocks(cfgs, flows, facts, f, |flows[f].code|);
  }

  lemma SettledFunctions(cfgs: seq<FunctionCfg>, flows: seq<Flow>, facts: Facts, f: nat)
    requires Solved(flows, facts) && CfgsOf(cfgs, flows) && f <= |flows|
    ensures FactsAtFunction(cfgs, flows, facts, f) == facts
  {
    for i := 0 to f
      invariant FactsAtFunction(cfgs, flows, facts, i) == facts
    {
      SettledFunction(cfgs, flows, facts, i);
    }
  }

  lemma SettledNode(cfgs: seq<FunctionCfg>, flows: seq<Flow>, facts: Facts, x: Site)
    requires Solved(flows, facts) && CfgsOf(cfgs, flows)
    ensures NodeAt(cfgs, flows, facts, x) == SiteNode(cfgs, flows, facts, x)
  {
    var (f, b, k) := x;
    if f < |flows| && b < |flows[f].code| && k < |flows[f].code[b]| {
      SettledFunctions(cfgs, flows, facts, f);
      SettledBlocks(cfgs, flows, facts, f, b);
      if AnyReachable(cfgs[f].blocks, cfgs[f].exceptionSuccs, cfgs[f].entry, b) {
        BlockIsQuiet(cfgs, flows, facts, f, b);
        QuietFollow(facts, SelfEnv(facts, f), flows[f].code[b], Entry(flows, facts, f)[b], k);
      }
    }
  }

  /** Every reachable access, and nothing else, is resolved as the settled tables say. */
  ghost predicate ResolvedAsTables(cfgs: seq<FunctionCfg>, flows: seq<Flow>, facts: Facts, resolved: map<Site, Node>)
    requires ModuleFormed(flows) && CfgsOf(cfgs, flows)
  {
    forall x: Site {:trigger x in resolved} ::
      (x in resolved <==> SiteNode(cfgs, flows, facts, x).Some?) && (x in resolved ==> SiteNode(cfgs, flows, facts, x) == Some(resolved[x]))
  }

  /** On settled tables the final round learns nothing and resolves what the tables say. */
  lemma SettledCollects(cfgs: seq<FunctionCfg>, flows: seq<Flow>, facts: Facts, resolved: map<Site, Node>)
    requires Solved(flows, facts) && CfgsOf(cfgs, flows) && CollectedAs(cfgs, flows, facts, resolved)
    ensures FactsAtFunction(cfgs, flows, facts, |flows|) == facts && ResolvedAsTables(cfgs, flows, facts, resolved)
  {
    SettledFunctions(cfgs, flows, facts, |flows|);
    forall x: Site ensures (x in resolved <==> SiteNode(cfgs, flows, facts, x).Some?) && (x in resolved ==> SiteNode(cfgs, flows, facts, x) == Some(resolved[x])) {
      SettledNode(cfgs, flows, facts, x);
    }
  }

  // ------------------------------------------------- closures without an environment

  /** What closing adds: a function only created without an environment has none, and one
      created both ways is in conflict. */
  function Closed(facts: Facts): Facts {
    facts.(closureEnv := map f | f in facts.closureEnv.Keys + facts.noEnv :: if f in facts.closureEnv then facts.closureEnv[f] else None,
           conflict := facts.conflict + set f | f in facts.noEnv && f in facts.closureEnv && facts.closureEnv[f].Some?)
  }

  /** Closing changes nobody's own environment; it records those that were only implied, and
      puts in conflict exactly the functions created both with an environment and without. */
  lemma ClosedSays(facts: Facts, f: Fn)
    ensures SelfEnv(Closed(facts), f) == SelfEnv(facts, f) && (f in Closed(facts).closureEnv <==> SelfEnv(facts, f).Some?)
    ensures f in Closed(facts).conflict <==> f in facts.conflict || (f in facts.noEnv && Flat(SelfEnv(facts, f)).Some?)
  {
  }

  method CloseNoEnv(t: Tracker)
    modifies t`facts
    ensures t.facts == Closed(old(t.facts))
  {
    ghost var start := t.facts;
    var left := t.facts.noEnv;
    while left != {}
      invariant left <= start.noEnv == t.facts.noEnv && t.facts.parent == start.parent && t.facts.slotEnv == start.slotEnv
      invariant t.facts.closureEnv.Keys == start.closureEnv.Keys + (start.noEnv - left)
      invariant forall f :: f in t.facts.closureEnv ==> t.facts.closureEnv[f] == if f in start.closureEnv then start.closureEnv[f] else None
      invariant forall f :: f in t.facts.conflict <==> f in start.conflict || (f in start.noEnv - left && f in start.closureEnv && start.closureEnv[f].Some?)
      decreases left
    {
      var f :| f in left;
      left := left - {f};
      if f !in t.facts.closureEnv {
        t.facts := t.facts.(closureEnv := t.facts.closureEnv[f := None]);
      } else if t.facts.closureEnv[f] != None {
        t.facts := t.facts.(conflict := t.facts.conflict + {f});
      }
    }
    assert t.facts.closureEnv == Closed(start).closureEnv;
    assert t.facts.conflict == Closed(start).conflict;
  }

  // ------------------------------------------------------------ the whole analysis

  /** All that is known before the first round. */
  function FirstFacts(globalCode: Fn): Facts {
    Facts(map[], map[globalCode := None], {}, {}, map[])
  }

  lemma FirstFactsIn(globalCode: Fn, sc: Scope)
    requires globalCode in sc.fns
    ensures FactsIn(FirstFacts(globalCode), sc)
  {
  }

  lemma GlobalStays(a: Facts, b: Facts, globalCode: Fn)
    requires FactsLe(a, b) && globalCode in a.closureEnv
    ensures globalCode in b.closureEnv && b.closureEnv[globalCode] == a.closureEnv[globalCode]
  {
  }

  /** buildEnvGraph up to the copies: the rounds, at most MAX_ROUNDS of them, the final
      collecting round and the closing. `facts` is what the rounds ended with. */
  method BuildEnvFacts(cfgs: seq<FunctionCfg>, flows: seq<Flow>, globalCode: Fn, ghost sc: Scope)
    returns (t: Tracker, resolved: map<Site, Node>, settled: bool, ghost facts: Facts)
    requires ModuleFormed(flows) && CfgsOf(cfgs, flows) && ModuleIn(flows, sc) && globalCode in sc.fns
    ensures facts == AfterRounds(flows, MAX_ROUNDS, FirstFacts(globalCode))
    ensures globalCode in facts.closureEnv && facts.closureEnv[globalCode] == None
    ensures settled ==> Stable(flows, facts, |flows|)
    ensures Bound(sc) < MAX_ROUNDS ==> settled
    ensures t.facts == Closed(FactsAtFunction(cfgs, flows, facts, |flows|)) && CollectedAs(cfgs, flows, facts, resolved)
    ensures Solved(flows, facts) ==> t.facts == Closed(facts) && ResolvedAsTables(cfgs, flows, facts, resolved)
  {
    t := new Tracker(globalCode);
    ghost var start := t.facts;
    FirstFactsIn(globalCode, sc);
    settled := Rounds(t, flows, MAX_ROUNDS, sc);
    facts := t.facts;
    GlobalStays(start, facts, globalCode);
    resolved := CollectModule(t, cfgs, flows);
    CloseNoEnv(t);
    if Solved(flows, facts) { SettledCollects(cfgs, flows, facts, resolved); }
  }
}
