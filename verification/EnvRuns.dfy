// Soundness of the environment graph over whole runs: what the settled tables claim about a
// register, and the node an access resolves to, is what every run finds there.
module EnvRuns {
  import opened CfgTypes
  import opened EnvState
  import opened EnvFlow
  import opened EnvTracker
  import opened EnvRounds
  import opened EnvCollect
  import opened EnvMachine
  import opened EnvSound
  import opened Invariants

  /** Entry states per function and block: post-fixpoints that cover what control can reach. */
  ghost predicate Tables(flows: seq<Flow>, facts: Facts, E: seq<seq<State>>) {
    |E| == |flows| && forall f: nat {:trigger flows[f]} {:trigger E[f]} :: f < |flows| ==>
      PostFix(flows[f], SelfEnv(facts, f), facts, E[f]) && Covered(flows[f], E[f])
  }

  /** The claims about the registers of a frame, between two instructions. */
  ghost function Claims(flows: seq<Flow>, facts: Facts, E: seq<seq<State>>, fr: Frame): State
    requires Tables(flows, facts, E) && At(flows, fr)
  {
    Out(facts, SelfEnv(facts, fr.fn), flows[fr.fn].code[fr.block], E[fr.fn][fr.block], fr.pc)
  }

  ghost predicate FrameRight(flows: seq<Flow>, facts: Facts, E: seq<seq<State>>, heap: Heap, fr: Frame)
    requires Tables(flows, facts, E)
  {
    && At(flows, fr) && Live(flows[fr.fn], E[fr.fn], fr.block)
    && SelfTrue(heap, SelfEnv(facts, fr.fn), fr.self)
    && RegsFit(heap, Claims(flows, facts, E, fr), fr.regs)
  }

  ghost predicate FramesRight(flows: seq<Flow>, facts: Facts, E: seq<seq<State>>, m: Machine)
    requires Tables(flows, facts, E)
  {
    forall i {:trigger m.frames[i]} :: 0 <= i < |m.frames| ==> FrameRight(flows, facts, E, m.heap, m.frames[i])
  }

  ghost predicate Truthful(facts: Facts, m: Machine) {
    FactsTrue(facts, m.heap, m.closures)
  }

  /** Every site of every visited block agrees with the recorded facts. */
  ghost predicate SitesAgree(flows: seq<Flow>, facts: Facts, E: seq<seq<State>>)
    requires Tables(flows, facts, E)
  {
    forall f: nat, b: nat, k: nat {:trigger flows[f].code[b][k]} ::
      f < |flows| && b < |flows[f].code| && Live(flows[f], E[f], b) && k < |flows[f].code[b]| ==>
        Agrees(facts, SelfEnv(facts, f), flows[f].code[b][k], Out(facts, SelfEnv(facts, f), flows[f].code[b], E[f][b], k))
  }

  // ---------------------------------------------------------------- single steps

  lemma FrameGrows(flows: seq<Flow>, facts: Facts, E: seq<seq<State>>, h: Heap, h': Heap, fr: Frame)
    requires Tables(flows, facts, E) && HeapLe(h, h') && FrameRight(flows, facts, E, h, fr)
    ensures FrameRight(flows, facts, E, h', fr)
  {
    SelfGrows(h, h', SelfEnv(facts, fr.fn), fr.self);
    RegsGrow(h, h', Claims(flows, facts, E, fr), fr.regs);
  }

  lemma CallKeeps(flows: seq<Flow>, facts: Facts, E: seq<seq<State>>, m: Machine, m': Machine, fn: Fn, env: Option<nat>)
    requires Tables(flows, facts, E) && Truthful(facts, m) && FramesRight(flows, facts, E, m) && Calls(flows, m, m', fn, env)
    ensures FramesRight(flows, facts, E, m') && Truthful(facts, m')
  {
    var fr := Frame(fn, env, map[], flows[fn].entry, 0);
    assert PostFix(flows[fn], SelfEnv(facts, fn), facts, E[fn]);
    assert (fn, env) in m.closures;
    assert FrameRight(flows, facts, E, m.heap, fr);
  }

  lemma RunKeepsFrames(flows: seq<Flow>, facts: Facts, E: seq<seq<State>>, m: Machine, m': Machine, i: nat)
    requires Tables(flows, facts, E) && Truthful(facts, m) && FramesRight(flows, facts, E, m) && Runs(flows, m, m', i)
    ensures FramesRight(flows, facts, E, m')
  {
    var fr, fr' := m.frames[i], m'.frames[i];
    var self := SelfEnv(facts, fr.fn);
    var insn := flows[fr.fn].code[fr.block][fr.pc];
    assert FrameRight(flows, facts, E, m.heap, fr);
    ExecutesGrows(insn, fr.self, m.heap, m.closures, fr.regs, m'.heap, m'.closures, fr'.regs);
    TransferTrue(facts, self, insn, Claims(flows, facts, E, fr), fr.self, m.heap, m.closures, fr.regs, m'.heap, m'.closures, fr'.regs);
    SelfGrows(m.heap, m'.heap, self, fr.self);
    assert Claims(flows, facts, E, fr') == Transfer(facts, self, insn, Claims(flows, facts, E, fr));
    forall j | 0 <= j < |m'.frames| ensures FrameRight(flows, facts, E, m'.heap, m'.frames[j]) {
      if j != i {
        assert m'.frames[j] == m.frames[j];
        FrameGrows(flows, facts, E, m.heap, m'.heap, m.frames[j]);
      }
    }
  }

  lemma RunKeepsFacts(flows: seq<Flow>, facts: Facts, E: seq<seq<State>>, m: Machine, m': Machine, i: nat)
    requires Tables(flows, facts, E) && Truthful(facts, m) && FramesRight(flows, facts, E, m) && Runs(flows, m, m', i)
    requires SitesAgree(flows, facts, E)
    ensures Truthful(facts, m')
  {
    var fr, fr' := m.frames[i], m'.frames[i];
    var self := SelfEnv(facts, fr.fn);
    var g := flows[fr.fn];
    var code := g.code[fr.block];
    assert FrameRight(flows, facts, E, m.heap, fr);
    assert Settled(g, self, facts, E[fr.fn], fr.block) by { assert PostFix(g, self, facts, E[fr.fn]); }
    assert Learn(facts, self, code[fr.pc], Claims(flows, facts, E, fr)) == facts;
    assert Agrees(facts, self, flows[fr.fn].code[fr.block][fr.pc], Claims(flows, facts, E, fr));
    FactsStayTrue(facts, self, code[fr.pc], Claims(flows, facts, E, fr), fr.self, m.heap, m.closures, fr.regs, m'.heap, m'.closures, fr'.regs);
  }

  lemma JumpKeeps(flows: seq<Flow>, facts: Facts, E: seq<seq<State>>, m: Machine, m': Machine, i: nat, t: nat)
    requires Tables(flows, facts, E) && FramesRight(flows, facts, E, m) && Jumps(flows, m, m', i, t)
    ensures FramesRight(flows, facts, E, m') && m'.heap == m.heap && m'.closures == m.closures
  {
    var fr := m.frames[i];
    var g, entry, self := flows[fr.fn], E[fr.fn], SelfEnv(facts, fr.fn);
    assert FrameRight(flows, facts, E, m.heap, fr);
    assert PostFix(g, self, facts, entry) && Covered(g, entry);
    JumpIsBelow(g, self, facts, entry, fr.block, fr.pc, t);
    RegsBelow(m.heap, Claims(flows, facts, E, fr), entry[t], fr.regs);
    var fr' := fr.(block := t, pc := 0);
    assert FrameRight(flows, facts, E, m.heap, fr');
    forall j | 0 <= j < |m'.frames| ensures FrameRight(flows, facts, E, m'.heap, m'.frames[j]) {
      assert m'.frames[j] == if j == i then fr' else m.frames[j];
    }
  }

  /** Wherever control can go from (b, pc), the target is visited and its entry state accounts
      for the state at (b, pc). */
  lemma JumpIsBelow(g: Flow, self: Option<Option<Node>>, facts: Facts, entry: seq<State>, b: nat, pc: nat, t: nat)
    requires PostFix(g, self, facts, entry) && Covered(g, entry) && b < |g.code| && Live(g, entry, b) && pc <= |g.code[b]|
    requires t in g.handlers[b] || (pc == |g.code[b]| && (t in g.succs[b] || t in g.resumes[b]))
    ensures t < |g.code| && Live(g, entry, t) && Below(Out(facts, self, g.code[b], entry[b], pc), entry[t])
  {
    var s := Out(facts, self, g.code[b], entry[b], pc);
    assert Settled(g, self, facts, entry, b);
    assert AllLive(g, entry, g.succs[b]) && AllLive(g, entry, g.handlers[b]) && AllLive(g, entry, g.resumes[b]);
    if t in g.handlers[b] { TargetIsBelow(g, entry, g.handlers[b], s, t); }
    else if t in g.succs[b] { TargetIsBelow(g, entry, g.succs[b], s, t); }
    else { TargetIsBelow(g, entry, g.resumes[b], s, t); }
  }

  lemma TargetIsBelow(g: Flow, entry: seq<State>, ts: seq<nat>, s: State, t: nat)
    requires Within(ts, |entry|) && AllAbove(entry, ts, s) && AllLive(g, entry, ts) && t in ts
    ensures t < |entry| && Live(g, entry, t) && Below(s, entry[t])
  {
    var j :| 0 <= j < |ts| && ts[j] == t;
  }

  lemma StepKeepsFrames(flows: seq<Flow>, facts: Facts, E: seq<seq<State>>, m: Machine, m': Machine)
    requires Tables(flows, facts, E) && Truthful(facts, m) && FramesRight(flows, facts, E, m) && Step(flows, m, m')
    ensures FramesRight(flows, facts, E, m')
  {
    if fn, env :| Calls(flows, m, m', fn, env) {
      CallKeeps(flows, facts, E, m, m', fn, env);
    } else if i :| Runs(flows, m, m', i) {
      RunKeepsFrames(flows, facts, E, m, m', i);
    } else {
      var i, t :| Jumps(flows, m, m', i, t);
      JumpKeeps(flows, facts, E, m, m', i, t);
    }
  }

  lemma StepKeepsFacts(flows: seq<Flow>, facts: Facts, E: seq<seq<State>>, m: Machine, m': Machine)
    requires Tables(flows, facts, E) && Truthful(facts, m) && FramesRight(flows, facts, E, m) && Step(flows, m, m')
    requires SitesAgree(flows, facts, E)
    ensures Truthful(facts, m')
  {
    if fn, env :| Calls(flows, m, m', fn, env) {
      CallKeeps(flows, facts, E, m, m', fn, env);
    } else if i :| Runs(flows, m, m', i) {
      RunKeepsFacts(flows, facts, E, m, m', i);
    } else {
      var i, t :| Jumps(flows, m, m', i, t);
      JumpKeeps(flows, facts, E, m, m', i, t);
    }
  }

  // ------------------------------------------------------------------ whole runs

  /** Relative to the recorded facts: while a run keeps them true, every register of every
      frame is as claimed. */
  lemma {:induction false} ClaimsHoldWhileFactsDo(flows: seq<Flow>, facts: Facts, E: seq<seq<State>>, globalCode: Fn, run: seq<Machine>, k: nat)
    requires Tables(flows, facts, E) && IsRun(flows, globalCode, run) && k < |run|
    requires forall j {:trigger run[j]} :: 0 <= j < k ==> Truthful(facts, run[j])
    ensures FramesRight(flows, facts, E, run[k])
    decreases k
  {
    if k > 0 {
      ClaimsHoldWhileFactsDo(flows, facts, E, globalCode, run, k - 1);
      assert StepAt(flows, run, k);
      StepKeepsFrames(flows, facts, E, run[k - 1], run[k]);
    }
  }

  /** And when every site agrees with the facts, every run keeps them true. */
  lemma {:induction false} FactsHold(flows: seq<Flow>, facts: Facts, E: seq<seq<State>>, globalCode: Fn, run: seq<Machine>, k: nat)
    requires Tables(flows, facts, E) && SitesAgree(flows, facts, E) && IsRun(flows, globalCode, run) && k < |run|
    requires globalCode in facts.closureEnv && facts.closureEnv[globalCode] == None
    ensures Truthful(facts, run[k]) && FramesRight(flows, facts, E, run[k])
    decreases k
  {
    if k == 0 {
      assert run[0] == Machine([], {(globalCode, None)}, []);
    } else {
      FactsHold(flows, facts, E, globalCode, run, k - 1);
      assert StepAt(flows, run, k);
      StepKeepsFrames(flows, facts, E, run[k - 1], run[k]);
      StepKeepsFacts(flows, facts, E, run[k - 1], run[k]);
    }
  }

  /** In every run, a register tracked as environment node n is unwritten or holds an
      environment made at n. */
  lemma TrackedRegisterIsRight(flows: seq<Flow>, facts: Facts, E: seq<seq<State>>, globalCode: Fn, run: seq<Machine>, k: nat, i: nat, r: Reg, n: Node)
    requires Tables(flows, facts, E) && SitesAgree(flows, facts, E)
    requires globalCode in facts.closureEnv && facts.closureEnv[globalCode] == None
    requires IsRun(flows, globalCode, run) && k < |run| && i < |run[k].frames|
    ensures At(flows, run[k].frames[i])
    ensures Get(Claims(flows, facts, E, run[k].frames[i]), r) == Env(n) ==>
      var v := Read(run[k].frames[i].regs, r);
      v == Unwritten || (v.EnvRef? && MadeAt(run[k].heap, v.at, n))
  {
    FactsHold(flows, facts, E, globalCode, run, k);
    var fr := run[k].frames[i];
    assert FrameRight(flows, facts, E, run[k].heap, fr);
    GetFits(run[k].heap, Claims(flows, facts, E, fr), fr.regs, r);
  }

  // ------------------------------------------------- what buildEnvGraph returns

  /** The entry states the worklists of a solved module end with. */
  ghost function Entries(flows: seq<Flow>, facts: Facts): (E: seq<seq<State>>)
    requires Solved(flows, facts)
    ensures Tables(flows, facts, E) && forall f: nat {:trigger E[f]} :: f < |flows| ==> E[f] == Entry(flows, facts, f)
  {
    var E := seq(|flows|, f requires 0 <= f < |flows| => Entry(flows, facts, f));
    SolvedGivesTables(flows, facts, E);
    E
  }

  lemma SolvedGivesTables(flows: seq<Flow>, facts: Facts, E: seq<seq<State>>)
    requires Solved(flows, facts) && |E| == |flows| && forall f: nat {:trigger E[f]} :: f < |flows| ==> E[f] == Entry(flows, facts, f)
    ensures Tables(flows, facts, E)
  {
    forall f: nat | f < |flows| ensures PostFix(flows[f], SelfEnv(facts, f), facts, E[f]) && Covered(flows[f], E[f]) {
      SolvedIsPostFix(flows, facts, f);
    }
  }

  lemma RunKeeps(g: Flow, f: Fn, facts: Facts)
    requires WellFormed(g)
    ensures FactsLe(facts, RunFlow(g, f, facts).facts)
  {
    assert Inv(g, SelfEnv(facts, f), facts, RunFlow(g, f, facts));
  }

  lemma RoundKeeps(flows: seq<Flow>, n: nat, facts: Facts)
    requires ModuleFormed(flows) && n <= |flows|
    ensures FactsLe(facts, AfterRound(flows, n, facts))
  {
    for i := 0 to n
      invariant FactsLe(facts, AfterRound(flows, i, facts))
    {
      var before := AfterRound(flows, i, facts);
      RunKeeps(flows[i], i, before);
      FactsLeTransitive(facts, before, RunFlow(flows[i], i, before).facts);
    }
  }

  lemma {:induction false} RoundsKeep(flows: seq<Flow>, cap: nat, facts: Facts)
    requires ModuleFormed(flows)
    ensures FactsLe(facts, AfterRounds(flows, cap, facts))
    decreases cap
  {
    var next := AfterRound(flows, |flows|, facts);
    RoundKeeps(flows, |flows|, facts);
    if cap > 0 && next != facts {
      RoundsKeep(flows, cap - 1, next);
      FactsLeTransitive(facts, next, AfterRounds(flows, cap - 1, next));
    }
  }

  ghost predicate AboutToAccess(flows: seq<Flow>, fr: Frame, env: Reg) {
    At(flows, fr) && fr.pc < |flows[fr.fn].code[fr.block]| && AccessReg(flows[fr.fn].code[fr.block][fr.pc]) == Some(env)
  }

  /** In every run, a slot access that the settled tables resolve to node n touches an
      environment made at n. */
  lemma ResolvedAccessIsRight(cfgs: seq<FunctionCfg>, flows: seq<Flow>, facts: Facts, globalCode: Fn, resolved: map<Site, Node>,
                              run: seq<Machine>, k: nat, i: nat, env: Reg)
    requires Solved(flows, facts) && SitesAgree(flows, facts, Entries(flows, facts))
    requires globalCode in facts.closureEnv && facts.closureEnv[globalCode] == None
    requires CfgsOf(cfgs, flows) && ResolvedAsTables(cfgs, flows, facts, resolved)
    requires IsRun(flows, globalCode, run) && k < |run| && i < |run[k].frames|
    requires AboutToAccess(flows, run[k].frames[i], env)
    ensures var fr, heap := run[k].frames[i], run[k].heap;
      (fr.fn, fr.block, fr.pc) in resolved && Address(Read(fr.regs, env), heap).Some? ==>
        MadeAt(heap, Read(fr.regs, env).at, resolved[(fr.fn, fr.block, fr.pc)])
  {
    var fr := run[k].frames[i];
    var site := (fr.fn, fr.block, fr.pc);
    if site in resolved {
      TrackedRegisterIsRight(flows, facts, Entries(flows, facts), globalCode, run, k, i, env, resolved[site]);
    }
  }

  /** The same of what buildEnvGraph returns, from the module alone: with the facts its rounds
      end with and the sites its final round resolves, every resolved access is right in every
      run, if the rounds settled, every worklist drained, no edge leaves what they visited, and
      the sites agree. */
  lemma BuiltAccessIsRight(cfgs: seq<FunctionCfg>, flows: seq<Flow>, globalCode: Fn, resolved: map<Site, Node>, run: seq<Machine>, k: nat, i: nat, env: Reg)
    requires ModuleFormed(flows) && CfgsOf(cfgs, flows)
    requires var facts := AfterRounds(flows, MAX_ROUNDS, FirstFacts(globalCode));
             CollectedAs(cfgs, flows, facts, resolved) && Solved(flows, facts) && SitesAgree(flows, facts, Entries(flows, facts))
    requires IsRun(flows, globalCode, run) && k < |run| && i < |run[k].frames|
    requires AboutToAccess(flows, run[k].frames[i], env)
    ensures var fr, heap := run[k].frames[i], run[k].heap;
      (fr.fn, fr.block, fr.pc) in resolved && Address(Read(fr.regs, env), heap).Some? ==>
        MadeAt(heap, Read(fr.regs, env).at, resolved[(fr.fn, fr.block, fr.pc)])
  {
    var first := FirstFacts(globalCode);
    var facts := AfterRounds(flows, MAX_ROUNDS, first);
    RoundsKeep(flows, MAX_ROUNDS, first);
    GlobalStays(first, facts, globalCode);
    SettledCollects(cfgs, flows, facts, resolved);
    ResolvedAccessIsRight(cfgs, flows, facts, globalCode, resolved, run, k, i, env);
  }
}
