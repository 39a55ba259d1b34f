// What the environment tracker misses nothing of: register by register, what an instruction
// leaves by what is recorded, and, access by access, which write in the block its node goes
// back to.
module EnvTraces {
  import opened CfgTypes
  import opened Invariants
  import opened EnvState
  import opened EnvFlow
  import opened EnvRounds
  import opened EnvCollect
  import opened EnvSound
  import opened EnvConflicts
  import opened EnvDirect

  // ------------------------------------------------------------------ recorded parents

  ghost predicate IsParent(facts: Facts, n: Node, m: Node) {
    n in facts.parent && facts.parent[n] == Some(m)
  }

  ghost predicate Ancestry(facts: Facts, c: seq<Node>) {
    |c| > 0 && forall i {:trigger c[i]} :: 0 < i < |c| ==> IsParent(facts, c[i - 1], c[i])
  }

  /** m is recorded `levels` parents above n. */
  ghost predicate Above(facts: Facts, n: Node, levels: nat, m: Node) {
    exists c :: Ancestry(facts, c) && |c| == levels + 1 && c[0] == n && c[levels] == m
  }

  lemma AboveNext(facts: Facts, n: Node, levels: nat, m: Node)
    requires levels > 0
    ensures Above(facts, n, levels, m) <==> n in facts.parent && facts.parent[n].Some? && Above(facts, facts.parent[n].value, levels - 1, m)
  {
    if Above(facts, n, levels, m) {
      var c :| Ancestry(facts, c) && |c| == levels + 1 && c[0] == n && c[levels] == m;
      assert IsParent(facts, c[0], c[1]);
      var d := c[1..];
      forall i | 0 < i < |d| ensures IsParent(facts, d[i - 1], d[i]) { assert d[i] == c[i + 1]; }
      assert Ancestry(facts, d) && d[levels - 1] == m;
    }
    if n in facts.parent && facts.parent[n].Some? && Above(facts, facts.parent[n].value, levels - 1, m) {
      var d :| Ancestry(facts, d) && |d| == levels && d[0] == facts.parent[n].value && d[levels - 1] == m;
      var c := [n] + d;
      forall i | 0 < i < |c| ensures IsParent(facts, c[i - 1], c[i]) { if i > 1 { assert d[i - 1] == c[i]; } }
      assert Ancestry(facts, c) && c[levels] == m;
    }
  }

  /** Walking up finds exactly what is recorded there. */
  lemma {:induction false} WalkUpIff(facts: Facts, n: Node, levels: nat, m: Node)
    ensures WalkUp(facts, Some(n), levels) == Env(m) <==> Above(facts, n, levels, m)
    decreases levels
  {
    if levels == 0 {
      assert n == m ==> Ancestry(facts, [n]) && [n][0] == n;
    } else {
      AboveNext(facts, n, levels, m);
      if n in facts.parent && facts.parent[n].Some? { WalkUpIff(facts, facts.parent[n].value, levels - 1, m); }
    }
  }

  lemma {:induction false} WalkUpKinds(facts: Facts, start: Option<Node>, levels: nat)
    ensures WalkUp(facts, start, levels).Env? || WalkUp(facts, start, levels).Unknown?
    decreases levels
  {
    if start.Some? && levels > 0 { WalkUpKinds(facts, if start.value in facts.parent then facts.parent[start.value] else None, levels - 1); }
  }

  // ------------------------------------------------------------- what is supplied, and left

  /** A creation site supplies a parent exactly when its source is known: nothing, the
      function's own environment, or what a register holds. */
  lemma SuppliedIff(self: Option<Option<Node>>, source: ParentSource, s: State, p: Option<Node>)
    ensures SuppliedParent(self, source, s) == Some(p) <==>
      || (source == Root && p == None)
      || (source == OwnEnv && self == Some(p))
      || exists r :: source == InReg(r) && r in s && s[r] == if p.Some? then Env(p.value) else NoEnv
  {
  }

  /** What a function captures is known when some site supplied an environment for it, or none. */
  lemma SelfIff(facts: Facts, f: Fn, e: Option<Node>)
    ensures SelfEnv(facts, f) == Some(e) <==>
      (f in facts.closureEnv && facts.closureEnv[f] == e) || (f !in facts.closureEnv && f in facts.noEnv && e == None)
  {
  }

  /** The instruction leaves an environment made at m in the register r it writes. */
  ghost predicate LeavesEnv(facts: Facts, self: Option<Option<Node>>, insn: EnvInsn, s: State, r: Reg, m: Node) {
    match insn
    case CreateEnv(_, node, _) => node == m
    case GetOwnEnv(_, levels) => exists n: Node :: self == Some(Some(n)) && Above(facts, n, levels, m)
    case GetEnvAbove(_, src, levels) => exists n: Node :: Get(s, src) == Env(n) && Above(facts, n, levels, m)
    case GetClosureEnv(_, src) => exists fn :: Get(s, src) == Closure(fn, Some(m))
    case Move(_, src) => Get(s, src) == Env(m)
    case LoadSlot(_, env, slot) => exists n: Node :: Get(s, env) == Env(n) && (n, slot) in facts.slotEnv && facts.slotEnv[(n, slot)] == Holds(m)
    case _ => false
  }

  /** ... a closure of fn that captures env. */
  ghost predicate LeavesClosure(insn: EnvInsn, s: State, r: Reg, fn: Fn, env: Option<Node>) {
    match insn
    case MakeClosure(dst, _, e, f) => r == dst && f == fn && if env.Some? then Get(s, e) == Env(env.value) else !Get(s, e).Env?
    case Move(_, src) => Get(s, src) == Closure(fn, env)
    case _ => false
  }

  /** ... or undefined. */
  predicate LeavesNone(insn: EnvInsn, s: State) {
    insn.LoadUndefined? || (insn.Move? && Get(s, insn.src) == NoEnv)
  }

  lemma EnvLeft(facts: Facts, self: Option<Option<Node>>, insn: EnvInsn, s: State, r: Reg, m: Node)
    requires WritesReg(insn, r)
    ensures Get(Transfer(facts, self, insn, s), r) == Env(m) <==> LeavesEnv(facts, self, insn, s, r, m)
  {
    match insn
    case GetOwnEnv(_, levels) => if Flat(self).Some? { WalkUpIff(facts, Flat(self).value, levels, m); }
    case GetEnvAbove(_, src, levels) => if Get(s, src).Env? { WalkUpIff(facts, Get(s, src).node, levels, m); }
    case MakeClosure(_, clobbered, _, _) => ClobberGets(s, clobbered, r);
    case Other(writes) => ClobberGets(s, writes, r);
    case _ =>
  }

  lemma ClosureLeft(facts: Facts, self: Option<Option<Node>>, insn: EnvInsn, s: State, r: Reg, fn: Fn, env: Option<Node>)
    requires WritesReg(insn, r)
    ensures Get(Transfer(facts, self, insn, s), r) == Closure(fn, env) <==> LeavesClosure(insn, s, r, fn, env)
  {
    match insn
    case GetOwnEnv(_, levels) => WalkUpKinds(facts, Flat(self), levels);
    case GetEnvAbove(_, src, levels) => if Get(s, src).Env? { WalkUpKinds(facts, Some(Get(s, src).node), levels); }
    case MakeClosure(_, clobbered, _, _) => ClobberGets(s, clobbered, r);
    case Other(writes) => ClobberGets(s, writes, r);
    case _ =>
  }

  lemma NoneLeft(facts: Facts, self: Option<Option<Node>>, insn: EnvInsn, s: State, r: Reg)
    requires WritesReg(insn, r)
    ensures Get(Transfer(facts, self, insn, s), r) == NoEnv <==> LeavesNone(insn, s)
  {
    match insn
    case GetOwnEnv(_, levels) => WalkUpKinds(facts, Flat(self), levels);
    case GetEnvAbove(_, src, levels) => if Get(s, src).Env? { WalkUpKinds(facts, Some(Get(s, src).node), levels); }
    case MakeClosure(_, clobbered, _, _) => ClobberGets(s, clobbered, r);
    case Other(writes) => ClobberGets(s, writes, r);
    case _ =>
  }

  // --------------------------------------------------------------- the last write in a block

  /** Instruction j is the last before k to write r. */
  ghost predicate LastWrite(code: seq<EnvInsn>, k: nat, j: nat, r: Reg) {
    j < k <= |code| && WritesReg(code[j], r) && forall i :: j < i < k ==> !WritesReg(code[i], r)
  }

  lemma {:induction false} KeptSince(facts: Facts, self: Option<Option<Node>>, code: seq<EnvInsn>, s: State, j: nat, k: nat, r: Reg)
    requires j <= k <= |code| && forall i :: j <= i < k ==> !WritesReg(code[i], r)
    ensures Get(Out(facts, self, code, s, k), r) == Get(Out(facts, self, code, s, j), r)
    decreases k
  {
    if j < k {
      KeptSince(facts, self, code, s, j, k - 1, r);
      TransferWrites(facts, self, code[k - 1], Out(facts, self, code, s, k - 1), r);
    }
  }

  /** What a register holds at k goes back to its last write. */
  lemma HeldIffLeft(facts: Facts, self: Option<Option<Node>>, code: seq<EnvInsn>, s: State, k: nat, j: nat, r: Reg, m: Node)
    requires LastWrite(code, k, j, r)
    ensures Get(Out(facts, self, code, s, k), r) == Env(m) <==> LeavesEnv(facts, self, code[j], Out(facts, self, code, s, j), r, m)
  {
    KeptSince(facts, self, code, s, j + 1, k, r);
    EnvLeft(facts, self, code[j], Out(facts, self, code, s, j), r, m);
  }

  predicate Accesses(insn: EnvInsn, env: Reg) {
    (insn.LoadSlot? && insn.env == env) || (insn.StoreSlot? && insn.env == env)
  }

  lemma SiteNodeIs(cfgs: seq<FunctionCfg>, flows: seq<Flow>, facts: Facts, f: nat, b: nat, k: nat)
    requires ModuleFormed(flows) && CfgsOf(cfgs, flows) && ReachableSite(cfgs, flows, f, b, k)
    ensures SiteNode(cfgs, flows, facts, (f, b, k)) == ResolvedIn(StateAt(flows, facts, f, b, k), flows[f].code[b][k])
  {
  }

  lemma TableSays(cfgs: seq<FunctionCfg>, flows: seq<Flow>, facts: Facts, resolved: map<Site, Node>, x: Site, m: Node)
    requires ModuleFormed(flows) && CfgsOf(cfgs, flows) && ResolvedAsTables(cfgs, flows, facts, resolved)
    ensures x in resolved && resolved[x] == m <==> SiteNode(cfgs, flows, facts, x) == Some(m)
  {
    assert x in resolved <==> SiteNode(cfgs, flows, facts, x).Some?;
  }

  lemma ResolvedIffHeld(cfgs: seq<FunctionCfg>, flows: seq<Flow>, facts: Facts, resolved: map<Site, Node>, f: nat, b: nat, k: nat, env: Reg, m: Node)
    requires Solved(flows, facts) && CfgsOf(cfgs, flows) && ResolvedAsTables(cfgs, flows, facts, resolved)
    requires ReachableSite(cfgs, flows, f, b, k) && Accesses(flows[f].code[b][k], env)
    ensures (f, b, k) in resolved && resolved[(f, b, k)] == m <==> Get(StateAt(flows, facts, f, b, k), env) == Env(m)
  {
    TableSays(cfgs, flows, facts, resolved, (f, b, k), m);
    SiteNodeIs(cfgs, flows, facts, f, b, k);
  }

  /** Of what the pass returns on settled tables: an access of a reachable block resolves to node
      m exactly when the last write of its register in the block leaves m there ... */
  lemma ResolvedIffLeft(cfgs: seq<FunctionCfg>, flows: seq<Flow>, facts: Facts, resolved: map<Site, Node>, f: nat, b: nat, k: nat, j: nat, env: Reg, m: Node)
    requires Solved(flows, facts) && CfgsOf(cfgs, flows) && ResolvedAsTables(cfgs, flows, facts, resolved)
    requires ReachableSite(cfgs, flows, f, b, k) && Accesses(flows[f].code[b][k], env) && LastWrite(flows[f].code[b], k, j, env)
    ensures (f, b, k) in resolved && resolved[(f, b, k)] == m <==>
      LeavesEnv(facts, SelfEnv(facts, f), flows[f].code[b][j], StateAt(flows, facts, f, b, j), env, m)
  {
    ResolvedIffHeld(cfgs, flows, facts, resolved, f, b, k, env, m);
    HeldIffLeft(facts, SelfEnv(facts, f), flows[f].code[b], Entry(flows, facts, f)[b], k, j, env, m);
  }

  /** ... or, without a write in the block, when the register enters it with m. */
  lemma ResolvedIffEntered(cfgs: seq<FunctionCfg>, flows: seq<Flow>, facts: Facts, resolved: map<Site, Node>, f: nat, b: nat, k: nat, env: Reg, m: Node)
    requires Solved(flows, facts) && CfgsOf(cfgs, flows) && ResolvedAsTables(cfgs, flows, facts, resolved)
    requires ReachableSite(cfgs, flows, f, b, k) && Accesses(flows[f].code[b][k], env) && forall j :: 0 <= j < k ==> !WritesReg(flows[f].code[b][j], env)
    ensures (f, b, k) in resolved && resolved[(f, b, k)] == m <==> Get(Entry(flows, facts, f)[b], env) == Env(m)
  {
    ResolvedIffHeld(cfgs, flows, facts, resolved, f, b, k, env, m);
    KeptSince(facts, SelfEnv(facts, f), flows[f].code[b], Entry(flows, facts, f)[b], 0, k, env);
  }
}
