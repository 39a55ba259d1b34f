// A condition on the code alone under which the sites agree with the facts: every environment
// operand is a register that holds one thing throughout its function.
module EnvDirect {
  import opened CfgTypes
  import opened Invariants
  import opened EnvState
  import opened EnvFlow
  import opened EnvTracker
  import opened EnvRounds
  import opened EnvCollect
  import opened EnvMachine
  import opened EnvSound
  import opened EnvRuns

  // -------------------------------------------------------------- the condition

  predicate WritesReg(insn: EnvInsn, r: Reg) {
    match insn
    case CreateEnv(dst, _, _) => r == dst
    case GetOwnEnv(dst, _) => r == dst
    case GetEnvAbove(dst, _, _) => r == dst
    case GetClosureEnv(dst, _) => r == dst
    case LoadUndefined(dst) => r == dst
    case Move(dst, _) => r == dst
    case MakeClosure(dst, clobbered, _, _) => r == dst || r in clobbered
    case LoadSlot(dst, _, _) => r == dst
    case StoreSlot(_, _, _) => false
    case Other(writes) => r in writes
  }

  /** What an instruction writes whatever the registers and the facts: a creation site its
      node, LoadConstUndefined no environment. */
  function Fixed(insn: EnvInsn): Option<EnvValue> {
    match insn
    case CreateEnv(_, node, _) => Some(Env(node))
    case LoadUndefined(_) => Some(NoEnv)
    case _ => None
  }

  /** Every write of r in the function writes v. */
  ghost predicate Means(g: Flow, r: Reg, v: EnvValue) {
    forall b, k {:trigger g.code[b][k]} :: 0 <= b < |g.code| && 0 <= k < |g.code[b]| && WritesReg(g.code[b][k], r) ==> Fixed(g.code[b][k]) == Some(v)
  }

  predicate NoEnvWriter(insn: EnvInsn) {
    insn.LoadUndefined? || insn.MakeClosure? || insn.Other?
  }

  /** No write of r in the function writes an environment. */
  ghost predicate NeverEnv(g: Flow, r: Reg) {
    forall b, k {:trigger g.code[b][k]} :: 0 <= b < |g.code| && 0 <= k < |g.code[b]| && WritesReg(g.code[b][k], r) ==> NoEnvWriter(g.code[b][k])
  }

  ghost predicate WrittenBy(code: seq<EnvInsn>, k: nat, r: Reg) {
    exists j :: 0 <= j < k && j < |code| && WritesReg(code[j], r)
  }

  /** r is written earlier in the block, or in the entry block, which nothing protects. */
  ghost predicate Ready(g: Flow, b: nat, k: nat, r: Reg)
    requires WellFormed(g) && b < |g.code|
  {
    WrittenBy(g.code[b], k, r) || (b != g.entry && g.handlers[g.entry] == [] && WrittenBy(g.code[g.entry], |g.code[g.entry]|, r))
  }

  ghost predicate Direct(g: Flow, b: nat, k: nat, r: Reg, v: EnvValue)
    requires WellFormed(g) && b < |g.code|
  {
    Means(g, r, v) && Ready(g, b, k, r)
  }

  ghost predicate IsSite(flows: seq<Flow>, f: nat, b: nat, k: nat) {
    f < |flows| && b < |flows[f].code| && k < |flows[f].code[b]|
  }

  /** No store anywhere puts an environment in a slot of this number. */
  ghost predicate PlainSlot(flows: seq<Flow>, slot: Slot) {
    forall f: nat, b: nat, k: nat {:trigger IsSite(flows, f, b, k)} ::
      (IsSite(flows, f, b, k) && flows[f].code[b][k].StoreSlot? && flows[f].code[b][k].slot == slot) ==> NeverEnv(flows[f], flows[f].code[b][k].val)
  }

  /** An environment operand holds one thing; what a function captures is one thing. */
  ghost predicate SiteDirect(flows: seq<Flow>, capture: map<Fn, EnvValue>, f: nat, b: nat, k: nat)
    requires ModuleFormed(flows) && IsSite(flows, f, b, k)
  {
    var g := flows[f];
    match g.code[b][k]
    case CreateEnv(_, _, source) => source.InReg? ==> exists v :: Direct(g, b, k, source.reg, v)
    case MakeClosure(_, _, env, fn) => fn in capture && Direct(g, b, k, env, capture[fn])
    case StoreSlot(env, slot, _) => PlainSlot(flows, slot) || exists v :: Direct(g, b, k, env, v)
    case _ => true
  }

  ghost predicate SameNode(flows: seq<Flow>, f: nat, b: nat, k: nat, f': nat, b': nat, k': nat) {
    && IsSite(flows, f, b, k) && IsSite(flows, f', b', k') && flows[f].code[b][k].CreateEnv? && flows[f'].code[b'][k'].CreateEnv?
    && flows[f].code[b][k].node == flows[f'].code[b'][k'].node
  }

  /** Every creation site has a node of its own. */
  ghost predicate SitesDistinct(flows: seq<Flow>) {
    forall f: nat, b: nat, k: nat, f': nat, b': nat, k': nat {:trigger SameNode(flows, f, b, k, f', b', k')} ::
      SameNode(flows, f, b, k, f', b', k') ==> f == f' && b == b' && k == k'
  }

  ghost predicate ModuleDirect(flows: seq<Flow>, globalCode: Fn, capture: map<Fn, EnvValue>) {
    && ModuleFormed(flows) && SitesDistinct(flows) && (globalCode in capture ==> capture[globalCode] == NoEnv)
    && forall f: nat, b: nat, k: nat {:trigger IsSite(flows, f, b, k)} :: IsSite(flows, f, b, k) ==> SiteDirect(flows, capture, f, b, k)
  }

  // ------------------------------------------------------ what every state keeps

  /** Registers that mean one thing hold it or are unwritten; some never hold an environment. */
  ghost predicate StateOk(g: Flow, s: State) {
    && (forall r, v {:trigger Means(g, r, v)} :: Means(g, r, v) && r in s ==> s[r] == v)
    && (forall r {:trigger NeverEnv(g, r)} :: NeverEnv(g, r) && r in s ==> !s[r].Env?)
  }

  lemma TransferWrites(facts: Facts, self: Option<Option<Node>>, insn: EnvInsn, s: State, r: Reg)
    ensures var t := Transfer(facts, self, insn, s);
            if WritesReg(insn, r) then r in t && (Fixed(insn).Some? ==> t[r] == Fixed(insn).value) && (NoEnvWriter(insn) ==> !t[r].Env?)
            else (r in t <==> r in s) && (r in s ==> t[r] == s[r])
  {
    match insn
    case MakeClosure(_, clobbered, _, _) => ClobberGets(s, clobbered, r);
    case Other(writes) => ClobberGets(s, writes, r);
    case _ =>
  }

  lemma TransferOk(g: Flow, facts: Facts, self: Option<Option<Node>>, b: nat, k: nat, s: State)
    requires b < |g.code| && k < |g.code[b]| && StateOk(g, s)
    ensures StateOk(g, Transfer(facts, self, g.code[b][k], s))
  {
    var insn := g.code[b][k];
    var t := Transfer(facts, self, insn, s);
    forall r, v | Means(g, r, v) && r in t ensures t[r] == v { TransferWrites(facts, self, insn, s, r); }
    forall r | NeverEnv(g, r) && r in t ensures !t[r].Env? { TransferWrites(facts, self, insn, s, r); }
  }

  lemma MergeOk(g: Flow, a: State, b: State)
    requires StateOk(g, a) && StateOk(g, b)
    ensures StateOk(g, Merge(a, b))
  {
  }

  // ------------------------------------------------------- what the facts keep

  function ParentOf(v: EnvValue): Option<Node> {
    if v.Env? then Some(v.node) else None
  }

  ghost predicate ParentSays(g: Flow, facts: Facts, f: Fn, source: ParentSource, p: Option<Node>) {
    match source
    case Root => p == None
    case OwnEnv => SelfEnv(facts, f) == Some(p)
    case InReg(r) => forall v {:trigger Means(g, r, v)} :: Means(g, r, v) ==> p == ParentOf(v)
  }

  ghost predicate ParentsOk(flows: seq<Flow>, facts: Facts) {
    forall f: nat, b: nat, k: nat {:trigger IsSite(flows, f, b, k)} ::
      (IsSite(flows, f, b, k) && flows[f].code[b][k].CreateEnv? && flows[f].code[b][k].node in facts.parent) ==> ParentSays(flows[f], facts, f, flows[f].code[b][k].source, facts.parent[flows[f].code[b][k].node])
  }

  ghost predicate CapturesOk(facts: Facts, globalCode: Fn, capture: map<Fn, EnvValue>) {
    && (forall fn {:trigger fn in facts.closureEnv} :: fn in facts.closureEnv ==>
          if facts.closureEnv[fn].Some? then fn in capture && capture[fn] == Env(facts.closureEnv[fn].value) else fn == globalCode)
    && (forall fn {:trigger fn in facts.noEnv} :: fn in facts.noEnv ==> fn in capture && capture[fn] == NoEnv)
  }

  ghost predicate SlotsOk(flows: seq<Flow>, facts: Facts) {
    forall key {:trigger facts.slotEnv[key]} :: key in facts.slotEnv && facts.slotEnv[key].Holds? ==> !PlainSlot(flows, key.1)
  }

  ghost predicate FactsOk(flows: seq<Flow>, globalCode: Fn, capture: map<Fn, EnvValue>, facts: Facts) {
    CapturesOk(facts, globalCode, capture) && ParentsOk(flows, facts) && SlotsOk(flows, facts)
  }

  /** A function's own environment, once known, stays what it is. */
  lemma SelfKept(globalCode: Fn, capture: map<Fn, EnvValue>, a: Facts, b: Facts, f: Fn)
    requires FactsLe(a, b) && CapturesOk(b, globalCode, capture) && SelfEnv(a, f).Some?
    ensures SelfEnv(b, f) == SelfEnv(a, f)
  {
    if f !in a.closureEnv { assert f in a.noEnv && f in b.noEnv; }
  }

  lemma ParentsKept(flows: seq<Flow>, globalCode: Fn, capture: map<Fn, EnvValue>, a: Facts, b: Facts)
    requires FactsLe(a, b) && CapturesOk(b, globalCode, capture) && ParentsOk(flows, a) && b.parent == a.parent
    ensures ParentsOk(flows, b)
  {
    forall f: nat, x: nat, k: nat | IsSite(flows, f, x, k) && flows[f].code[x][k].CreateEnv? && flows[f].code[x][k].node in b.parent
      ensures ParentSays(flows[f], b, f, flows[f].code[x][k].source, b.parent[flows[f].code[x][k].node])
    {
      if flows[f].code[x][k].source.OwnEnv? { SelfKept(globalCode, capture, a, b, f); }
    }
  }

  ghost predicate SelfNow(facts: Facts, f: Fn, self: Option<Option<Node>>) {
    self.Some? ==> SelfEnv(facts, f) == self
  }

  /** The parent a creation site supplies is the one its source says. */
  lemma SuppliedSays(g: Flow, facts: Facts, f: Fn, self: Option<Option<Node>>, source: ParentSource, s: State)
    requires StateOk(g, s) && SelfNow(facts, f, self) && SuppliedParent(self, source, s).Some?
    ensures ParentSays(g, facts, f, source, SuppliedParent(self, source, s).value)
  {
    if source.InReg? {
      forall v | Means(g, source.reg, v) ensures SuppliedParent(self, source, s).value == ParentOf(v) { assert source.reg in s; }
    }
  }

  lemma LearnParent(flows: seq<Flow>, globalCode: Fn, capture: map<Fn, EnvValue>, facts: Facts, f: nat, b: nat, k: nat, self: Option<Option<Node>>, s: State)
    requires ModuleDirect(flows, globalCode, capture) && IsSite(flows, f, b, k) && flows[f].code[b][k].CreateEnv?
    requires FactsOk(flows, globalCode, capture, facts) && StateOk(flows[f], s) && SelfNow(facts, f, self)
    ensures FactsOk(flows, globalCode, capture, Learn(facts, self, flows[f].code[b][k], s))
  {
    var insn := flows[f].code[b][k];
    var now := Learn(facts, self, insn, s);
    if now != facts { SuppliedSays(flows[f], facts, f, self, insn.source, s); }
    forall f': nat, b': nat, k': nat | IsSite(flows, f', b', k') && flows[f'].code[b'][k'].CreateEnv? && flows[f'].code[b'][k'].node in now.parent
      ensures ParentSays(flows[f'], now, f', flows[f'].code[b'][k'].source, now.parent[flows[f'].code[b'][k'].node])
    {
      if flows[f'].code[b'][k'].node == insn.node {
        assert SameNode(flows, f, b, k, f', b', k');
      }
    }
  }

  lemma LearnCapture(flows: seq<Flow>, globalCode: Fn, capture: map<Fn, EnvValue>, facts: Facts, f: nat, b: nat, k: nat, self: Option<Option<Node>>, s: State)
    requires ModuleDirect(flows, globalCode, capture) && IsSite(flows, f, b, k) && flows[f].code[b][k].MakeClosure?
    requires FactsOk(flows, globalCode, capture, facts) && StateOk(flows[f], s)
    ensures FactsOk(flows, globalCode, capture, Learn(facts, self, flows[f].code[b][k], s))
  {
    var insn := flows[f].code[b][k];
    var now := Learn(facts, self, insn, s);
    assert SiteDirect(flows, capture, f, b, k);
    assert Means(flows[f], insn.env, capture[insn.fn]);
    assert CapturesOk(now, globalCode, capture);
    LearnAscends(facts, self, insn, s);
    ParentsKept(flows, globalCode, capture, facts, now);
  }

  lemma LearnSlot(flows: seq<Flow>, globalCode: Fn, capture: map<Fn, EnvValue>, facts: Facts, f: nat, b: nat, k: nat, self: Option<Option<Node>>, s: State)
    requires ModuleDirect(flows, globalCode, capture) && IsSite(flows, f, b, k) && flows[f].code[b][k].StoreSlot?
    requires FactsOk(flows, globalCode, capture, facts) && StateOk(flows[f], s)
    ensures FactsOk(flows, globalCode, capture, Learn(facts, self, flows[f].code[b][k], s))
  {
    var insn := flows[f].code[b][k];
    var now := Learn(facts, self, insn, s);
    assert PlainSlot(flows, insn.slot) ==> NeverEnv(flows[f], insn.val);
    assert SlotsOk(flows, now);
    LearnAscends(facts, self, insn, s);
    ParentsKept(flows, globalCode, capture, facts, now);
  }

  lemma LearnOk(flows: seq<Flow>, globalCode: Fn, capture: map<Fn, EnvValue>, facts: Facts, f: nat, b: nat, k: nat, self: Option<Option<Node>>, s: State)
    requires ModuleDirect(flows, globalCode, capture) && IsSite(flows, f, b, k)
    requires FactsOk(flows, globalCode, capture, facts) && StateOk(flows[f], s) && SelfNow(facts, f, self)
    ensures FactsOk(flows, globalCode, capture, Learn(facts, self, flows[f].code[b][k], s))
    ensures SelfNow(Learn(facts, self, flows[f].code[b][k], s), f, self)
  {
    var insn := flows[f].code[b][k];
    match insn
    {
      case CreateEnv(_, _, _) => LearnParent(flows, globalCode, capture, facts, f, b, k, self, s);
      case MakeClosure(_, _, _, _) => LearnCapture(flows, globalCode, capture, facts, f, b, k, self, s);
      case StoreSlot(_, _, _) => LearnSlot(flows, globalCode, capture, facts, f, b, k, self, s);
      case _ =>
    }
    if self.Some? {
      LearnAscends(facts, self, insn, s);
      SelfKept(globalCode, capture, facts, Learn(facts, self, insn, s), f);
    }
  }

  // ----------------------------------------------------- what the worklist keeps

  ghost predicate FlowEdge(g: Flow, a: nat, b: nat)
    requires WellFormed(g)
  {
    a < |g.code| && (b in g.succs[a] || b in g.handlers[a] || b in g.resumes[a])
  }

  ghost predicate FlowPath(g: Flow, w: seq<nat>)
    requires WellFormed(g)
  {
    && |w| > 0
    && if |w| == 1 then w[0] == g.entry else FlowPath(g, w[..|w| - 1]) && FlowEdge(g, w[|w| - 2], w[|w| - 1])
  }

  ghost predicate FlowReaches(g: Flow, b: nat)
    requires WellFormed(g)
  {
    exists w :: FlowPath(g, w) && Last(w, b)
  }

  lemma FlowReachesNext(g: Flow, a: nat, b: nat)
    requires WellFormed(g) && FlowReaches(g, a) && FlowEdge(g, a, b)
    ensures FlowReaches(g, b)
  {
    var w :| FlowPath(g, w) && Last(w, a);
    var v := w + [b];
    assert v[..|v| - 1] == w;
    assert FlowPath(g, v) && Last(v, b);
  }

  /** The initial order holds only blocks that edges lead to. */
  ghost predicate OrderReached(g: Flow)
    requires WellFormed(g)
  {
    forall b: nat {:trigger b in g.rpo} :: b in g.rpo ==> FlowReaches(g, b)
  }

  ghost predicate EntryOk(g: Flow, w: Work, b: nat)
    requires WellFormed(g) && b < |w.entry|
  {
    StateOk(g, w.entry[b]) && (w.entry[b] != map[] ==> FlowReaches(g, b))
  }

  ghost predicate EntriesOk(g: Flow, w: Work)
    requires WellFormed(g)
  {
    && (forall b: nat {:trigger EntryOk(g, w, b)} :: b < |w.entry| ==> EntryOk(g, w, b))
    && (forall j {:trigger w.queue[j]} :: 0 <= j < |w.queue| ==> FlowReaches(g, w.queue[j]))
  }

  ghost predicate AllReached(g: Flow, ts: seq<nat>)
    requires WellFormed(g)
  {
    forall j {:trigger ts[j]} :: 0 <= j < |ts| ==> FlowReaches(g, ts[j])
  }

  lemma AbsorbOk(g: Flow, w: Work, t: nat, s: State)
    requires WellFormed(g) && t < |w.entry| && EntriesOk(g, w) && StateOk(g, s) && FlowReaches(g, t)
    ensures EntriesOk(g, Absorb(w, t, s))
  {
    assert EntryOk(g, w, t);
    MergeOk(g, w.entry[t], s);
    var v := Absorb(w, t, s);
    forall b: nat | b < |v.entry| ensures EntryOk(g, v, b) { assert EntryOk(g, w, b); }
  }

  lemma {:induction false} AbsorbAllOk(g: Flow, w: Work, ts: seq<nat>, s: State)
    requires WellFormed(g) && Within(ts, |w.entry|) && EntriesOk(g, w) && StateOk(g, s) && AllReached(g, ts)
    ensures EntriesOk(g, AbsorbAll(w, ts, s))
    decreases |ts|
  {
    if ts != [] {
      AbsorbAllOk(g, w, ts[..|ts| - 1], s);
      AbsorbOk(g, AbsorbAll(w, ts[..|ts| - 1], s), ts[|ts| - 1], s);
    }
  }

  lemma SuccessorsReached(g: Flow, b: nat)
    requires WellFormed(g) && b < |g.code| && FlowReaches(g, b)
    ensures AllReached(g, g.succs[b]) && AllReached(g, g.handlers[b]) && AllReached(g, g.resumes[b])
  {
    forall j | 0 <= j < |g.succs[b]| ensures FlowReaches(g, g.succs[b][j]) { FlowReachesNext(g, b, g.succs[b][j]); }
    forall j | 0 <= j < |g.handlers[b]| ensures FlowReaches(g, g.handlers[b][j]) { FlowReachesNext(g, b, g.handlers[b][j]); }
    forall j | 0 <= j < |g.resumes[b]| ensures FlowReaches(g, g.resumes[b][j]) { FlowReachesNext(g, b, g.resumes[b][j]); }
  }

  ghost predicate WorkOk(flows: seq<Flow>, globalCode: Fn, capture: map<Fn, EnvValue>, f: nat, self: Option<Option<Node>>, w: Work) {
    && ModuleFormed(flows) && f < |flows| && Fits(w, |flows[f].code|)
    && FactsOk(flows, globalCode, capture, w.facts) && SelfNow(w.facts, f, self) && EntriesOk(flows[f], w)
  }

  /** The state a walk is in, and the registers it holds. */
  ghost predicate WalkingOk(flows: seq<Flow>, globalCode: Fn, capture: map<Fn, EnvValue>, f: nat, self: Option<Option<Node>>, r: (Work, State)) {
    WorkOk(flows, globalCode, capture, f, self, r.0) && StateOk(flows[f], r.1)
  }

  lemma WalkStartOk(flows: seq<Flow>, globalCode: Fn, capture: map<Fn, EnvValue>, f: nat, self: Option<Option<Node>>, w: Work, b: nat)
    requires WorkOk(flows, globalCode, capture, f, self, w) && b < |flows[f].code| && FlowReaches(flows[f], b)
    ensures WalkingOk(flows, globalCode, capture, f, self, (AbsorbAll(w, flows[f].handlers[b], w.entry[b]), w.entry[b]))
  {
    SuccessorsReached(flows[f], b);
    assert EntryOk(flows[f], w, b);
    AbsorbAllOk(flows[f], w, flows[f].handlers[b], w.entry[b]);
  }

  lemma WalkStepOk(flows: seq<Flow>, globalCode: Fn, capture: map<Fn, EnvValue>, f: nat, self: Option<Option<Node>>, v: Work, s: State, b: nat, k: nat)
    requires ModuleDirect(flows, globalCode, capture) && WalkingOk(flows, globalCode, capture, f, self, (v, s))
    requires IsSite(flows, f, b, k) && FlowReaches(flows[f], b)
    ensures var insn := flows[f].code[b][k];
            var s' := Transfer(v.facts, self, insn, s);
            WalkingOk(flows, globalCode, capture, f, self, (AbsorbAll(v.(facts := Learn(v.facts, self, insn, s)), flows[f].handlers[b], s'), s'))
  {
    var insn := flows[f].code[b][k];
    SuccessorsReached(flows[f], b);
    LearnOk(flows, globalCode, capture, v.facts, f, b, k, self, s);
    TransferOk(flows[f], v.facts, self, b, k, s);
    var u := v.(facts := Learn(v.facts, self, insn, s));
    forall x: nat | x < |u.entry| ensures EntryOk(flows[f], u, x) { assert EntryOk(flows[f], v, x); }
    AbsorbAllOk(flows[f], u, flows[f].handlers[b], Transfer(v.facts, self, insn, s));
  }

  lemma WalkUnfolds(g: Flow, self: Option<Option<Node>>, w: Work, b: nat, k: nat, r: (Work, State))
    requires WellFormed(g) && Fits(w, |g.code|) && b < |g.code| && k < |g.code[b]| && r == Walk(g, self, w, b, k)
    ensures var s' := Transfer(r.0.facts, self, g.code[b][k], r.1);
            Walk(g, self, w, b, k + 1) == (AbsorbAll(r.0.(facts := Learn(r.0.facts, self, g.code[b][k], r.1)), g.handlers[b], s'), s')
  {
  }

  lemma VisitUnfolds(g: Flow, self: Option<Option<Node>>, w: Work, w1: Work, b: nat, r: (Work, State))
    requires WellFormed(g) && Fits(w, |g.code|) && w.queue != [] && b == w.queue[0] < |g.code|
    requires w1 == w.(queue := w.queue[1..], visits := w.visits + 1) && r == Walk(g, self, w1, b, |g.code[b]|)
    ensures Visit(g, self, w) == Leave(g, r.0, b, r.1)
  {
  }

  lemma WalkNextOk(flows: seq<Flow>, globalCode: Fn, capture: map<Fn, EnvValue>, f: nat, self: Option<Option<Node>>, w: Work, b: nat, k: nat)
    requires ModuleDirect(flows, globalCode, capture) && IsSite(flows, f, b, k) && FlowReaches(flows[f], b) && Fits(w, |flows[f].code|)
    requires WalkingOk(flows, globalCode, capture, f, self, Walk(flows[f], self, w, b, k))
    ensures WalkingOk(flows, globalCode, capture, f, self, Walk(flows[f], self, w, b, k + 1))
  {
    var r := Walk(flows[f], self, w, b, k);
    WalkStepOk(flows, globalCode, capture, f, self, r.0, r.1, b, k);
    WalkUnfolds(flows[f], self, w, b, k, r);
  }

  lemma WalkOk(flows: seq<Flow>, globalCode: Fn, capture: map<Fn, EnvValue>, f: nat, self: Option<Option<Node>>, w: Work, b: nat, n: nat)
    requires ModuleDirect(flows, globalCode, capture) && WorkOk(flows, globalCode, capture, f, self, w)
    requires b < |flows[f].code| && n <= |flows[f].code[b]| && FlowReaches(flows[f], b)
    ensures WalkingOk(flows, globalCode, capture, f, self, Walk(flows[f], self, w, b, n))
  {
    WalkStartOk(flows, globalCode, capture, f, self, w, b);
    for k := 0 to n
      invariant WalkingOk(flows, globalCode, capture, f, self, Walk(flows[f], self, w, b, k))
    {
      WalkNextOk(flows, globalCode, capture, f, self, w, b, k);
    }
  }

  lemma LeaveOk(g: Flow, w: Work, b: nat, s: State)
    requires WellFormed(g) && Fits(w, |g.code|) && b < |g.code| && EntriesOk(g, w) && StateOk(g, s) && FlowReaches(g, b)
    ensures EntriesOk(g, Leave(g, w, b, s))
  {
    SuccessorsReached(g, b);
    var v := w.(exit := w.exit[b := s]);
    forall x: nat | x < |v.entry| ensures EntryOk(g, v, x) { assert EntryOk(g, w, x); }
    AbsorbAllOk(g, v, g.succs[b], s);
    AbsorbAllOk(g, AbsorbAll(v, g.succs[b], s), g.resumes[b], s);
  }

  lemma LeavingOk(flows: seq<Flow>, globalCode: Fn, capture: map<Fn, EnvValue>, f: nat, self: Option<Option<Node>>, r: (Work, State), b: nat)
    requires WalkingOk(flows, globalCode, capture, f, self, r) && b < |flows[f].code| && FlowReaches(flows[f], b)
    ensures WorkOk(flows, globalCode, capture, f, self, Leave(flows[f], r.0, b, r.1))
  {
    LeaveOk(flows[f], r.0, b, r.1);
  }

  lemma DequeueOk(g: Flow, w: Work, w1: Work)
    requires WellFormed(g) && EntriesOk(g, w) && w.queue != [] && w1.queue == w.queue[1..] && w1.entry == w.entry
    ensures EntriesOk(g, w1) && FlowReaches(g, w.queue[0])
  {
    forall j | 0 <= j < |w1.queue| ensures FlowReaches(g, w1.queue[j]) { assert w1.queue[j] == w.queue[j + 1]; }
    forall x: nat | x < |w1.entry| ensures EntryOk(g, w1, x) { assert EntryOk(g, w, x); }
  }

  lemma VisitOk(flows: seq<Flow>, globalCode: Fn, capture: map<Fn, EnvValue>, f: nat, self: Option<Option<Node>>, w: Work)
    requires ModuleDirect(flows, globalCode, capture) && WorkOk(flows, globalCode, capture, f, self, w)
    requires w.queue != [] && w.queue[0] < |flows[f].code|
    ensures WorkOk(flows, globalCode, capture, f, self, Visit(flows[f], self, w))
  {
    var g, b := flows[f], w.queue[0];
    var w1 := w.(queue := w.queue[1..], visits := w.visits + 1);
    DequeueOk(g, w, w1);
    WalkOk(flows, globalCode, capture, f, self, w1, b, |g.code[b]|);
    var r := Walk(g, self, w1, b, |g.code[b]|);
    LeavingOk(flows, globalCode, capture, f, self, r, b);
    VisitUnfolds(g, self, w, w1, b, r);
  }

  lemma {:induction false} DrainOk(flows: seq<Flow>, globalCode: Fn, capture: map<Fn, EnvValue>, f: nat, self: Option<Option<Node>>, start: Facts, w: Work)
    requires ModuleDirect(flows, globalCode, capture) && WorkOk(flows, globalCode, capture, f, self, w) && Inv(flows[f], self, start, w)
    ensures WorkOk(flows, globalCode, capture, f, self, Drain(flows[f], self, start, w))
    decreases Budget(flows[f]) - w.visits
  {
    if w.queue != [] && w.visits < Budget(flows[f]) {
      VisitKeepsInv(flows[f], self, start, w);
      VisitOk(flows, globalCode, capture, f, self, w);
      DrainOk(flows, globalCode, capture, f, self, start, Visit(flows[f], self, w));
    }
  }

  ghost predicate OrdersReached(flows: seq<Flow>)
    requires ModuleFormed(flows)
  {
    forall f: nat {:trigger flows[f]} :: f < |flows| ==> OrderReached(flows[f])
  }

  lemma RunOk(flows: seq<Flow>, globalCode: Fn, capture: map<Fn, EnvValue>, f: nat, facts: Facts)
    requires ModuleDirect(flows, globalCode, capture) && OrdersReached(flows) && f < |flows| && FactsOk(flows, globalCode, capture, facts)
    ensures WorkOk(flows, globalCode, capture, f, SelfEnv(facts, f), RunFlow(flows[f], f, facts))
  {
    var g, self := flows[f], SelfEnv(facts, f);
    var w := Start(g, facts);
    StartIsRight(g, self, facts);
    forall j | 0 <= j < |w.queue| ensures FlowReaches(g, w.queue[j]) { assert w.queue[j] in g.rpo; }
    forall x: nat | x < |w.entry| ensures EntryOk(g, w, x) {}
    DrainOk(flows, globalCode, capture, f, self, facts, w);
  }

  lemma RoundOk(flows: seq<Flow>, globalCode: Fn, capture: map<Fn, EnvValue>, n: nat, facts: Facts)
    requires ModuleDirect(flows, globalCode, capture) && OrdersReached(flows) && n <= |flows| && FactsOk(flows, globalCode, capture, facts)
    ensures FactsOk(flows, globalCode, capture, AfterRound(flows, n, facts))
  {
    for i := 0 to n
      invariant FactsOk(flows, globalCode, capture, AfterRound(flows, i, facts))
    {
      RunOk(flows, globalCode, capture, i, AfterRound(flows, i, facts));
    }
  }

  lemma {:induction false} RoundsOk(flows: seq<Flow>, globalCode: Fn, capture: map<Fn, EnvValue>, cap: nat, facts: Facts)
    requires ModuleDirect(flows, globalCode, capture) && OrdersReached(flows) && FactsOk(flows, globalCode, capture, facts)
    ensures FactsOk(flows, globalCode, capture, AfterRounds(flows, cap, facts))
    decreases cap
  {
    var next := AfterRound(flows, |flows|, facts);
    if cap > 0 && next != facts {
      RoundOk(flows, globalCode, capture, |flows|, facts);
      RoundsOk(flows, globalCode, capture, cap - 1, next);
    }
  }

  // ---------------------------------------- where operands are known at the end

  lemma {:induction false} OutHas(facts: Facts, self: Option<Option<Node>>, code: seq<EnvInsn>, s: State, k: nat, r: Reg)
    requires k <= |code|
    ensures r in s || WrittenBy(code, k, r) ==> r in Out(facts, self, code, s, k)
    decreases k
  {
    if k > 0 {
      OutHas(facts, self, code, s, k - 1, r);
      TransferWrites(facts, self, code[k - 1], Out(facts, self, code, s, k - 1), r);
    }
  }

  lemma {:induction false} OutOk(g: Flow, facts: Facts, self: Option<Option<Node>>, b: nat, s: State, k: nat)
    requires b < |g.code| && k <= |g.code[b]| && StateOk(g, s)
    ensures StateOk(g, Out(facts, self, g.code[b], s, k))
    decreases k
  {
    if k > 0 {
      OutOk(g, facts, self, b, s, k - 1);
      TransferOk(g, facts, self, b, k - 1, Out(facts, self, g.code[b], s, k - 1));
    }
  }

  lemma AboveHas(entry: seq<State>, ts: seq<nat>, s: State, t: nat, r: Reg)
    requires Within(ts, |entry|) && AllAbove(entry, ts, s) && t in ts && r in s
    ensures t < |entry| && r in entry[t]
  {
    var j :| 0 <= j < |ts| && ts[j] == t;
    assert Below(s, entry[ts[j]]);
  }

  /** An edge out of a block that has r passes it on; out of the entry block, one that writes r. */
  lemma EdgeHas(g: Flow, facts: Facts, self: Option<Option<Node>>, entry: seq<State>, a: nat, b: nat, r: Reg)
    requires PostFix(g, self, facts, entry) && a < |g.code| && Live(g, entry, a) && FlowEdge(g, a, b)
    requires r in entry[a] || (g.handlers[a] == [] && WrittenBy(g.code[a], |g.code[a]|, r))
    ensures b < |entry| && r in entry[b]
  {
    assert Settled(g, self, facts, entry, a);
    var n := |g.code[a]|;
    OutHas(facts, self, g.code[a], entry[a], n, r);
    var s := Out(facts, self, g.code[a], entry[a], n);
    if b in g.succs[a] { AboveHas(entry, g.succs[a], s, b, r); }
    else if b in g.resumes[a] { AboveHas(entry, g.resumes[a], s, b, r); }
    else {
      assert AllAbove(entry, g.handlers[a], s);
      AboveHas(entry, g.handlers[a], s, b, r);
    }
  }

  lemma {:induction false} PathHas(g: Flow, facts: Facts, self: Option<Option<Node>>, entry: seq<State>, w: seq<nat>, r: Reg)
    requires PostFix(g, self, facts, entry) && FlowPath(g, w) && w[|w| - 1] != g.entry
    requires g.handlers[g.entry] == [] && WrittenBy(g.code[g.entry], |g.code[g.entry]|, r)
    ensures w[|w| - 1] < |entry| && r in entry[w[|w| - 1]]
    decreases |w|
  {
    var a := w[|w| - 2];
    if a != g.entry { PathHas(g, facts, self, entry, w[..|w| - 1], r); }
    EdgeHas(g, facts, self, entry, a, w[|w| - 1], r);
  }

  /** At a site of a visited block, a direct operand is tracked as what it means. */
  lemma OperandExact(g: Flow, facts: Facts, self: Option<Option<Node>>, entry: seq<State>, b: nat, k: nat, r: Reg, v: EnvValue)
    requires PostFix(g, self, facts, entry) && b < |g.code| && k <= |g.code[b]| && Direct(g, b, k, r, v)
    requires StateOk(g, entry[b]) && FlowReaches(g, b)
    ensures Get(Out(facts, self, g.code[b], entry[b], k), r) == v && (v.Env? || v.NoEnv?)
  {
    if !WrittenBy(g.code[b], k, r) {
      var w :| FlowPath(g, w) && Last(w, b);
      PathHas(g, facts, self, entry, w, r);
    }
    OutHas(facts, self, g.code[b], entry[b], k, r);
    OutOk(g, facts, self, b, entry[b], k);
    WriterMeans(g, b, k, r, v);
  }

  lemma WriterMeans(g: Flow, b: nat, k: nat, r: Reg, v: EnvValue)
    requires WellFormed(g) && b < |g.code| && Direct(g, b, k, r, v)
    ensures v.Env? || v.NoEnv?
  {
    if WrittenBy(g.code[b], k, r) {
      var j :| 0 <= j < k && j < |g.code[b]| && WritesReg(g.code[b][j], r);
      assert Fixed(g.code[b][j]) == Some(v);
    } else {
      var j :| 0 <= j < |g.code[g.entry]| && WritesReg(g.code[g.entry][j], r);
      assert Fixed(g.code[g.entry][j]) == Some(v);
    }
  }

  // ------------------------------------------------------------------ the result

  lemma SiteAgrees(flows: seq<Flow>, globalCode: Fn, capture: map<Fn, EnvValue>, facts: Facts, entry: seq<State>, f: nat, b: nat, k: nat)
    requires ModuleDirect(flows, globalCode, capture) && FactsOk(flows, globalCode, capture, facts) && IsSite(flows, f, b, k)
    requires PostFix(flows[f], SelfEnv(facts, f), facts, entry) && StateOk(flows[f], entry[b]) && FlowReaches(flows[f], b)
    ensures Agrees(facts, SelfEnv(facts, f), flows[f].code[b][k], Out(facts, SelfEnv(facts, f), flows[f].code[b], entry[b], k))
  {
    var g, self := flows[f], SelfEnv(facts, f);
    assert SiteDirect(flows, capture, f, b, k);
    match g.code[b][k]
    case CreateEnv(_, node, source) =>
      if source.InReg? {
        var v :| Direct(g, b, k, source.reg, v);
        OperandExact(g, facts, self, entry, b, k, source.reg, v);
      }
    case MakeClosure(_, _, env, fn) => OperandExact(g, facts, self, entry, b, k, env, capture[fn]);
    case StoreSlot(env, slot, _) =>
      if !PlainSlot(flows, slot) {
        var v :| Direct(g, b, k, env, v);
        OperandExact(g, facts, self, entry, b, k, env, v);
      }
    case _ =>
  }

  lemma FirstFactsOk(flows: seq<Flow>, globalCode: Fn, capture: map<Fn, EnvValue>)
    ensures FactsOk(flows, globalCode, capture, FirstFacts(globalCode))
  {
  }

  /** If every environment operand is direct, the sites agree with the settled facts. */
  lemma DirectSitesAgree(flows: seq<Flow>, globalCode: Fn, capture: map<Fn, EnvValue>, facts: Facts)
    requires ModuleDirect(flows, globalCode, capture) && OrdersReached(flows)
    requires facts == AfterRounds(flows, MAX_ROUNDS, FirstFacts(globalCode)) && Solved(flows, facts)
    ensures SitesAgree(flows, facts, Entries(flows, facts))
  {
    var E := Entries(flows, facts);
    FirstFactsOk(flows, globalCode, capture);
    RoundsOk(flows, globalCode, capture, MAX_ROUNDS, FirstFacts(globalCode));
    forall f: nat, b: nat, k: nat | f < |flows| && b < |flows[f].code| && Live(flows[f], E[f], b) && k < |flows[f].code[b]|
      ensures Agrees(facts, SelfEnv(facts, f), flows[f].code[b][k], Out(facts, SelfEnv(facts, f), flows[f].code[b], E[f][b], k))
    {
      RunOk(flows, globalCode, capture, f, facts);
      assert EntryOk(flows[f], RunFlow(flows[f], f, facts), b);
      assert PostFix(flows[f], SelfEnv(facts, f), facts, E[f]);
      SiteAgrees(flows, globalCode, capture, facts, E[f], f, b, k);
    }
  }

  /** From the code alone, once the rounds settle and the worklists drain: with direct operands
      and protected blocks that write a register, every resolved access is right in every run. */
  lemma DirectAccessIsRight(cfgs: seq<FunctionCfg>, flows: seq<Flow>, globalCode: Fn, capture: map<Fn, EnvValue>, resolved: map<Site, Node>,
                            run: seq<Machine>, k: nat, i: nat, env: Reg)
    requires ModuleDirect(flows, globalCode, capture) && OrdersReached(flows) && CfgsOf(cfgs, flows)
    requires forall f: nat {:trigger flows[f]} :: f < |flows| ==> OrderClosed(flows[f]) && ProtectedBlocksWrite(flows[f])
    requires var facts := AfterRounds(flows, MAX_ROUNDS, FirstFacts(globalCode));
             CollectedAs(cfgs, flows, facts, resolved) && Stable(flows, facts, |flows|) && Drained(flows, facts)
    requires IsRun(flows, globalCode, run) && k < |run| && i < |run[k].frames| && AboutToAccess(flows, run[k].frames[i], env)
    ensures var fr, heap := run[k].frames[i], run[k].heap;
      (fr.fn, fr.block, fr.pc) in resolved && Address(Read(fr.regs, env), heap).Some? ==>
        MadeAt(heap, Read(fr.regs, env).at, resolved[(fr.fn, fr.block, fr.pc)])
  {
    var facts := AfterRounds(flows, MAX_ROUNDS, FirstFacts(globalCode));
    forall f: nat | f < |flows| ensures Covered(flows[f], Entry(flows, facts, f)) {
      DrainedIsPostFix(flows[f], f, facts);
      WritesCover(flows[f], SelfEnv(facts, f), facts, Entry(flows, facts, f));
    }
    DirectSitesAgree(flows, globalCode, capture, facts);
    BuiltAccessIsRight(cfgs, flows, globalCode, resolved, run, k, i, env);
  }
}
