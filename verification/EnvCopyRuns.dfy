// Functions created with several environments, in every run: what the tables say of such a
// function holds with the environments renamed as its copy renames them.
module EnvCopyRuns {
  import opened CfgTypes
  import opened Invariants
  import opened EnvState
  import opened EnvFlow
  import opened EnvTracker
  import opened EnvRounds
  import opened EnvCollect
  import opened EnvMachine
  import opened EnvSound
  import opened EnvRuns
  import opened EnvCopies

  // -------------------------------------------------- what a renamed claim means

  /** Environment a was made at what m makes of n, its parent at what m makes of n's recorded
      parent, and so on upwards. */
  ghost predicate Similar(facts: Facts, heap: Heap, m: Remap, n: Node, a: nat)
    decreases a
  {
    && a < |heap| && heap[a].node == Renamed(m, n)
    && (n in facts.parent ==>
          var p := facts.parent[n];
          if p.None? then heap[a].parent.None?
          else heap[a].parent.Some? && heap[a].parent.value < a && Similar(facts, heap, m, p.value, heap[a].parent.value))
  }

  ghost predicate OptionSimilar(facts: Facts, heap: Heap, m: Remap, claim: Option<Node>, a: Option<nat>) {
    if claim.Some? then a.Some? && Similar(facts, heap, m, claim.value, a.value) else a.None?
  }

  ghost predicate SelfSimilar(facts: Facts, heap: Heap, m: Remap, self: Option<Option<Node>>, a: Option<nat>) {
    self.Some? ==> OptionSimilar(facts, heap, m, self.value, a)
  }

  /** v is what the claim says, renamed, or was never written. */
  ghost predicate Fits(facts: Facts, heap: Heap, m: Remap, claim: EnvValue, v: Value) {
    v.Unwritten? ||
    match claim
    case Env(n) => v.EnvRef? && Similar(facts, heap, m, n, v.at)
    case Closure(fn, env) => v.Fun? && v.fn == fn && (env.Some? ==> v.env.Some? && Similar(facts, heap, m, env.value, v.env.value))
    case NoEnv => v.Undefined?
    case Unknown => true
  }

  ghost predicate AllFit(facts: Facts, heap: Heap, m: Remap, s: State, regs: Regs) {
    forall r {:trigger Read(regs, r)} :: Read(regs, r) != Unwritten ==> r in s && Fits(facts, heap, m, s[r], Read(regs, r))
  }

  lemma {:induction false} SimilarGrows(facts: Facts, h: Heap, h': Heap, m: Remap, n: Node, a: nat)
    requires HeapLe(h, h') && Similar(facts, h, m, n, a)
    ensures Similar(facts, h', m, n, a)
    decreases a
  {
    assert h'[a].node == h[a].node && h'[a].parent == h[a].parent;
    if n in facts.parent && facts.parent[n].Some? { SimilarGrows(facts, h, h', m, facts.parent[n].value, h[a].parent.value); }
  }

  lemma FitsGrow(facts: Facts, h: Heap, h': Heap, m: Remap, claim: EnvValue, v: Value)
    requires HeapLe(h, h') && Fits(facts, h, m, claim, v)
    ensures Fits(facts, h', m, claim, v)
  {
    if v.EnvRef? && claim.Env? { SimilarGrows(facts, h, h', m, claim.node, v.at); }
    if v.Fun? && claim.Closure? && claim.env.Some? { SimilarGrows(facts, h, h', m, claim.env.value, v.env.value); }
  }

  lemma AllFitGrow(facts: Facts, h: Heap, h': Heap, m: Remap, s: State, regs: Regs)
    requires HeapLe(h, h') && AllFit(facts, h, m, s, regs)
    ensures AllFit(facts, h', m, s, regs)
  {
    forall r | Read(regs, r) != Unwritten ensures r in s && Fits(facts, h', m, s[r], Read(regs, r)) { FitsGrow(facts, h, h', m, s[r], Read(regs, r)); }
  }

  lemma SelfSimilarGrows(facts: Facts, h: Heap, h': Heap, m: Remap, self: Option<Option<Node>>, a: Option<nat>)
    requires HeapLe(h, h') && SelfSimilar(facts, h, m, self, a)
    ensures SelfSimilar(facts, h', m, self, a)
  {
    if self.Some? && self.value.Some? { SimilarGrows(facts, h, h', m, self.value.value, a.value); }
  }

  lemma AllFitBelow(facts: Facts, heap: Heap, m: Remap, s: State, t: State, regs: Regs)
    requires AllFit(facts, heap, m, s, regs) && Below(s, t)
    ensures AllFit(facts, heap, m, t, regs)
  {
    forall r | Read(regs, r) != Unwritten ensures r in t && Fits(facts, heap, m, t[r], Read(regs, r)) { assert r in s; }
  }

  // ------------------------------------------------------------- one instruction

  lemma {:induction false} WalkSimilar(facts: Facts, heap: Heap, m: Remap, start: Option<Node>, a: Option<nat>, levels: nat)
    requires start.Some? ==> OptionSimilar(facts, heap, m, start, a)
    ensures Climb(heap, a, levels).Some? ==> Fits(facts, heap, m, WalkUp(facts, start, levels), EnvRef(Climb(heap, a, levels).value))
    decreases levels
  {
    if start.Some? && levels > 0 {
      WalkSimilar(facts, heap, m, if start.value in facts.parent then facts.parent[start.value] else None, heap[a.value].parent, levels - 1);
    }
  }

  lemma SetFit(facts: Facts, heap: Heap, m: Remap, s: State, regs: Regs, dst: Reg, claim: EnvValue, v: Value)
    requires AllFit(facts, heap, m, s, regs) && Fits(facts, heap, m, claim, v)
    ensures AllFit(facts, heap, m, s[dst := claim], regs[dst := v])
  {
    var s', regs' := s[dst := claim], regs[dst := v];
    forall r | Read(regs', r) != Unwritten ensures r in s' && Fits(facts, heap, m, s'[r], Read(regs', r)) {
      if r != dst { assert Read(regs, r) == Read(regs', r); }
    }
  }

  lemma GetFit(facts: Facts, heap: Heap, m: Remap, s: State, regs: Regs, r: Reg)
    requires AllFit(facts, heap, m, s, regs)
    ensures Fits(facts, heap, m, Get(s, r), Read(regs, r))
  {
  }

  lemma ClobberFit(facts: Facts, heap: Heap, m: Remap, s: State, regs: Regs, rs: seq<Reg>, regs': Regs)
    requires AllFit(facts, heap, m, s, regs) && SameOutside(regs, regs', rs)
    ensures AllFit(facts, heap, m, Clobber(s, rs), regs')
  {
    forall r | Read(regs', r) != Unwritten ensures r in Clobber(s, rs) && Fits(facts, heap, m, Clobber(s, rs)[r], Read(regs', r)) { ClobberGets(s, rs, r); }
  }

  lemma ClosureFit(facts: Facts, heap: Heap, m: Remap, s: State, regs: Regs, dst: Reg, clobbered: seq<Reg>, claim: EnvValue, regs': Regs)
    requires AllFit(facts, heap, m, s, regs) && SameOutside(regs, regs', clobbered + [dst]) && Fits(facts, heap, m, claim, Read(regs', dst))
    ensures AllFit(facts, heap, m, Clobber(s, clobbered)[dst := claim], regs')
  {
    var t := Clobber(s, clobbered)[dst := claim];
    forall r | Read(regs', r) != Unwritten ensures r in t && Fits(facts, heap, m, t[r], Read(regs', r)) {
      ClobberGets(s, clobbered, r);
      if r != dst && r !in clobbered {
        assert r !in clobbered + [dst];
        assert Read(regs', r) == Read(regs, r);
      }
    }
  }

  /** No environment is recorded as held by a slot: slotEnv is kept under copy 0's names. */
  ghost predicate NoEnvSlots(facts: Facts) {
    forall key {:trigger facts.slotEnv[key]} :: key in facts.slotEnv ==> !facts.slotEnv[key].Holds?
  }

  /** A creation site agrees with its recorded parent, and the renaming leaves its node alone. */
  ghost predicate CreatesRight(facts: Facts, m: Remap, self: Option<Option<Node>>, insn: EnvInsn, s: State) {
    insn.CreateEnv? ==> Renamed(m, insn.node) == insn.node && Agrees(facts, self, insn, s)
  }

  /** The parent a creation site supplies is the one the machine finds. */
  lemma SuppliedSimilar(facts: Facts, heap: Heap, m: Remap, self: Option<Option<Node>>, source: ParentSource, s: State, a: Option<nat>, regs: Regs)
    requires SelfSimilar(facts, heap, m, self, a) && AllFit(facts, heap, m, s, regs) && ParentOperand(heap, a, regs, source).Some?
    ensures SuppliedParent(self, source, s).Some? ==> OptionSimilar(facts, heap, m, SuppliedParent(self, source, s).value, ParentOperand(heap, a, regs, source).value)
  {
    if source.InReg? { GetFit(facts, heap, m, s, regs, source.reg); }
  }

  lemma NewIsSimilar(facts: Facts, heap: Heap, m: Remap, node: Node, p: Option<nat>)
    requires Renamed(m, node) == node && (p.Some? ==> p.value < |heap|)
    requires node in facts.parent ==> OptionSimilar(facts, heap, m, facts.parent[node], p)
    ensures Similar(facts, heap + [Instance(node, p, map[])], m, node, |heap|)
  {
    var heap' := heap + [Instance(node, p, map[])];
    assert heap'[|heap|] == Instance(node, p, map[]);
    if node in facts.parent && facts.parent[node].Some? {
      assert HeapLe(heap, heap');
      SimilarGrows(facts, heap, heap', m, facts.parent[node].value, p.value);
    }
  }

  lemma CreateFits(facts: Facts, m: Remap, self: Option<Option<Node>>, insn: EnvInsn, s: State, a: Option<nat>,
                   heap: Heap, closures: set<(Fn, Option<nat>)>, regs: Regs, heap': Heap, closures': set<(Fn, Option<nat>)>, regs': Regs)
    requires insn.CreateEnv? && SelfSimilar(facts, heap, m, self, a) && AllFit(facts, heap, m, s, regs) && CreatesRight(facts, m, self, insn, s)
    requires Executes(insn, a, heap, closures, regs, heap', closures', regs')
    ensures AllFit(facts, heap', m, Transfer(facts, self, insn, s), regs')
  {
    ExecutesGrows(insn, a, heap, closures, regs, heap', closures', regs');
    SuppliedSimilar(facts, heap, m, self, insn.source, s, a, regs);
    NewIsSimilar(facts, heap, m, insn.node, ParentOperand(heap, a, regs, insn.source).value);
    AllFitGrow(facts, heap, heap', m, s, regs);
    SetFit(facts, heap', m, s, regs, insn.dst, Env(insn.node), EnvRef(|heap|));
  }

  /** Transfer describes, renamed, what an instruction does to the registers. */
  lemma TransferSimilar(facts: Facts, m: Remap, self: Option<Option<Node>>, insn: EnvInsn, s: State, a: Option<nat>,
                        heap: Heap, closures: set<(Fn, Option<nat>)>, regs: Regs, heap': Heap, closures': set<(Fn, Option<nat>)>, regs': Regs)
    requires NoEnvSlots(facts) && SelfSimilar(facts, heap, m, self, a) && AllFit(facts, heap, m, s, regs) && CreatesRight(facts, m, self, insn, s)
    requires Executes(insn, a, heap, closures, regs, heap', closures', regs')
    ensures AllFit(facts, heap', m, Transfer(facts, self, insn, s), regs')
  {
    match insn
    case CreateEnv(_, _, _) => CreateFits(facts, m, self, insn, s, a, heap, closures, regs, heap', closures', regs');
    case GetOwnEnv(dst, levels) =>
      WalkSimilar(facts, heap, m, Flat(self), a, levels);
      SetFit(facts, heap, m, s, regs, dst, WalkUp(facts, Flat(self), levels), EnvRef(Climb(heap, a, levels).value));
    case GetEnvAbove(dst, src, levels) =>
      GetFit(facts, heap, m, s, regs, src);
      var from := Address(Read(regs, src), heap);
      if Get(s, src).Env? { WalkSimilar(facts, heap, m, Some(Get(s, src).node), from, levels); }
      SetFit(facts, heap, m, s, regs, dst, if Get(s, src).Env? then WalkUp(facts, Some(Get(s, src).node), levels) else Unknown,
             EnvRef(Climb(heap, from, levels).value));
    case GetClosureEnv(dst, src) =>
      GetFit(facts, heap, m, s, regs, src);
      var c, v := Get(s, src), Read(regs, src);
      SetFit(facts, heap, m, s, regs, dst, if c.Closure? && c.env.Some? then Env(c.env.value) else Unknown,
             if v.env.Some? then EnvRef(v.env.value) else Undefined);
    case LoadUndefined(dst) => SetFit(facts, heap, m, s, regs, dst, NoEnv, Undefined);
    case Move(dst, src) =>
      GetFit(facts, heap, m, s, regs, src);
      SetFit(facts, heap, m, s, regs, dst, Get(s, src), Read(regs, src));
    case MakeClosure(dst, clobbered, env, fn) =>
      GetFit(facts, heap, m, s, regs, env);
      ClosureFit(facts, heap, m, s, regs, dst, clobbered, Closure(fn, if Get(s, env).Env? then Some(Get(s, env).node) else None), regs');
    case LoadSlot(dst, env, slot) =>
      var at := Read(regs, env).at;
      SetFit(facts, heap, m, s, regs, dst, Unknown, if slot in heap[at].slots then heap[at].slots[slot] else Unwritten);
    case StoreSlot(_, _, _) =>
      ExecutesGrows(insn, a, heap, closures, regs, heap', closures', regs');
      AllFitGrow(facts, heap, heap', m, s, regs);
    case Other(writes) => ClobberFit(facts, heap, m, s, regs, writes, regs');
  }

  // ------------------------------------------------------------------ the copies

  /** The copies of function k, as CopiesOf makes them: all chains are rooted, copy 0's is that
      of the recorded environment, and each remap is positional. */
  ghost predicate CopiesFit(facts: Facts, k: Fn, copies: seq<ClosureCopy>, chains: seq<seq<Node>>) {
    && |copies| == |chains| > 0 && SelfEnv(facts, k) == Some(Some(copies[0].env))
    && forall i {:trigger copies[i]} :: 0 <= i < |copies| ==> IsChain(facts, copies[i].env, chains[i]) && Positional(chains[0], chains[i], copies[i].envRemap)
  }

  /** Renaming from the recorded chain: an environment true to copy i's chain is, renamed, true
      to copy 0's. */
  lemma {:induction false} RenamedChain(facts: Facts, heap: Heap, env0: Node, env: Node, from: seq<Node>, to: seq<Node>, m: Remap, k: nat, a: nat)
    requires IsChain(facts, env0, from) && IsChain(facts, env, to) && Positional(from, to, m) && k < |from|
    requires Similar(facts, heap, map[], to[k], a)
    ensures Similar(facts, heap, m, from[k], a)
    decreases a
  {
    assert Renamed(m, from[k]) == to[k];
    if k + 1 < |from| {
      assert Links(facts, from, k) && Links(facts, to, k);
      RenamedChain(facts, heap, env0, env, from, to, m, k + 1, heap[a].parent.value);
    }
  }

  /** The copied functions: the copies of each, their parent chains, and the functions a run of
      a copy can create, itself included. */
  datatype Copying = Copying(copies: map<Fn, seq<ClosureCopy>>, chains: map<Fn, seq<seq<Node>>>, inside: map<Fn, set<Fn>>)

  ghost predicate CopyingFits(facts: Facts, c: Copying) {
    && c.chains.Keys == c.inside.Keys == c.copies.Keys
    && forall k {:trigger c.copies[k]} :: k in c.copies ==>
         CopiesFit(facts, k, c.copies[k], c.chains[k]) && k in c.inside[k] && c.inside[k] * c.copies.Keys == {k}
  }

  /** The renaming a closure of fn can be under: that of a copy it is inside of, and none for a
      function that is not copied itself. */
  ghost predicate IsView(c: Copying, fn: Fn, m: Remap)
    requires c.inside.Keys == c.copies.Keys
  {
    (fn !in c.copies && m == map[]) || exists k: Fn, i: nat :: CopyView(c, fn, m, k, i)
  }

  ghost predicate CopyView(c: Copying, fn: Fn, m: Remap, k: Fn, i: nat)
    requires c.inside.Keys == c.copies.Keys
  {
    k in c.copies && fn in c.inside[k] && i < |c.copies[k]| && m == c.copies[k][i].envRemap
  }

  ghost predicate Outside(c: Copying, f: Fn)
    requires c.inside.Keys == c.copies.Keys
  {
    forall k {:trigger c.inside[k]} :: k in c.copies ==> f !in c.inside[k]
  }

  /** A creation of a copied function: it stands outside every copy and supplies the
      environment of one copy. */
  ghost predicate SuppliesCopy(c: Copying, f: Fn, env: Reg, fn: Fn, s: State)
    requires c.inside.Keys == c.copies.Keys && fn in c.copies
  {
    Outside(c, f) && exists i {:trigger c.copies[fn][i]} :: 0 <= i < |c.copies[fn]| && Get(s, env) == Env(c.copies[fn][i].env)
  }

  /** Inside a copy no renamed environment is created, and no function from outside. */
  ghost predicate StaysInside(c: Copying, k: Fn, insn: EnvInsn)
    requires c.inside.Keys == c.copies.Keys && k in c.copies
  {
    && (insn.CreateEnv? ==> forall i {:trigger c.copies[k][i]} :: 0 <= i < |c.copies[k]| ==> insn.node !in c.copies[k][i].envRemap)
    && (insn.MakeClosure? ==> insn.fn in c.inside[k])
  }

  /** What is asked of a site in place of Agrees. */
  ghost predicate SiteFits(facts: Facts, c: Copying, f: Fn, insn: EnvInsn, s: State)
    requires c.inside.Keys == c.copies.Keys
  {
    if insn.MakeClosure? && insn.fn in c.copies then SuppliesCopy(c, f, insn.env, insn.fn, s)
    else
      && (insn.CreateEnv? || insn.MakeClosure? ==> Agrees(facts, SelfEnv(facts, f), insn, s))
      && forall k {:trigger c.inside[k]} :: k in c.copies && f in c.inside[k] ==> StaysInside(c, k, insn)
  }

  ghost predicate SitesFit(flows: seq<Flow>, facts: Facts, E: seq<seq<State>>, c: Copying)
    requires Tables(flows, facts, E) && c.inside.Keys == c.copies.Keys
  {
    forall f: nat, b: nat, k: nat {:trigger flows[f].code[b][k]} ::
      f < |flows| && b < |flows[f].code| && Live(flows[f], E[f], b) && k < |flows[f].code[b]| ==>
        SiteFits(facts, c, f, flows[f].code[b][k], Out(facts, SelfEnv(facts, f), flows[f].code[b], E[f][b], k))
  }

  lemma SiteCreatesRight(facts: Facts, c: Copying, f: Fn, m: Remap, insn: EnvInsn, s: State)
    requires CopyingFits(facts, c) && IsView(c, f, m) && SiteFits(facts, c, f, insn, s)
    ensures CreatesRight(facts, m, SelfEnv(facts, f), insn, s)
  {
    if insn.CreateEnv? && m != map[] {
      var k: Fn, i: nat :| CopyView(c, f, m, k, i);
      assert StaysInside(c, k, insn) by { assert f in c.inside[k]; }
    }
  }

  // -------------------------------------------------------------- closures and frames

  ghost predicate ClosureAs(facts: Facts, c: Copying, heap: Heap, fn: Fn, env: Option<nat>, m: Remap)
    requires c.inside.Keys == c.copies.Keys
  {
    IsView(c, fn, m) && SelfSimilar(facts, heap, m, SelfEnv(facts, fn), env)
  }

  ghost predicate ClosuresFit(facts: Facts, c: Copying, heap: Heap, closures: set<(Fn, Option<nat>)>)
    requires c.inside.Keys == c.copies.Keys
  {
    forall f {:trigger f in closures} :: f in closures ==> exists m :: ClosureAs(facts, c, heap, f.0, f.1, m)
  }

  ghost predicate FrameAs(flows: seq<Flow>, facts: Facts, E: seq<seq<State>>, c: Copying, heap: Heap, fr: Frame, m: Remap)
    requires Tables(flows, facts, E) && c.inside.Keys == c.copies.Keys
  {
    && At(flows, fr) && Live(flows[fr.fn], E[fr.fn], fr.block) && ClosureAs(facts, c, heap, fr.fn, fr.self, m)
    && AllFit(facts, heap, m, Claims(flows, facts, E, fr), fr.regs)
  }

  ghost predicate FrameFits(flows: seq<Flow>, facts: Facts, E: seq<seq<State>>, c: Copying, heap: Heap, fr: Frame)
    requires Tables(flows, facts, E) && c.inside.Keys == c.copies.Keys
  {
    exists m :: FrameAs(flows, facts, E, c, heap, fr, m)
  }

  ghost predicate FramesFit(flows: seq<Flow>, facts: Facts, E: seq<seq<State>>, c: Copying, m: Machine)
    requires Tables(flows, facts, E) && c.inside.Keys == c.copies.Keys
  {
    forall i {:trigger m.frames[i]} :: 0 <= i < |m.frames| ==> FrameFits(flows, facts, E, c, m.heap, m.frames[i])
  }

  /** Everything the run is known by. */
  ghost predicate Fitting(flows: seq<Flow>, facts: Facts, E: seq<seq<State>>, c: Copying, m: Machine)
    requires Tables(flows, facts, E) && c.inside.Keys == c.copies.Keys
  {
    FramesFit(flows, facts, E, c, m) && ClosuresFit(facts, c, m.heap, m.closures)
  }

  lemma FrameFitsGrows(flows: seq<Flow>, facts: Facts, E: seq<seq<State>>, c: Copying, h: Heap, h': Heap, fr: Frame)
    requires Tables(flows, facts, E) && CopyingFits(facts, c) && HeapLe(h, h') && FrameFits(flows, facts, E, c, h, fr)
    ensures FrameFits(flows, facts, E, c, h', fr)
  {
    var m :| FrameAs(flows, facts, E, c, h, fr, m);
    SelfSimilarGrows(facts, h, h', m, SelfEnv(facts, fr.fn), fr.self);
    AllFitGrow(facts, h, h', m, Claims(flows, facts, E, fr), fr.regs);
    assert FrameAs(flows, facts, E, c, h', fr, m);
  }

  lemma ClosuresGrow(facts: Facts, c: Copying, h: Heap, h': Heap, closures: set<(Fn, Option<nat>)>)
    requires CopyingFits(facts, c) && HeapLe(h, h') && ClosuresFit(facts, c, h, closures)
    ensures ClosuresFit(facts, c, h', closures)
  {
    forall f | f in closures ensures exists m :: ClosureAs(facts, c, h', f.0, f.1, m) {
      var m :| ClosureAs(facts, c, h, f.0, f.1, m);
      SelfSimilarGrows(facts, h, h', m, SelfEnv(facts, f.0), f.1);
      assert ClosureAs(facts, c, h', f.0, f.1, m);
    }
  }

  /** Creating a copied function: the closure is under the copy its environment belongs to. */
  lemma CopyMade(facts: Facts, c: Copying, f: Fn, m: Remap, env: Reg, fn: Fn, s: State, heap: Heap, regs: Regs)
    requires CopyingFits(facts, c) && IsView(c, f, m) && AllFit(facts, heap, m, s, regs)
    requires fn in c.copies && SuppliesCopy(c, f, env, fn, s) && EnvOperand(heap, Read(regs, env)).Some?
    ensures exists m' :: ClosureAs(facts, c, heap, fn, EnvOperand(heap, Read(regs, env)).value, m')
  {
    var copies, chains := c.copies[fn], c.chains[fn];
    var i :| 0 <= i < |copies| && Get(s, env) == Env(copies[i].env);
    GetFit(facts, heap, m, s, regs, env);
    forall k: Fn, i: nat ensures !CopyView(c, f, m, k, i) { assert k in c.copies ==> f !in c.inside[k]; }
    assert m == map[];
    var a := Read(regs, env).at;
    assert copies[0].env == chains[0][0] && copies[i].env == chains[i][0];
    RenamedChain(facts, heap, copies[0].env, copies[i].env, chains[0], chains[i], copies[i].envRemap, 0, a);
    assert CopyView(c, fn, copies[i].envRemap, fn, i);
    assert ClosureAs(facts, c, heap, fn, Some(a), copies[i].envRemap);
  }

  /** Creating any other function: the closure is under its creator's view. */
  lemma OtherMade(facts: Facts, c: Copying, f: Fn, m: Remap, insn: EnvInsn, s: State, heap: Heap, regs: Regs)
    requires CopyingFits(facts, c) && IsView(c, f, m) && AllFit(facts, heap, m, s, regs)
    requires insn.MakeClosure? && insn.fn !in c.copies && SiteFits(facts, c, f, insn, s) && EnvOperand(heap, Read(regs, insn.env)).Some?
    ensures ClosureAs(facts, c, heap, insn.fn, EnvOperand(heap, Read(regs, insn.env)).value, m)
  {
    GetFit(facts, heap, m, s, regs, insn.env);
    assert IsView(c, insn.fn, m) by {
      if m != map[] {
        var k: Fn, i: nat :| CopyView(c, f, m, k, i);
        assert StaysInside(c, k, insn) by { assert f in c.inside[k]; }
        assert CopyView(c, insn.fn, m, k, i);
      }
    }
  }

  lemma SiteOf(flows: seq<Flow>, facts: Facts, E: seq<seq<State>>, c: Copying, fr: Frame)
    requires Tables(flows, facts, E) && c.inside.Keys == c.copies.Keys && SitesFit(flows, facts, E, c)
    requires At(flows, fr) && Live(flows[fr.fn], E[fr.fn], fr.block) && fr.pc < |flows[fr.fn].code[fr.block]|
    ensures SiteFits(facts, c, fr.fn, flows[fr.fn].code[fr.block][fr.pc], Claims(flows, facts, E, fr))
  {
  }

  /** What one instruction leaves fits the claims after it. */
  lemma RegsRun(flows: seq<Flow>, facts: Facts, E: seq<seq<State>>, m: Machine, m': Machine, i: nat, v: Remap)
    requires Tables(flows, facts, E) && NoEnvSlots(facts) && Runs(flows, m, m', i)
    requires var fr := m.frames[i];
      var self := SelfEnv(facts, fr.fn);
      && SelfSimilar(facts, m.heap, v, self, fr.self) && AllFit(facts, m.heap, v, Claims(flows, facts, E, fr), fr.regs)
      && CreatesRight(facts, v, self, flows[fr.fn].code[fr.block][fr.pc], Claims(flows, facts, E, fr))
    ensures HeapLe(m.heap, m'.heap) && At(flows, m'.frames[i])
    ensures AllFit(facts, m'.heap, v, Claims(flows, facts, E, m'.frames[i]), m'.frames[i].regs)
  {
    var fr, fr' := m.frames[i], m'.frames[i];
    var self := SelfEnv(facts, fr.fn);
    var insn := flows[fr.fn].code[fr.block][fr.pc];
    var s := Claims(flows, facts, E, fr);
    TransferSimilar(facts, v, self, insn, s, fr.self, m.heap, m.closures, fr.regs, m'.heap, m'.closures, fr'.regs);
    ExecutesGrows(insn, fr.self, m.heap, m.closures, fr.regs, m'.heap, m'.closures, fr'.regs);
    assert Claims(flows, facts, E, fr') == Transfer(facts, self, insn, s);
  }

  /** One instruction of a fitting frame. */
  lemma FrameRuns(flows: seq<Flow>, facts: Facts, E: seq<seq<State>>, c: Copying, m: Machine, m': Machine, i: nat, v: Remap)
    requires Tables(flows, facts, E) && CopyingFits(facts, c) && SitesFit(flows, facts, E, c) && NoEnvSlots(facts)
    requires Runs(flows, m, m', i) && FrameAs(flows, facts, E, c, m.heap, m.frames[i], v)
    ensures FrameAs(flows, facts, E, c, m'.heap, m'.frames[i], v) && HeapLe(m.heap, m'.heap)
  {
    var fr := m.frames[i];
    SiteOf(flows, facts, E, c, fr);
    SiteCreatesRight(facts, c, fr.fn, v, flows[fr.fn].code[fr.block][fr.pc], Claims(flows, facts, E, fr));
    RegsRun(flows, facts, E, m, m', i, v);
    SelfSimilarGrows(facts, m.heap, m'.heap, v, SelfEnv(facts, fr.fn), fr.self);
  }

  lemma ClosuresRun(flows: seq<Flow>, facts: Facts, E: seq<seq<State>>, c: Copying, m: Machine, m': Machine, i: nat, v: Remap)
    requires Tables(flows, facts, E) && CopyingFits(facts, c) && SitesFit(flows, facts, E, c)
    requires Runs(flows, m, m', i) && FrameAs(flows, facts, E, c, m.heap, m.frames[i], v) && HeapLe(m.heap, m'.heap)
    requires ClosuresFit(facts, c, m.heap, m.closures)
    ensures ClosuresFit(facts, c, m'.heap, m'.closures)
  {
    var fr := m.frames[i];
    var insn := flows[fr.fn].code[fr.block][fr.pc];
    var s := Claims(flows, facts, E, fr);
    if insn.MakeClosure? {
      var env := EnvOperand(m.heap, Read(fr.regs, insn.env)).value;
      SiteOf(flows, facts, E, c, fr);
      if insn.fn in c.copies {
        CopyMade(facts, c, fr.fn, v, insn.env, insn.fn, s, m.heap, fr.regs);
      } else {
        OtherMade(facts, c, fr.fn, v, insn, s, m.heap, fr.regs);
      }
      assert exists m' :: ClosureAs(facts, c, m.heap, insn.fn, env, m');
      assert m'.closures == m.closures + {(insn.fn, env)};
    } else {
      assert m'.closures == m.closures;
      ClosuresGrow(facts, c, m.heap, m'.heap, m.closures);
    }
  }

  // ------------------------------------------------------------------ whole runs

  lemma RunFits(flows: seq<Flow>, facts: Facts, E: seq<seq<State>>, c: Copying, m: Machine, m': Machine, i: nat)
    requires Tables(flows, facts, E) && CopyingFits(facts, c) && SitesFit(flows, facts, E, c) && NoEnvSlots(facts)
    requires Fitting(flows, facts, E, c, m) && Runs(flows, m, m', i)
    ensures Fitting(flows, facts, E, c, m')
  {
    var v :| FrameAs(flows, facts, E, c, m.heap, m.frames[i], v);
    FrameRuns(flows, facts, E, c, m, m', i, v);
    ClosuresRun(flows, facts, E, c, m, m', i, v);
    forall j | 0 <= j < |m'.frames| ensures FrameFits(flows, facts, E, c, m'.heap, m'.frames[j]) {
      if j != i {
        assert m'.frames[j] == m.frames[j];
        FrameFitsGrows(flows, facts, E, c, m.heap, m'.heap, m.frames[j]);
      }
    }
  }

  lemma CallFits(flows: seq<Flow>, facts: Facts, E: seq<seq<State>>, c: Copying, m: Machine, m': Machine, fn: Fn, env: Option<nat>)
    requires Tables(flows, facts, E) && CopyingFits(facts, c) && Fitting(flows, facts, E, c, m) && Calls(flows, m, m', fn, env)
    ensures Fitting(flows, facts, E, c, m')
  {
    var fr := Frame(fn, env, map[], flows[fn].entry, 0);
    assert PostFix(flows[fn], SelfEnv(facts, fn), facts, E[fn]);
    assert (fn, env) in m.closures;
    var v :| ClosureAs(facts, c, m.heap, fn, env, v);
    assert FrameAs(flows, facts, E, c, m.heap, fr, v);
    forall j | 0 <= j < |m'.frames| ensures FrameFits(flows, facts, E, c, m'.heap, m'.frames[j]) {
      assert m'.frames[j] == if j < |m.frames| then m.frames[j] else fr;
    }
  }

  lemma JumpFits(flows: seq<Flow>, facts: Facts, E: seq<seq<State>>, c: Copying, m: Machine, m': Machine, i: nat, t: nat)
    requires Tables(flows, facts, E) && CopyingFits(facts, c) && Fitting(flows, facts, E, c, m) && Jumps(flows, m, m', i, t)
    ensures Fitting(flows, facts, E, c, m')
  {
    var fr := m.frames[i];
    var g, entry, self := flows[fr.fn], E[fr.fn], SelfEnv(facts, fr.fn);
    var v :| FrameAs(flows, facts, E, c, m.heap, fr, v);
    assert PostFix(g, self, facts, entry) && Covered(g, entry);
    JumpIsBelow(g, self, facts, entry, fr.block, fr.pc, t);
    AllFitBelow(facts, m.heap, v, Claims(flows, facts, E, fr), entry[t], fr.regs);
    var fr' := fr.(block := t, pc := 0);
    assert FrameAs(flows, facts, E, c, m.heap, fr', v);
    forall j | 0 <= j < |m'.frames| ensures FrameFits(flows, facts, E, c, m'.heap, m'.frames[j]) {
      assert m'.frames[j] == if j == i then fr' else m.frames[j];
    }
  }

  /** In every run, every frame is as claimed under the renaming of some copy it belongs to. */
  lemma {:induction false} RunsFit(flows: seq<Flow>, facts: Facts, E: seq<seq<State>>, c: Copying, globalCode: Fn, run: seq<Machine>, n: nat)
    requires Tables(flows, facts, E) && CopyingFits(facts, c) && SitesFit(flows, facts, E, c) && NoEnvSlots(facts)
    requires globalCode in facts.closureEnv && facts.closureEnv[globalCode] == None && globalCode !in c.copies
    requires IsRun(flows, globalCode, run) && n < |run|
    ensures Fitting(flows, facts, E, c, run[n])
    decreases n
  {
    if n == 0 {
      assert ClosureAs(facts, c, [], globalCode, None, map[]);
    } else {
      RunsFit(flows, facts, E, c, globalCode, run, n - 1);
      assert StepAt(flows, run, n);
      var m, m' := run[n - 1], run[n];
      if fn, env :| Calls(flows, m, m', fn, env) {
        CallFits(flows, facts, E, c, m, m', fn, env);
      } else if i :| Runs(flows, m, m', i) {
        RunFits(flows, facts, E, c, m, m', i);
      } else {
        var i, t :| Jumps(flows, m, m', i, t);
        JumpFits(flows, facts, E, c, m, m', i, t);
      }
    }
  }

  /** One environment has one renaming. */
  lemma OneRenaming(facts: Facts, k: Fn, copies: seq<ClosureCopy>, chains: seq<seq<Node>>, i: nat, j: nat)
    requires CopiesFit(facts, k, copies, chains) && i < |copies| && j < |copies| && copies[i].env == copies[j].env
    ensures copies[i].envRemap == copies[j].envRemap
  {
    ChainUnique(facts, copies[i].env, chains[i], chains[j]);
    var from, m, m' := chains[0], copies[i].envRemap, copies[j].envRemap;
    forall n ensures Renamed(m, n) == Renamed(m', n) {
      if n in m || n in m' {
        var p :| 0 <= p < |from| && from[p] == n;
      }
    }
    forall n ensures n in m <==> n in m' { assert Renamed(m, n) == Renamed(m', n); }
  }

  /** The view of a frame of a copied function is that of the copy it captured the environment
      of. */
  lemma ViewIsCopys(facts: Facts, c: Copying, heap: Heap, k: Fn, self: Option<nat>, i: nat, m: Remap)
    requires CopyingFits(facts, c) && k in c.copies && i < |c.copies[k]| && ClosureAs(facts, c, heap, k, self, m)
    requires self.Some? && MadeAt(heap, self.value, c.copies[k][i].env)
    ensures m == c.copies[k][i].envRemap
  {
    var l: Fn, j: nat :| CopyView(c, k, m, l, j);
    assert k in c.inside[l] * c.copies.Keys && c.copies[l] == c.copies[l];
    assert l == k;
    var copies, chains := c.copies[k], c.chains[k];
    assert copies[j].env == chains[j][0] == Renamed(m, chains[0][0]) && copies[0].env == chains[0][0];
    OneRenaming(facts, k, copies, chains, i, j);
  }

  /** A frame of a copied function that captured the environment of copy i. */
  ghost predicate Captured(c: Copying, heap: Heap, fr: Frame, i: nat) {
    fr.fn in c.copies && i < |c.copies[fr.fn]| && fr.self.Some? && MadeAt(heap, fr.self.value, c.copies[fr.fn][i].env)
  }

  /** In every run, in a frame of a copied function that captured the environment of copy i, a
      register tracked as node n is unwritten or holds an environment made at what copy i
      renames n to. */
  lemma CopyRegisterIsRenamed(flows: seq<Flow>, facts: Facts, E: seq<seq<State>>, c: Copying, globalCode: Fn,
                              run: seq<Machine>, n: nat, j: nat, i: nat, r: Reg, node: Node)
    requires Tables(flows, facts, E) && CopyingFits(facts, c) && SitesFit(flows, facts, E, c) && NoEnvSlots(facts)
    requires globalCode in facts.closureEnv && facts.closureEnv[globalCode] == None && globalCode !in c.copies
    requires IsRun(flows, globalCode, run) && n < |run| && j < |run[n].frames|
    requires Captured(c, run[n].heap, run[n].frames[j], i)
    ensures At(flows, run[n].frames[j])
    ensures var fr := run[n].frames[j];
      Get(Claims(flows, facts, E, fr), r) == Env(node) ==>
        var v := Read(fr.regs, r);
        v == Unwritten || (v.EnvRef? && MadeAt(run[n].heap, v.at, Renamed(c.copies[fr.fn][i].envRemap, node)))
  {
    RunsFit(flows, facts, E, c, globalCode, run, n);
    var fr := run[n].frames[j];
    var m :| FrameAs(flows, facts, E, c, run[n].heap, fr, m);
    ViewIsCopys(facts, c, run[n].heap, fr.fn, fr.self, i, m);
    GetFit(facts, run[n].heap, m, Claims(flows, facts, E, fr), fr.regs, r);
  }

  /** The copies CopiesOf returns for a function with a recorded environment fit. */
  lemma EmittedCopiesFit(facts: Facts, sites: Sites, k: Fn, env0: Node, copies: seq<ClosureCopy>, chains: seq<seq<Node>>)
    requires SelfEnv(facts, k) == Some(Some(env0)) && |chains| > 0 && CopiesRight(facts, sites, env0, chains[0], copies, chains)
    ensures CopiesFit(facts, k, copies, chains)
  {
    forall i | 0 <= i < |copies| ensures IsChain(facts, copies[i].env, chains[i]) && Positional(chains[0], chains[i], copies[i].envRemap) {
      assert CopyRight(facts, sites, chains[0], copies[i], chains[i]);
    }
  }

  lemma ResolvedAccessIsRenamed(cfgs: seq<FunctionCfg>, flows: seq<Flow>, facts: Facts, globalCode: Fn, resolved: map<Site, Node>, c: Copying,
                                run: seq<Machine>, n: nat, j: nat, i: nat, env: Reg)
    requires Solved(flows, facts) && NoEnvSlots(facts) && CopyingFits(facts, c) && SitesFit(flows, facts, Entries(flows, facts), c)
    requires globalCode in facts.closureEnv && facts.closureEnv[globalCode] == None && globalCode !in c.copies
    requires CfgsOf(cfgs, flows) && ResolvedAsTables(cfgs, flows, facts, resolved)
    requires IsRun(flows, globalCode, run) && n < |run| && j < |run[n].frames|
    requires AboutToAccess(flows, run[n].frames[j], env) && Captured(c, run[n].heap, run[n].frames[j], i)
    ensures var fr, heap := run[n].frames[j], run[n].heap;
      (fr.fn, fr.block, fr.pc) in resolved && Address(Read(fr.regs, env), heap).Some? ==>
        MadeAt(heap, Read(fr.regs, env).at, Renamed(c.copies[fr.fn][i].envRemap, resolved[(fr.fn, fr.block, fr.pc)]))
  {
    var fr := run[n].frames[j];
    var site := (fr.fn, fr.block, fr.pc);
    if site in resolved {
      CopyRegisterIsRenamed(flows, facts, Entries(flows, facts), c, globalCode, run, n, j, i, env, resolved[site]);
    }
  }

  /** What the pass returns, with functions created with several environments: in every run, in
      a frame that captured the environment of copy i, an access resolved to node n touches an
      environment made at what copy i renames n to. */
  lemma CopyAccessIsRenamed(cfgs: seq<FunctionCfg>, flows: seq<Flow>, globalCode: Fn, resolved: map<Site, Node>, c: Copying,
                            run: seq<Machine>, n: nat, j: nat, i: nat, env: Reg)
    requires ModuleFormed(flows) && CfgsOf(cfgs, flows) && globalCode !in c.copies
    requires var facts := AfterRounds(flows, MAX_ROUNDS, FirstFacts(globalCode));
      && CollectedAs(cfgs, flows, facts, resolved) && Solved(flows, facts) && NoEnvSlots(facts)
      && CopyingFits(facts, c) && SitesFit(flows, facts, Entries(flows, facts), c)
    requires IsRun(flows, globalCode, run) && n < |run| && j < |run[n].frames|
    requires AboutToAccess(flows, run[n].frames[j], env) && Captured(c, run[n].heap, run[n].frames[j], i)
    ensures var fr, heap := run[n].frames[j], run[n].heap;
      (fr.fn, fr.block, fr.pc) in resolved && Address(Read(fr.regs, env), heap).Some? ==>
        MadeAt(heap, Read(fr.regs, env).at, Renamed(c.copies[fr.fn][i].envRemap, resolved[(fr.fn, fr.block, fr.pc)]))
  {
    var first := FirstFacts(globalCode);
    var facts := AfterRounds(flows, MAX_ROUNDS, first);
    RoundsKeep(flows, MAX_ROUNDS, first);
    GlobalStays(first, facts, globalCode);
    SettledCollects(cfgs, flows, facts, resolved);
    ResolvedAccessIsRenamed(cfgs, flows, facts, globalCode, resolved, c, run, n, j, i, env);
  }
}
