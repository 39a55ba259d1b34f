// What the settled tables say about runs: a register tracked as environment node n is
// unwritten or holds an environment made at n.
module EnvSound {
  import opened CfgTypes
  import opened EnvState
  import opened EnvMachine

  ghost predicate MadeAt(heap: Heap, a: nat, n: Node) {
    a < |heap| && heap[a].node == n
  }

  /** v is what the tracker's value claims, or was never written. */
  ghost predicate Describes(heap: Heap, claim: EnvValue, v: Value) {
    v.Unwritten? ||
    match claim
    case Env(n) => v.EnvRef? && MadeAt(heap, v.at, n)
    case Closure(fn, env) => v.Fun? && v.fn == fn && (env.Some? ==> v.env.Some? && MadeAt(heap, v.env.value, env.value))
    case NoEnv => v.Undefined?
    case Unknown => true
  }

  /** Registers missing from s are unwritten, the others fit. */
  ghost predicate RegsFit(heap: Heap, s: State, regs: Regs) {
    forall r {:trigger Read(regs, r)} :: Read(regs, r) != Unwritten ==> r in s && Describes(heap, s[r], Read(regs, r))
  }

  /** Environments keep their site and their parent. */
  ghost predicate HeapLe(h: Heap, h': Heap) {
    |h| <= |h'| && forall a {:trigger h[a]} {:trigger h'[a]} :: 0 <= a < |h| ==> h'[a].node == h[a].node && h'[a].parent == h[a].parent
  }

  // ------------------------------------------------- facts that are true of a heap

  ghost predicate OptionMadeAt(heap: Heap, claim: Option<Node>, a: Option<nat>) {
    if claim.Some? then a.Some? && MadeAt(heap, a.value, claim.value) else a.None?
  }

  ghost predicate SelfTrue(heap: Heap, self: Option<Option<Node>>, a: Option<nat>) {
    self.Some? ==> OptionMadeAt(heap, self.value, a)
  }

  ghost predicate ParentsTrue(facts: Facts, heap: Heap) {
    forall a {:trigger heap[a]} :: 0 <= a < |heap| && heap[a].node in facts.parent ==>
      OptionMadeAt(heap, facts.parent[heap[a].node], heap[a].parent)
  }

  ghost predicate SlotTrue(facts: Facts, heap: Heap, n: Node, slot: Slot, v: Value) {
    (n, slot) in facts.slotEnv && facts.slotEnv[(n, slot)].Holds? ==> Describes(heap, Env(facts.slotEnv[(n, slot)].node), v)
  }

  ghost predicate SlotsTrue(facts: Facts, heap: Heap) {
    forall a, slot {:trigger heap[a].slots[slot]} :: 0 <= a < |heap| && slot in heap[a].slots ==>
      SlotTrue(facts, heap, heap[a].node, slot, heap[a].slots[slot])
  }

  ghost predicate ClosuresTrue(facts: Facts, heap: Heap, closures: set<(Fn, Option<nat>)>) {
    forall c {:trigger c in closures} :: c in closures ==> SelfTrue(heap, SelfEnv(facts, c.0), c.1)
  }

  ghost predicate FactsTrue(facts: Facts, heap: Heap, closures: set<(Fn, Option<nat>)>) {
    ParentsTrue(facts, heap) && SlotsTrue(facts, heap) && ClosuresTrue(facts, heap, closures)
  }

  // --------------------------------------------------------------- instructions

  lemma FitsGrows(h: Heap, h': Heap, claim: EnvValue, v: Value)
    requires HeapLe(h, h') && Describes(h, claim, v)
    ensures Describes(h', claim, v)
  {
    if v.EnvRef? && claim.Env? { assert v.at < |h| ==> h'[v.at].node == h[v.at].node; }
    if v.Fun? && v.env.Some? && claim.Closure? && claim.env.Some? { assert v.env.value < |h| ==> h'[v.env.value].node == h[v.env.value].node; }
  }

  lemma RegsGrow(h: Heap, h': Heap, s: State, regs: Regs)
    requires HeapLe(h, h') && RegsFit(h, s, regs)
    ensures RegsFit(h', s, regs)
  {
    forall r | Read(regs, r) != Unwritten ensures r in s && Describes(h', s[r], Read(regs, r)) {
      FitsGrows(h, h', s[r], Read(regs, r));
    }
  }

  lemma SelfGrows(h: Heap, h': Heap, self: Option<Option<Node>>, a: Option<nat>)
    requires HeapLe(h, h') && SelfTrue(h, self, a)
    ensures SelfTrue(h', self, a)
  {
    if self.Some? && self.value.Some? { assert h'[a.value].node == h[a.value].node; }
  }

  lemma RegsBelow(heap: Heap, s: State, t: State, regs: Regs)
    requires RegsFit(heap, s, regs) && Below(s, t)
    ensures RegsFit(heap, t, regs)
  {
    forall r | Read(regs, r) != Unwritten ensures r in t && Describes(heap, t[r], Read(regs, r)) { assert r in s; }
  }

  /** Walking up the recorded parents is climbing the heap. */
  lemma {:induction false} WalkUpTrue(facts: Facts, heap: Heap, start: Option<Node>, a: Option<nat>, levels: nat)
    requires ParentsTrue(facts, heap) && (start.Some? ==> OptionMadeAt(heap, start, a))
    ensures Climb(heap, a, levels).Some? ==> Describes(heap, WalkUp(facts, start, levels), EnvRef(Climb(heap, a, levels).value))
    decreases levels
  {
    if start.Some? && levels > 0 {
      var n, x := start.value, a.value;
      assert heap[x].node == n;
      WalkUpTrue(facts, heap, if n in facts.parent then facts.parent[n] else None, heap[x].parent, levels - 1);
    }
  }

  lemma SetFits(heap: Heap, s: State, regs: Regs, dst: Reg, claim: EnvValue, v: Value)
    requires RegsFit(heap, s, regs) && Describes(heap, claim, v)
    ensures RegsFit(heap, s[dst := claim], regs[dst := v])
  {
    var s', regs' := s[dst := claim], regs[dst := v];
    forall r | Read(regs', r) != Unwritten ensures r in s' && Describes(heap, s'[r], Read(regs', r)) {
      if r != dst { assert Read(regs, r) == Read(regs', r); }
    }
  }

  lemma {:induction false} ClobberGets(s: State, rs: seq<Reg>, r: Reg)
    ensures if r in rs then r in Clobber(s, rs) && Clobber(s, rs)[r] == Unknown
            else (r in Clobber(s, rs) <==> r in s) && (r in s ==> Clobber(s, rs)[r] == s[r])
    decreases |rs|
  {
    if rs != [] {
      ClobberGets(s, rs[..|rs| - 1], r);
      assert rs == rs[..|rs| - 1] + [rs[|rs| - 1]];
    }
  }

  lemma ClobberFits(heap: Heap, s: State, regs: Regs, rs: seq<Reg>, regs': Regs)
    requires RegsFit(heap, s, regs) && SameOutside(regs, regs', rs)
    ensures RegsFit(heap, Clobber(s, rs), regs')
  {
    forall r | Read(regs', r) != Unwritten ensures r in Clobber(s, rs) && Describes(heap, Clobber(s, rs)[r], Read(regs', r)) {
      ClobberGets(s, rs, r);
    }
  }

  /** Getting a register's claim. */
  lemma GetFits(heap: Heap, s: State, regs: Regs, r: Reg)
    requires RegsFit(heap, s, regs)
    ensures Describes(heap, Get(s, r), Read(regs, r))
  {
  }

  lemma MakeClosureFits(heap: Heap, s: State, regs: Regs, dst: Reg, clobbered: seq<Reg>, claim: EnvValue, regs': Regs)
    requires RegsFit(heap, s, regs) && SameOutside(regs, regs', clobbered + [dst]) && Describes(heap, claim, Read(regs', dst))
    ensures RegsFit(heap, Clobber(s, clobbered)[dst := claim], regs')
  {
    var t := Clobber(s, clobbered)[dst := claim];
    forall r | Read(regs', r) != Unwritten ensures r in t && Describes(heap, t[r], Read(regs', r)) {
      ClobberGets(s, clobbered, r);
      if r != dst && r !in clobbered {
        assert r !in clobbered + [dst];
        assert Read(regs', r) == Read(regs, r);
      }
    }
  }

  lemma ExecutesGrows(insn: EnvInsn, self: Option<nat>, heap: Heap, closures: set<(Fn, Option<nat>)>, regs: Regs,
                      heap': Heap, closures': set<(Fn, Option<nat>)>, regs': Regs)
    requires Executes(insn, self, heap, closures, regs, heap', closures', regs')
    ensures HeapLe(heap, heap')
  {
  }

  /** Transfer describes what an instruction does to the registers, as long as the facts are
      true of the heap. */
  lemma TransferTrue(facts: Facts, self: Option<Option<Node>>, insn: EnvInsn, s: State, a: Option<nat>,
                     heap: Heap, closures: set<(Fn, Option<nat>)>, regs: Regs, heap': Heap, closures': set<(Fn, Option<nat>)>, regs': Regs)
    requires FactsTrue(facts, heap, closures) && SelfTrue(heap, self, a) && RegsFit(heap, s, regs)
    requires Executes(insn, a, heap, closures, regs, heap', closures', regs')
    ensures RegsFit(heap', Transfer(facts, self, insn, s), regs')
  {
    match insn
    case CreateEnv(dst, node, source) =>
      ExecutesGrows(insn, a, heap, closures, regs, heap', closures', regs');
      RegsGrow(heap, heap', s, regs);
      SetFits(heap', s, regs, dst, Env(node), EnvRef(|heap|));
    case GetOwnEnv(dst, levels) =>
      WalkUpTrue(facts, heap, Flat(self), a, levels);
      SetFits(heap, s, regs, dst, WalkUp(facts, Flat(self), levels), EnvRef(Climb(heap, a, levels).value));
    case GetEnvAbove(dst, src, levels) =>
      GetFits(heap, s, regs, src);
      var from := Address(Read(regs, src), heap);
      if Get(s, src).Env? { WalkUpTrue(facts, heap, Some(Get(s, src).node), from, levels); }
      SetFits(heap, s, regs, dst, if Get(s, src).Env? then WalkUp(facts, Some(Get(s, src).node), levels) else Unknown,
              EnvRef(Climb(heap, from, levels).value));
    case GetClosureEnv(dst, src) =>
      GetFits(heap, s, regs, src);
      var c, v := Get(s, src), Read(regs, src);
      SetFits(heap, s, regs, dst, if c.Closure? && c.env.Some? then Env(c.env.value) else Unknown,
              if v.env.Some? then EnvRef(v.env.value) else Undefined);
    case LoadUndefined(dst) => SetFits(heap, s, regs, dst, NoEnv, Undefined);
    case Move(dst, src) =>
      GetFits(heap, s, regs, src);
      SetFits(heap, s, regs, dst, Get(s, src), Read(regs, src));
    case MakeClosure(dst, clobbered, env, fn) =>
      GetFits(heap, s, regs, env);
      MakeClosureFits(heap, s, regs, dst, clobbered, Closure(fn, if Get(s, env).Env? then Some(Get(s, env).node) else None), regs');
    case LoadSlot(dst, env, slot) => LoadTrue(facts, s, dst, env, slot, heap, regs, regs');
    case StoreSlot(_, _, _) =>
      ExecutesGrows(insn, a, heap, closures, regs, heap', closures', regs');
      RegsGrow(heap, heap', s, regs);
    case Other(writes) => ClobberFits(heap, s, regs, writes, regs');
  }

  lemma LoadTrue(facts: Facts, s: State, dst: Reg, env: Reg, slot: Slot, heap: Heap, regs: Regs, regs': Regs)
    requires SlotsTrue(facts, heap) && RegsFit(heap, s, regs) && Address(Read(regs, env), heap).Some?
    requires var at := Read(regs, env).at;
      regs' == regs[dst := if slot in heap[at].slots then heap[at].slots[slot] else Unwritten]
    ensures RegsFit(heap, Transfer(facts, None, LoadSlot(dst, env, slot), s), regs')
  {
    GetFits(heap, s, regs, env);
    var at := Read(regs, env).at;
    if slot in heap[at].slots { assert SlotTrue(facts, heap, heap[at].node, slot, heap[at].slots[slot]); }
    SetFits(heap, s, regs, dst, Transfer(facts, None, LoadSlot(dst, env, slot), s)[dst],
            if slot in heap[at].slots then heap[at].slots[slot] else Unwritten);
  }

  // --------------------------------------------------------- sites that keep the facts

  /** The site agrees with what is recorded about its node, its function or its slot. A parent
      and a closure's environment are recorded once and never revised, so this has to be
      checked against the settled states. */
  ghost predicate Agrees(facts: Facts, self: Option<Option<Node>>, insn: EnvInsn, s: State) {
    match insn
    case CreateEnv(_, node, source) => node in facts.parent ==> SuppliedParent(self, source, s) == Some(facts.parent[node])
    case MakeClosure(_, _, env, fn) =>
      SelfEnv(facts, fn).Some? ==> if SelfEnv(facts, fn).value.Some? then Get(s, env) == Env(SelfEnv(facts, fn).value.value) else Get(s, env) == NoEnv
    case StoreSlot(env, slot, _) =>
      Get(s, env).Unknown? ==> forall n {:trigger (n, slot) in facts.slotEnv} :: (n, slot) in facts.slotEnv ==> facts.slotEnv[(n, slot)] == Conflict
    case _ => true
  }

  lemma ClaimsGrow(facts: Facts, h: Heap, h': Heap, closures: set<(Fn, Option<nat>)>)
    requires HeapLe(h, h') && ClosuresTrue(facts, h, closures)
    ensures ClosuresTrue(facts, h', closures)
  {
    forall c | c in closures ensures SelfTrue(h', SelfEnv(facts, c.0), c.1) {
      SelfGrows(h, h', SelfEnv(facts, c.0), c.1);
    }
  }

  lemma OptionGrows(h: Heap, h': Heap, claim: Option<Node>, a: Option<nat>)
    requires HeapLe(h, h') && OptionMadeAt(h, claim, a)
    ensures OptionMadeAt(h', claim, a)
  {
    if claim.Some? { assert h'[a.value].node == h[a.value].node; }
  }

  lemma CreateTrue(facts: Facts, self: Option<Option<Node>>, insn: EnvInsn, s: State, a: Option<nat>,
                   heap: Heap, closures: set<(Fn, Option<nat>)>, regs: Regs, heap': Heap, closures': set<(Fn, Option<nat>)>, regs': Regs)
    requires FactsTrue(facts, heap, closures) && SelfTrue(heap, self, a) && RegsFit(heap, s, regs)
    requires insn.CreateEnv? && Executes(insn, a, heap, closures, regs, heap', closures', regs') && Agrees(facts, self, insn, s)
    ensures FactsTrue(facts, heap', closures')
  {
    ExecutesGrows(insn, a, heap, closures, regs, heap', closures', regs');
    ClaimsGrow(facts, heap, heap', closures);
    var p := ParentOperand(heap, a, regs, insn.source).value;
    if insn.source.InReg? { GetFits(heap, s, regs, insn.source.reg); }
    forall x | 0 <= x < |heap'| && heap'[x].node in facts.parent
      ensures OptionMadeAt(heap', facts.parent[heap'[x].node], heap'[x].parent)
    {
      if x < |heap| {
        assert heap'[x] == heap[x];
        OptionGrows(heap, heap', facts.parent[heap[x].node], heap[x].parent);
      } else {
        assert heap'[x] == Instance(insn.node, p, map[]);
        assert OptionMadeAt(heap, facts.parent[insn.node], p);
        OptionGrows(heap, heap', facts.parent[insn.node], p);
      }
    }
    forall x, slot | 0 <= x < |heap'| && slot in heap'[x].slots ensures SlotTrue(facts, heap', heap'[x].node, slot, heap'[x].slots[slot]) {
      assert heap'[x] == heap[x];
      SlotGrows(facts, heap, heap', heap[x].node, slot, heap[x].slots[slot]);
    }
  }

  lemma SlotGrows(facts: Facts, h: Heap, h': Heap, n: Node, slot: Slot, v: Value)
    requires HeapLe(h, h') && SlotTrue(facts, h, n, slot, v)
    ensures SlotTrue(facts, h', n, slot, v)
  {
    if (n, slot) in facts.slotEnv && facts.slotEnv[(n, slot)].Holds? { FitsGrows(h, h', Env(facts.slotEnv[(n, slot)].node), v); }
  }

  /** The value a quiet, agreeing store leaves behind. */
  lemma StoredTrue(facts: Facts, env: Reg, slot: Slot, val: Reg, s: State, heap: Heap, regs: Regs)
    requires RegsFit(heap, s, regs) && Address(Read(regs, env), heap).Some?
    requires Learn(facts, None, StoreSlot(env, slot, val), s) == facts && Agrees(facts, None, StoreSlot(env, slot, val), s)
    ensures SlotTrue(facts, heap, heap[Read(regs, env).at].node, slot, Read(regs, val))
  {
    GetFits(heap, s, regs, env);
    GetFits(heap, s, regs, val);
    var n := heap[Read(regs, env).at].node;
    var key := (n, slot);
    if key in facts.slotEnv && facts.slotEnv[key].Holds? {
      assert Get(s, env) == Env(n);
      assert Get(s, val) == Env(facts.slotEnv[key].node) by { QuietStore(facts, env, slot, val, s, n); }
    }
  }

  lemma QuietStore(facts: Facts, env: Reg, slot: Slot, val: Reg, s: State, n: Node)
    requires Get(s, env) == Env(n) && Learn(facts, None, StoreSlot(env, slot, val), s) == facts
    requires (n, slot) in facts.slotEnv && facts.slotEnv[(n, slot)].Holds?
    ensures Get(s, val) == Env(facts.slotEnv[(n, slot)].node)
  {
    var key := (n, slot);
    var changed := facts.(slotEnv := facts.slotEnv[key := Conflict]);
    assert changed.slotEnv[key] == Conflict && facts.slotEnv[key] != Conflict;
  }

  lemma StoreTrue(facts: Facts, self: Option<Option<Node>>, insn: EnvInsn, s: State, a: Option<nat>,
                  heap: Heap, closures: set<(Fn, Option<nat>)>, regs: Regs, heap': Heap, closures': set<(Fn, Option<nat>)>, regs': Regs)
    requires FactsTrue(facts, heap, closures) && RegsFit(heap, s, regs) && insn.StoreSlot?
    requires Executes(insn, a, heap, closures, regs, heap', closures', regs')
    requires Learn(facts, self, insn, s) == facts && Agrees(facts, self, insn, s)
    ensures FactsTrue(facts, heap', closures')
  {
    ExecutesGrows(insn, a, heap, closures, regs, heap', closures', regs');
    ClaimsGrow(facts, heap, heap', closures);
    StoredTrue(facts, insn.env, insn.slot, insn.val, s, heap, regs);
    var at := Read(regs, insn.env).at;
    forall x | 0 <= x < |heap'| && heap'[x].node in facts.parent
      ensures OptionMadeAt(heap', facts.parent[heap'[x].node], heap'[x].parent)
    {
      assert heap[x].node == heap'[x].node;
      OptionGrows(heap, heap', facts.parent[heap[x].node], heap[x].parent);
    }
    forall x, slot | 0 <= x < |heap'| && slot in heap'[x].slots ensures SlotTrue(facts, heap', heap'[x].node, slot, heap'[x].slots[slot]) {
      if x == at && slot == insn.slot {
        SlotGrows(facts, heap, heap', heap[x].node, slot, Read(regs, insn.val));
      } else {
        assert heap'[x].slots[slot] == heap[x].slots[slot];
        SlotGrows(facts, heap, heap', heap[x].node, slot, heap[x].slots[slot]);
      }
    }
  }

  /** An agreeing site that teaches nothing keeps the facts true of the heap. */
  lemma FactsStayTrue(facts: Facts, self: Option<Option<Node>>, insn: EnvInsn, s: State, a: Option<nat>,
                      heap: Heap, closures: set<(Fn, Option<nat>)>, regs: Regs, heap': Heap, closures': set<(Fn, Option<nat>)>, regs': Regs)
    requires FactsTrue(facts, heap, closures) && SelfTrue(heap, self, a) && RegsFit(heap, s, regs)
    requires Executes(insn, a, heap, closures, regs, heap', closures', regs')
    requires Learn(facts, self, insn, s) == facts && Agrees(facts, self, insn, s)
    ensures FactsTrue(facts, heap', closures')
  {
    match insn
    case CreateEnv(_, _, _) => CreateTrue(facts, self, insn, s, a, heap, closures, regs, heap', closures', regs');
    case StoreSlot(_, _, _) => StoreTrue(facts, self, insn, s, a, heap, closures, regs, heap', closures', regs');
    case MakeClosure(_, _, env, _) => GetFits(heap, s, regs, env);
    case _ =>
  }
}
