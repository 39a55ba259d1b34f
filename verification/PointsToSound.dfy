// Soundness of the points-to pass: what a register is proven to hold it holds in every run,
// and a resolved slot only ever receives its module's exports, after any number of rounds.
module PointsToSound {
  import opened CfgTypes
  import opened PtMachine
  import opened PointsTo

  /** Read as in the machine: v is what the claim says, or a register or slot never written. */
  ghost predicate Proves(b: Bundle, gets: History, fn: Fn, params: Params, c: Claim, v: PVal) {
    v.Unwritten? ||
    match c
    case ModuleVal(id) => v == Exports(id)
    case ExportVal(m, name) => (Exports(m), name, v) in gets
    case ParamOf(s) => v == ParamVal(params, s)
    case DepIndex(i) => fn in b.factories && 0 <= i < |b.factories[fn].deps| ==> v == DepId(fn, i)
    case IntConst(n) => v == IntVal(n)
  }

  ghost predicate ValsTrue(b: Bundle, gets: History, fr: PFrame, vals: Vals) {
    forall r {:trigger vals[r]} {:trigger r in vals} :: r in vals ==> Proves(b, gets, fr.fn, fr.params, vals[r], PtMachine.Read(fr.regs, r))
  }

  ghost predicate ParamTables(b: Bundle, P: seq<map<Reg, nat>>) {
    |P| == |b.code| && forall fn: nat {:trigger P[fn]} :: fn < |P| ==> IsParams(b, fn, P[fn])
  }

  ghost predicate ParamRegsTrue(fr: PFrame, params: map<Reg, nat>) {
    forall r {:trigger r in params} :: r in params ==> Read(fr.regs, r) == Unwritten || Read(fr.regs, r) == ParamVal(fr.params, params[r])
  }

  ghost predicate FrameTrue(b: Bundle, P: seq<map<Reg, nat>>, resolved: map<SlotKey, ModuleId>, gets: History, fr: PFrame)
    requires ParamTables(b, P)
  {
    && InCode(b, fr) && ParamsFit(b, fr.fn, fr.params) && ParamRegsTrue(fr, P[fr.fn])
    && ValsTrue(b, gets, fr, ValsAt(b, P[fr.fn], resolved, fr.fn, fr.pc))
  }

  ghost predicate FramesTrue(b: Bundle, P: seq<map<Reg, nat>>, resolved: map<SlotKey, ModuleId>, m: PMachine)
    requires ParamTables(b, P)
  {
    forall i {:trigger m.frames[i]} :: 0 <= i < |m.frames| ==> FrameTrue(b, P, resolved, m.gets, m.frames[i])
  }

  ghost predicate SlotHolds(resolved: map<SlotKey, ModuleId>, n: Node, slot: Slot, v: PVal) {
    (n, slot) in resolved ==> v == Unwritten || v == Exports(resolved[(n, slot)])
  }

  ghost predicate SlotsTrue(resolved: map<SlotKey, ModuleId>, heap: seq<PEnv>) {
    forall a, slot {:trigger heap[a].slots[slot]} :: 0 <= a < |heap| && slot in heap[a].slots ==> SlotHolds(resolved, heap[a].node, slot, heap[a].slots[slot])
  }

  /** In every run, a resolved slot only ever holds its module's exports. */
  ghost predicate Truthful(b: Bundle, resolved: map<SlotKey, ModuleId>) {
    forall m {:trigger Reached(b, m)} :: Reached(b, m) ==> SlotsTrue(resolved, m.heap)
  }

  // -------------------------------------------------------------- one instruction

  lemma ValOfTrue(b: Bundle, gets: History, fr: PFrame, vals: Vals, params: map<Reg, nat>, r: Reg)
    requires ValsTrue(b, gets, fr, vals) && ParamRegsTrue(fr, params)
    ensures ValOf(vals, params, r).Some? ==> Proves(b, gets, fr.fn, fr.params, ValOf(vals, params, r).value, Read(fr.regs, r))
  {
  }

  lemma IndexTrue(b: Bundle, gets: History, fr: PFrame, vals: Vals, params: map<Reg, nat>, index: IndexSource)
    requires ValsTrue(b, gets, fr, vals) && ParamRegsTrue(fr, params)
    ensures IndexOf(vals, params, index).Some? && IndexValue(fr.regs, index) != Unwritten ==>
      IndexValue(fr.regs, index) == IntVal(IndexOf(vals, params, index).value)
  {
    if index.InReg? { ValOfTrue(b, gets, fr, vals, params, index.reg); }
  }

  lemma RequireTrue(b: Bundle, gets: History, fr: PFrame, vals: Vals, params: map<Reg, nat>, callee: Reg, arg: Option<Reg>, v: PVal)
    requires ValsTrue(b, gets, fr, vals) && ParamRegsTrue(fr, params) && ParamsFit(b, fr.fn, fr.params)
    requires Yields(b, fr.params, fr.regs, CallOp(0, callee, arg), v) && RequireClaim(b, params, fr.fn, callee, arg, vals).Some?
    ensures Proves(b, gets, fr.fn, fr.params, RequireClaim(b, params, fr.fn, callee, arg, vals).value, v)
  {
    ValOfTrue(b, gets, fr, vals, params, callee);
    ValOfTrue(b, gets, fr, vals, params, arg.value);
    assert Read(fr.regs, callee) == RequireFn;
    assert RequireGives(b, Read(fr.regs, arg.value), v);
  }

  /** The claim about a destination is right about any value the instruction may leave there. */
  lemma ClaimTrue(b: Bundle, gets: History, fr: PFrame, vals: Vals, params: map<Reg, nat>, resolved: map<SlotKey, ModuleId>, i: nat, insn: PtInsn, v: PVal, gets': History)
    requires ValsTrue(b, gets, fr, vals) && ParamRegsTrue(fr, params) && ParamsFit(b, fr.fn, fr.params)
    requires Written(insn).Some? && !insn.LoadEnv? && Yields(b, fr.params, fr.regs, insn, v) && gets <= gets'
    requires insn.GetById? && insn.name.Some? ==> (Read(fr.regs, insn.base), insn.name.value, v) in gets'
    requires ClaimOf(b, params, resolved, fr.fn, i, insn, vals).Some?
    ensures Proves(b, gets', fr.fn, fr.params, ClaimOf(b, params, resolved, fr.fn, i, insn, vals).value, v)
  {
    match insn
    case Mov(_, src) => ValOfTrue(b, gets, fr, vals, params, src);
    case GetIndexed(_, base, index) =>
      ValOfTrue(b, gets, fr, vals, params, base);
      IndexTrue(b, gets, fr, vals, params, index);
    case GetById(_, base, _) => ValOfTrue(b, gets, fr, vals, params, base);
    case CallOp(_, callee, arg) =>
      RequireTrue(b, gets, fr, vals, params, callee, arg, v);
    case _ =>
  }

  lemma LoadTrue(b: Bundle, gets: History, fr: PFrame, params: map<Reg, nat>, resolved: map<SlotKey, ModuleId>, i: nat, dst: Reg, slot: Slot, vals: Vals,
                 heap: seq<PEnv>, regs': Regs)
    requires SlotsTrue(resolved, heap) && Loads(b, heap, (fr.fn, i), slot, fr.regs, dst, regs')
    requires ClaimOf(b, params, resolved, fr.fn, i, LoadEnv(dst, slot), vals).Some?
    ensures Proves(b, gets, fr.fn, fr.params, ClaimOf(b, params, resolved, fr.fn, i, LoadEnv(dst, slot), vals).value, Read(regs', dst))
  {
    var a: nat :| PtMachine.Touches(b, heap, (fr.fn, i), a) && regs' == fr.regs[dst := if slot in heap[a].slots then heap[a].slots[slot] else Unwritten];
    if slot in heap[a].slots { assert SlotHolds(resolved, heap[a].node, slot, heap[a].slots[slot]); }
  }

  lemma AssignTrue(b: Bundle, gets: History, fr: PFrame, vals: Vals, dst: Reg, c: Option<Claim>, fr': PFrame, gets': History)
    requires ValsTrue(b, gets, fr, vals) && gets <= gets' && fr'.fn == fr.fn && fr'.params == fr.params
    requires forall r: Reg :: r != dst ==> Read(fr'.regs, r) == Read(fr.regs, r)
    requires c.Some? ==> Proves(b, gets', fr.fn, fr.params, c.value, Read(fr'.regs, dst))
    ensures ValsTrue(b, gets', fr', Assign(vals, dst, c))
  {
    forall r | r in Assign(vals, dst, c) ensures Proves(b, gets', fr'.fn, fr'.params, Assign(vals, dst, c)[r], Read(fr'.regs, r)) {
      if r != dst { assert r in vals; }
    }
  }

  lemma ValsGrow(b: Bundle, gets: History, fr: PFrame, vals: Vals, gets': History)
    requires ValsTrue(b, gets, fr, vals) && gets <= gets'
    ensures ValsTrue(b, gets', fr, vals)
  {
    forall r | r in vals ensures Proves(b, gets', fr.fn, fr.params, vals[r], Read(fr.regs, r)) {
      assert Proves(b, gets, fr.fn, fr.params, vals[r], Read(fr.regs, r));
    }
  }

  /** A register that only LoadParam writes still holds that parameter. */
  lemma ParamRegsStay(b: Bundle, fr: PFrame, params: map<Reg, nat>, i: nat, fr': PFrame)
    requires fr.fn < |b.code| && i < |b.code[fr.fn]| && IsParams(b, fr.fn, params) && ParamRegsTrue(fr, params) && fr'.params == fr.params
    requires var w := Written(b.code[fr.fn][i].insn); forall r: Reg :: w != Some(r) ==> Read(fr'.regs, r) == Read(fr.regs, r)
    requires b.code[fr.fn][i].insn.LoadParam? ==> Read(fr'.regs, b.code[fr.fn][i].insn.dst) == ParamVal(fr.params, b.code[fr.fn][i].insn.slot)
    ensures ParamRegsTrue(fr', params)
  {
    forall r | r in params ensures Read(fr'.regs, r) == Unwritten || Read(fr'.regs, r) == ParamVal(fr'.params, params[r]) {
      assert OnlyMakes(ParamMaker, b.code[fr.fn], r, params[r]);
      if Written(b.code[fr.fn][i].insn) == Some(r) { assert b.code[fr.fn][i].insn.LoadParam?; }
    }
  }

  /** The registers of a frame after one instruction. */
  lemma ExecuteFrame(b: Bundle, P: seq<map<Reg, nat>>, resolved: map<SlotKey, ModuleId>, m: PMachine, m': PMachine, i: nat)
    requires ParamTables(b, P) && SlotsTrue(resolved, m.heap) && Executes(b, m, m', i) && FrameTrue(b, P, resolved, m.gets, m.frames[i])
    ensures m.gets <= m'.gets && FrameTrue(b, P, resolved, m'.gets, m'.frames[i])
  {
    var fr, fr' := m.frames[i], m'.frames[i];
    var insn := b.code[fr.fn][fr.pc].insn;
    var params := P[fr.fn];
    var vals := ValsAt(b, params, resolved, fr.fn, fr.pc);
    var c := ClaimOf(b, params, resolved, fr.fn, fr.pc, insn, vals);
    ParamRegsStay(b, fr, params, fr.pc, fr');
    if Written(insn).Some? {
      if c.Some? {
        if insn.LoadEnv? { LoadTrue(b, m'.gets, fr, params, resolved, fr.pc, insn.dst, insn.slot, vals, m.heap, fr'.regs); }
        else { ClaimTrue(b, m.gets, fr, vals, params, resolved, fr.pc, insn, Read(fr'.regs, insn.dst), m'.gets); }
      }
      AssignTrue(b, m.gets, fr, vals, insn.dst, c, fr', m'.gets);
    } else {
      ValsGrow(b, m.gets, fr, vals, m'.gets);
    }
    assert ValsTrue(b, m'.gets, fr', ValsAfter(b, params, resolved, fr.fn, fr.pc, insn, vals));
  }

  // -------------------------------------------------------------------- machine steps

  lemma FrameGrows(b: Bundle, P: seq<map<Reg, nat>>, resolved: map<SlotKey, ModuleId>, gets: History, gets': History, fr: PFrame)
    requires ParamTables(b, P) && FrameTrue(b, P, resolved, gets, fr) && gets <= gets'
    ensures FrameTrue(b, P, resolved, gets', fr)
  {
    ValsGrow(b, gets, fr, ValsAt(b, P[fr.fn], resolved, fr.fn, fr.pc), gets');
  }

  lemma ExecuteKeeps(b: Bundle, P: seq<map<Reg, nat>>, resolved: map<SlotKey, ModuleId>, m: PMachine, m': PMachine, i: nat)
    requires ParamTables(b, P) && SlotsTrue(resolved, m.heap) && Executes(b, m, m', i) && FramesTrue(b, P, resolved, m)
    ensures FramesTrue(b, P, resolved, m')
  {
    ExecuteFrame(b, P, resolved, m, m', i);
    forall j | 0 <= j < |m'.frames| ensures FrameTrue(b, P, resolved, m'.gets, m'.frames[j]) {
      if j != i {
        assert m'.frames[j] == m.frames[j];
        FrameGrows(b, P, resolved, m.gets, m'.gets, m.frames[j]);
      }
    }
  }

  lemma JumpKeeps(b: Bundle, P: seq<map<Reg, nat>>, resolved: map<SlotKey, ModuleId>, m: PMachine, m': PMachine, i: nat, pc: nat)
    requires ParamTables(b, P) && Jumps(b, m, m', i, pc) && FramesTrue(b, P, resolved, m)
    ensures FramesTrue(b, P, resolved, m')
  {
    forall j | 0 <= j < |m'.frames| ensures FrameTrue(b, P, resolved, m'.gets, m'.frames[j]) {
      assert FrameTrue(b, P, resolved, m.gets, m.frames[j]);
      if j == i { assert ValsAt(b, P[m.frames[i].fn], resolved, m.frames[i].fn, pc) == map[]; }
    }
  }

  lemma EnterKeeps(b: Bundle, P: seq<map<Reg, nat>>, resolved: map<SlotKey, ModuleId>, m: PMachine, m': PMachine, fr: PFrame)
    requires ParamTables(b, P) && Enters(b, m, m', fr) && FramesTrue(b, P, resolved, m)
    ensures FramesTrue(b, P, resolved, m')
  {
    assert ValsAt(b, P[fr.fn], resolved, fr.fn, 0) == map[];
    forall j | 0 <= j < |m'.frames| ensures FrameTrue(b, P, resolved, m'.gets, m'.frames[j]) {
      if j < |m.frames| { assert m'.frames[j] == m.frames[j]; }
    }
  }

  lemma StepKeepsFrames(b: Bundle, P: seq<map<Reg, nat>>, resolved: map<SlotKey, ModuleId>, m: PMachine, m': PMachine)
    requires ParamTables(b, P) && SlotsTrue(resolved, m.heap) && FramesTrue(b, P, resolved, m) && Step(b, m, m')
    ensures FramesTrue(b, P, resolved, m')
  {
    if i :| Executes(b, m, m', i) { ExecuteKeeps(b, P, resolved, m, m', i); }
    else if i, pc :| Jumps(b, m, m', i, pc) { JumpKeeps(b, P, resolved, m, m', i, pc); }
    else if fr :| Enters(b, m, m', fr) { EnterKeeps(b, P, resolved, m, m', fr); }
    else { var node :| Allocates(m, m', node); }
  }

  /** With truthful slots, every claim holds in every run. */
  lemma {:induction false} ClaimsHold(b: Bundle, P: seq<map<Reg, nat>>, resolved: map<SlotKey, ModuleId>, m: PMachine, n: nat)
    requires ParamTables(b, P) && Truthful(b, resolved) && ReachedIn(b, m, n)
    ensures FramesTrue(b, P, resolved, m)
    decreases n
  {
    if n > 0 {
      var m0 :| ReachedIn(b, m0, n - 1) && Step(b, m0, m);
      ClaimsHold(b, P, resolved, m0, n - 1);
      assert Reached(b, m0);
      StepKeepsFrames(b, P, resolved, m0, m);
    }
  }

  // ------------------------------------------------------------------- one more round

  /** The index knows every store that can run: under its slot when the environment was
      resolved, as a poisoned slot number when it was not. */
  ghost predicate Complete(b: Bundle, index: SlotIndex) {
    forall fn: nat, i: nat {:trigger b.code[fn][i]} :: fn < |b.code| && i < |b.code[fn]| && (fn, i) in b.live && b.code[fn][i].insn.StoreEnv? ==>
      var slot := b.code[fn][i].insn.slot;
      if (fn, i) in b.resolvedAt then (b.resolvedAt[(fn, i)], slot) in index.byKey && (fn, i) in index.byKey[(b.resolvedAt[(fn, i)], slot)].storeSites
      else slot in index.poisoned
  }

  /** Every recorded fact is what the walk says about its site. */
  ghost predicate FactsRight(b: Bundle, P: seq<map<Reg, nat>>, resolved: map<SlotKey, ModuleId>, facts: map<SiteKey, StoreFact>)
    requires ParamTables(b, P)
  {
    forall x: SiteKey {:trigger x in facts} :: x in facts ==>
      x.0 < |b.code| && x.1 < |b.code[x.0]|
      && FactAt(b, P[x.0], x.0, x.1, b.code[x.0][x.1].insn, ValsAt(b, P[x.0], resolved, x.0, x.1)) == Some(facts[x])
  }

  ghost predicate Resolves(index: SlotIndex, facts: map<SiteKey, StoreFact>, next: map<SlotKey, ModuleId>) {
    forall key, v: ModuleId :: (key in next && next[key] == v) <==> SlotProven(index, facts, key, v)
  }

  lemma ResolvesUnique(index: SlotIndex, facts: map<SiteKey, StoreFact>, a: map<SlotKey, ModuleId>, c: map<SlotKey, ModuleId>)
    requires Resolves(index, facts, a) && Resolves(index, facts, c)
    ensures a == c
  {
    forall key ensures key in a <==> key in c {
      if key in a { assert SlotProven(index, facts, key, a[key]); }
      if key in c { assert SlotProven(index, facts, key, c[key]); }
    }
    forall key | key in a ensures a[key] == c[key] { assert SlotProven(index, facts, key, a[key]); }
  }

  lemma StoreProven(b: Bundle, index: SlotIndex, facts: map<SiteKey, StoreFact>, next: map<SlotKey, ModuleId>, fn: nat, i: nat, n: Node)
    requires Complete(b, index) && Resolves(index, facts, next)
    requires fn < |b.code| && i < |b.code[fn]| && (fn, i) in b.live && b.code[fn][i].insn.StoreEnv?
    requires ((fn, i) in b.resolvedAt ==> n == b.resolvedAt[(fn, i)]) && (n, b.code[fn][i].insn.slot) in next
    ensures (fn, i) in facts && facts[(fn, i)] == StoreFact((n, b.code[fn][i].insn.slot), Some(next[(n, b.code[fn][i].insn.slot)]))
  {
    var key := (n, b.code[fn][i].insn.slot);
    assert SlotProven(index, facts, key, next[key]);
    var sites := index.byKey[key].storeSites;
    assert (fn, i) in b.resolvedAt;
    var k :| 0 <= k < |sites| && sites[k] == (fn, i);
  }

  /** A store into a slot that resolves next stores its module's exports. */
  lemma StoreTrue(b: Bundle, P: seq<map<Reg, nat>>, resolved: map<SlotKey, ModuleId>, index: SlotIndex, facts: map<SiteKey, StoreFact>,
                  next: map<SlotKey, ModuleId>, gets: History, fr: PFrame, n: Node)
    requires ParamTables(b, P) && Complete(b, index) && Resolves(index, facts, next) && FactsRight(b, P, resolved, facts)
    requires FrameTrue(b, P, resolved, gets, fr) && AtSite(b, fr) && (fr.fn, fr.pc) in b.live && b.code[fr.fn][fr.pc].insn.StoreEnv?
    requires (fr.fn, fr.pc) in b.resolvedAt ==> n == b.resolvedAt[(fr.fn, fr.pc)]
    ensures SlotHolds(next, n, b.code[fr.fn][fr.pc].insn.slot, Read(fr.regs, b.code[fr.fn][fr.pc].insn.val))
  {
    var insn := b.code[fr.fn][fr.pc].insn;
    if (n, insn.slot) in next {
      StoreProven(b, index, facts, next, fr.fn, fr.pc, n);
      ValOfTrue(b, gets, fr, ValsAt(b, P[fr.fn], resolved, fr.fn, fr.pc), P[fr.fn], insn.val);
    }
  }

  lemma StepKeepsSlots(b: Bundle, P: seq<map<Reg, nat>>, resolved: map<SlotKey, ModuleId>, index: SlotIndex, facts: map<SiteKey, StoreFact>,
                       next: map<SlotKey, ModuleId>, m: PMachine, m': PMachine)
    requires ParamTables(b, P) && Complete(b, index) && Resolves(index, facts, next) && FactsRight(b, P, resolved, facts)
    requires FramesTrue(b, P, resolved, m) && SlotsTrue(next, m.heap) && Step(b, m, m')
    ensures SlotsTrue(next, m'.heap)
  {
    if i :| Executes(b, m, m', i) {
      ExecuteKeepsSlots(b, P, resolved, index, facts, next, m, m', i);
    } else if node :| Allocates(m, m', node) {
      assert forall a :: 0 <= a < |m.heap| ==> m'.heap[a] == m.heap[a];
    }
  }

  lemma ExecuteKeepsSlots(b: Bundle, P: seq<map<Reg, nat>>, resolved: map<SlotKey, ModuleId>, index: SlotIndex, facts: map<SiteKey, StoreFact>,
                          next: map<SlotKey, ModuleId>, m: PMachine, m': PMachine, i: nat)
    requires ParamTables(b, P) && Complete(b, index) && Resolves(index, facts, next) && FactsRight(b, P, resolved, facts)
    requires FramesTrue(b, P, resolved, m) && SlotsTrue(next, m.heap) && Executes(b, m, m', i)
    ensures SlotsTrue(next, m'.heap)
  {
    var fr := m.frames[i];
    var insn := b.code[fr.fn][fr.pc].insn;
    if insn.StoreEnv? {
      var a: nat :| PtMachine.Touches(b, m.heap, (fr.fn, fr.pc), a)
        && m'.heap == m.heap[a := m.heap[a].(slots := m.heap[a].slots[insn.slot := Read(fr.regs, insn.val)])];
      StoreTrue(b, P, resolved, index, facts, next, m.gets, fr, m.heap[a].node);
      forall x, slot | 0 <= x < |m'.heap| && slot in m'.heap[x].slots ensures SlotHolds(next, m'.heap[x].node, slot, m'.heap[x].slots[slot]) {
        if x == a && slot == insn.slot {
          assert m'.heap[x].slots[slot] == Read(fr.regs, insn.val);
        } else {
          assert m'.heap[x].slots[slot] == m.heap[x].slots[slot];
        }
      }
    }
  }

  lemma {:induction false} NextHolds(b: Bundle, P: seq<map<Reg, nat>>, resolved: map<SlotKey, ModuleId>, index: SlotIndex, facts: map<SiteKey, StoreFact>,
                                     next: map<SlotKey, ModuleId>, m: PMachine, n: nat)
    requires ParamTables(b, P) && Complete(b, index) && Resolves(index, facts, next) && FactsRight(b, P, resolved, facts)
    requires Truthful(b, resolved) && ReachedIn(b, m, n)
    ensures SlotsTrue(next, m.heap)
    decreases n
  {
    if n > 0 {
      var m0 :| ReachedIn(b, m0, n - 1) && Step(b, m0, m);
      NextHolds(b, P, resolved, index, facts, next, m0, n - 1);
      ClaimsHold(b, P, resolved, m0, n - 1);
      StepKeepsSlots(b, P, resolved, index, facts, next, m0, m);
    }
  }

  /** Truthful slots give truthful slots, one round on. */
  lemma NextTruthful(b: Bundle, P: seq<map<Reg, nat>>, resolved: map<SlotKey, ModuleId>, index: SlotIndex, facts: map<SiteKey, StoreFact>, next: map<SlotKey, ModuleId>)
    requires ParamTables(b, P) && Complete(b, index) && Resolves(index, facts, next) && FactsRight(b, P, resolved, facts)
    requires Truthful(b, resolved)
    ensures Truthful(b, next)
  {
    forall m | Reached(b, m) ensures SlotsTrue(next, m.heap) {
      var n: nat :| ReachedIn(b, m, n);
      NextHolds(b, P, resolved, index, facts, next, m, n);
    }
  }
}
