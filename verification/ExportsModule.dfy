// exportsOfModule (src/artifact/points-to.ts:296-329): two passes over a factory, the second
// reading the closure slots the first one proved.
module ExportsModule {
  import opened CfgTypes
  import opened PtMachine
  import opened PointsTo
  import opened PointsToSound
  import opened ExportsPass
  import opened ExportsSound
  import opened Invariants
  import opened LastWrite

  lemma StoredClosure(cx: Context, index: SlotIndex, facts: map<SiteKey, StoreFact>, next: map<SlotKey, Fn>, m: PMachine, fr: PFrame, n: Node)
    requires ContextRight(cx) && Complete(cx.b, index) && Resolves(index, facts, next) && FactsTo(cx, |cx.b.code[cx.fn]|, facts)
    requires FactoryFrame(cx, m.gets, m.puts, fr) && AtSite(cx.b, fr) && (fr.fn, fr.pc) in cx.b.live && cx.b.code[fr.fn][fr.pc].insn.StoreEnv?
    requires (fr.fn, fr.pc) in cx.b.resolvedAt ==> n == cx.b.resolvedAt[(fr.fn, fr.pc)]
    ensures SlotClosure(next, n, cx.b.code[fr.fn][fr.pc].insn.slot, Read(fr.regs, cx.b.code[fr.fn][fr.pc].insn.val))
  {
    var insn := cx.b.code[fr.fn][fr.pc].insn;
    if (n, insn.slot) in next {
      StoreProven(cx.b, index, facts, next, fr.fn, fr.pc, n);
      assert Find(facts, (fr.fn, fr.pc)).Some?;
      ParamTrue(cx, m.gets, m.puts, fr, KnownAt(cx, fr.pc), insn.val);
    }
  }

  lemma ExecuteKeepsClosures(cx: Context, index: SlotIndex, facts: map<SiteKey, StoreFact>, next: map<SlotKey, Fn>, m: PMachine, m': PMachine, i: nat)
    requires ContextRight(cx) && Complete(cx.b, index) && Resolves(index, facts, next) && FactsTo(cx, |cx.b.code[cx.fn]|, facts)
    requires FactoryFrames(cx, m) && SlotClosures(next, m.heap) && Executes(cx.b, m, m', i)
    ensures SlotClosures(next, m'.heap)
  {
    var fr := m.frames[i];
    var insn := cx.b.code[fr.fn][fr.pc].insn;
    if insn.StoreEnv? {
      var a: nat :| PtMachine.Touches(cx.b, m.heap, (fr.fn, fr.pc), a)
        && m'.heap == m.heap[a := m.heap[a].(slots := m.heap[a].slots[insn.slot := Read(fr.regs, insn.val)])];
      StoredClosure(cx, index, facts, next, m, fr, m.heap[a].node);
      forall x, slot | 0 <= x < |m'.heap| && slot in m'.heap[x].slots ensures SlotClosure(next, m'.heap[x].node, slot, m'.heap[x].slots[slot]) {
        if x == a && slot == insn.slot {
          assert m'.heap[x].slots[slot] == Read(fr.regs, insn.val);
        } else {
          assert m'.heap[x].slots[slot] == m.heap[x].slots[slot];
        }
      }
    }
  }

  lemma StepKeepsClosures(cx: Context, index: SlotIndex, facts: map<SiteKey, StoreFact>, next: map<SlotKey, Fn>, m: PMachine, m': PMachine)
    requires ContextRight(cx) && Complete(cx.b, index) && Resolves(index, facts, next) && FactsTo(cx, |cx.b.code[cx.fn]|, facts)
    requires FactoryFrames(cx, m) && SlotClosures(next, m.heap) && Step(cx.b, m, m')
    ensures SlotClosures(next, m'.heap)
  {
    if i :| Executes(cx.b, m, m', i) {
      ExecuteKeepsClosures(cx, index, facts, next, m, m', i);
    } else if node :| Allocates(m, m', node) {
      assert forall a :: 0 <= a < |m.heap| ==> m'.heap[a] == m.heap[a];
    }
  }

  lemma ReachedKeepsClosures(cx: Context, index: SlotIndex, facts: map<SiteKey, StoreFact>, next: map<SlotKey, Fn>, m: PMachine, m': PMachine, n: nat)
    requires ContextRight(cx) && Complete(cx.b, index) && Resolves(index, facts, next) && FactsTo(cx, |cx.b.code[cx.fn]|, facts)
    requires TruthfulClosures(cx.b, cx.slots) && ReachedIn(cx.b, m, n) && SlotClosures(next, m.heap) && Step(cx.b, m, m')
    ensures SlotClosures(next, m'.heap)
  {
    KnownHolds(cx, m, n);
    StepKeepsClosures(cx, index, facts, next, m, m');
  }

  lemma {:induction false} NextClosuresHold(cx: Context, index: SlotIndex, facts: map<SiteKey, StoreFact>, next: map<SlotKey, Fn>, m: PMachine, n: nat)
    requires ContextRight(cx) && Complete(cx.b, index) && Resolves(index, facts, next) && FactsTo(cx, |cx.b.code[cx.fn]|, facts)
    requires TruthfulClosures(cx.b, cx.slots) && ReachedIn(cx.b, m, n)
    ensures SlotClosures(next, m.heap)
    decreases n
  {
    if n > 0 {
      var m0 :| ReachedIn(cx.b, m0, n - 1) && Step(cx.b, m0, m);
      NextClosuresHold(cx, index, facts, next, m0, n - 1);
      ReachedKeepsClosures(cx, index, facts, next, m0, m, n - 1);
    }
  }

  /** The closure slots that one pass proves are right in every run. */
  lemma NextClosuresTruthful(cx: Context, index: SlotIndex, facts: map<SiteKey, StoreFact>, next: map<SlotKey, Fn>)
    requires ContextRight(cx) && Complete(cx.b, index) && Resolves(index, facts, next) && FactsTo(cx, |cx.b.code[cx.fn]|, facts)
    requires TruthfulClosures(cx.b, cx.slots)
    ensures TruthfulClosures(cx.b, next)
  {
    forall m | Reached(cx.b, m) ensures SlotClosures(next, m.heap) {
      var n: nat :| ReachedIn(cx.b, m, n);
      NextClosuresHold(cx, index, facts, next, m, n);
    }
  }

  /** In every run, a put recognised under a name writes to the exports object (or replaces
      it), and stores the closure, or the undefined, it is said to store. */
  ghost predicate PutRight(cx: Context, m: PMachine, fr: PFrame, put: NamedPut)
    requires AtSite(cx.b, fr) && cx.b.code[fr.fn][fr.pc].insn.Put?
  {
    var insn := cx.b.code[fr.fn][fr.pc].insn;
    && (IsExportsObject(cx, m.gets, m.puts, fr.params, Read(fr.regs, insn.obj))
        || (put.name == MODULE_EXPORTS && insn.name == Some("exports") && IsOrUnwritten(Read(fr.regs, insn.obj), ParamVal(fr.params, cx.f.moduleSlot))))
    && (put.kind.StoresClosure? ==> IsOrUnwritten(Read(fr.regs, insn.val), ClosureVal(put.kind.fn)))
    && (put.kind.StoresUndef? ==> IsOrUnwritten(Read(fr.regs, insn.val), Undef))
  }

  lemma RecognisedPutIsRight(cx: Context, m: PMachine, i: nat, put: NamedPut)
    requires ContextRight(cx) && TruthfulClosures(cx.b, cx.slots) && Reached(cx.b, m)
    requires i < |m.frames| && m.frames[i].fn == cx.fn && AtSite(cx.b, m.frames[i])
    requires PutAt(cx, cx.b.code[cx.fn][m.frames[i].pc].insn, KnownAt(cx, m.frames[i].pc)) == Some(put)
    ensures PutRight(cx, m, m.frames[i], put)
  {
    var n: nat :| ReachedIn(cx.b, m, n);
    KnownHolds(cx, m, n);
    var fr := m.frames[i];
    assert FactoryFrame(cx, m.gets, m.puts, fr);
    var insn, s := cx.b.code[cx.fn][fr.pc].insn, KnownAt(cx, fr.pc);
    ParamTrue(cx, m.gets, m.puts, fr, s, insn.obj);
    ParamTrue(cx, m.gets, m.puts, fr, s, insn.val);
  }

  lemma NoClosuresYet(b: Bundle)
    ensures TruthfulClosures(b, map[])
  {
  }

  /** The closure slots of the second walk are the ones the first walk, without any, resolves. */
  ghost predicate SecondWalk(cx: Context, index: SlotIndex)
    requires cx.fn < |cx.b.code|
  {
    exists facts :: FactsTo(cx.(slots := map[]), |cx.b.code[cx.fn]|, facts) && Resolves(index, facts, cx.slots)
  }

  /** There is only one second walk of a factory, so only one set of bindings. */
  lemma SecondWalkUnique(a: Context, c: Context, index: SlotIndex)
    requires ContextRight(a) && ContextRight(c) && a.b == c.b && a.fn == c.fn && a.f == c.f && SecondWalk(a, index) && SecondWalk(c, index)
    ensures a == c
  {
    UniqueIsUnique(ParamMaker, a.b, a.fn, a.params, c.params);
    UniqueIsUnique(ClosureMaker, a.b, a.fn, a.unique, c.unique);
    var first := a.(slots := map[]);
    assert first == c.(slots := map[]);
    var n := |a.b.code[a.fn]|;
    var f :| FactsTo(first, n, f) && Resolves(index, f, a.slots);
    var g :| FactsTo(first, n, g) && Resolves(index, g, c.slots);
    FactsToUnique(first, n, f, g);
    ResolvesUnique(index, f, a.slots, c.slots);
  }

  /** exportsOfModule. */
  method ExportsOfModule(b: Bundle, index: SlotIndex, fn: Fn, f: Factory, cfg: Option<FunctionCfg>) returns (bound: map<string, Fn>, ghost cx: Context)
    requires fn < |b.code| && Complete(b, index) && (cfg.Some? ==> CfgShape(cfg.value) && Disjoint(cfg.value.blocks))
    ensures ContextRight(cx) && cx.b == b && cx.fn == fn && cx.f == f && SecondWalk(cx, index) && TruthfulClosures(b, cx.slots)
    ensures forall name: string, g: Fn :: (name in bound && bound[name] == g) <==> BoundTo(cx, cfg, name, g)
  {
    var params := UniqueWriters(ParamMaker, b.code[fn]);
    var unique := UniqueWriters(ClosureMaker, b.code[fn]);
    var first := Context(b, fn, f, params, unique, map[]);
    NoClosuresYet(b);
    var ignored, facts := RunPass(first, cfg);
    var slots := ResolveSlotValues(index, facts);
    NextClosuresTruthful(first, index, facts, slots);
    var second := first.(slots := slots);
    cx := second;
    assert cx.(slots := map[]) == first;
    var found, more := RunPass(second, cfg);
    bound := found;
  }

  function CfgOf(cfgs: map<Fn, FunctionCfg>, fn: Fn): Option<FunctionCfg> {
    if fn in cfgs then Some(cfgs[fn]) else None
  }

  function WithNames(table: ExportsTable, id: ModuleId, bound: map<string, Fn>): ExportsTable {
    table + map name | name in bound :: (id, name) := bound[name]
  }

  lemma WithNamesGets(table: ExportsTable, id: ModuleId, bound: map<string, Fn>, i: ModuleId, name: string)
    ensures var t := WithNames(table, id, bound);
      if i == id && name in bound then (i, name) in t && t[(i, name)] == bound[name]
      else ((i, name) in t <==> (i, name) in table) && ((i, name) in t ==> t[(i, name)] == table[(i, name)])
  {
    var more := map n | n in bound :: (id, n) := bound[n];
    assert (i, name) in more <==> i == id && name in bound;
  }

  /** A table entry, as the passes decide it. */
  ghost predicate TableRight(cxs: map<ModuleId, Context>, cfgs: map<Fn, FunctionCfg>, table: ExportsTable, id: ModuleId, name: string, f: Fn) {
    ((id, name) in table && table[(id, name)] == f) <==> id in cxs && ContextRight(cxs[id]) && BoundTo(cxs[id], CfgOf(cfgs, cxs[id].fn), name, f)
  }

  lemma TableNext(cxs: map<ModuleId, Context>, cfgs: map<Fn, FunctionCfg>, table: ExportsTable, id: ModuleId, cx: Context, bound: map<string, Fn>,
                  i: ModuleId, name: string, f: Fn)
    requires ContextRight(cx) && id !in cxs
    requires forall j: ModuleId, n: string, g: Fn :: TableRight(cxs, cfgs, table, j, n, g)
    requires forall n: string, g: Fn :: (n in bound && bound[n] == g) <==> BoundTo(cx, CfgOf(cfgs, cx.fn), n, g)
    ensures TableRight(cxs[id := cx], cfgs, WithNames(table, id, bound), i, name, f)
  {
    assert TableRight(cxs, cfgs, table, i, name, f);
    assert TableRight(cxs, cfgs, table, i, name, if (i, name) in table then table[(i, name)] else 0);
    WithNamesGets(table, id, bound, i, name);
  }

  /** The second walk of module id's factory. */
  ghost predicate ContextOf(b: Bundle, index: SlotIndex, ofModule: map<ModuleId, Fn>, id: ModuleId, cx: Context) {
    && id in ofModule && ofModule[id] in b.factories && ContextRight(cx) && cx.b == b && cx.fn == ofModule[id] && cx.f == b.factories[ofModule[id]]
    && SecondWalk(cx, index) && TruthfulClosures(b, cx.slots)
  }

  /** The table for every module, each from its own factory; a factory that does not decode
      exports nothing. */
  method ExportsOfAll(b: Bundle, index: SlotIndex, ofModule: map<ModuleId, Fn>, cfgs: map<Fn, FunctionCfg>)
    returns (table: ExportsTable, ghost cxs: map<ModuleId, Context>)
    requires Complete(b, index) && forall id :: id in ofModule ==> ofModule[id] in b.factories
    requires forall fn :: fn in cfgs ==> CfgShape(cfgs[fn]) && Disjoint(cfgs[fn].blocks)
    ensures forall id :: id in cxs <==> id in ofModule && ofModule[id] < |b.code|
    ensures forall id :: id in cxs ==> ContextOf(b, index, ofModule, id, cxs[id])
    ensures forall id: ModuleId, name: string, f: Fn :: TableRight(cxs, cfgs, table, id, name, f)
  {
    table, cxs := map[], map[];
    var left := ofModule.Keys;
    while left != {}
      invariant left <= ofModule.Keys
      invariant forall id :: id in cxs <==> id in ofModule && id !in left && ofModule[id] < |b.code|
      invariant forall id :: id in cxs ==> ContextOf(b, index, ofModule, id, cxs[id])
      invariant forall id: ModuleId, name: string, f: Fn :: TableRight(cxs, cfgs, table, id, name, f)
      decreases left
    {
      var id :| id in left;
      left := left - {id};
      var fn := ofModule[id];
      if fn >= |b.code| { continue; }
      ghost var before, cxs0 := table, cxs;
      var bound, cx := ExportsOfModule(b, index, fn, b.factories[fn], CfgOf(cfgs, fn));
      table := WithNames(table, id, bound);
      cxs := cxs[id := cx];
      forall i: ModuleId, name: string, f: Fn ensures TableRight(cxs, cfgs, table, i, name, f) {
        TableNext(cxs0, cfgs, before, id, cx, bound, i, name, f);
      }
    }
  }
}
