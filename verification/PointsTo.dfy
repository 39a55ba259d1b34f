// walkOne, resolveSlotValues and the slot fixed point of the points-to pass
// (src/artifact/points-to.ts:266-288, 553-762), and their soundness over runs.
module PointsTo {
  import opened CfgTypes
  import opened PtMachine

  /** What a register is proven to hold. */
  datatype Claim =
    | ModuleVal(id: ModuleId)
    | ExportVal(m: ModuleId, name: string)
    | ParamOf(slot: nat)
    | DepIndex(index: int)
    | IntConst(value: int)

  type Vals = map<Reg, Claim>

  const MODULE_EXPORTS := "module.exports"
  const MAX_ROUNDS := 4

  /** A store site: the slot it writes and the module value it proves, if any. */
  datatype StoreFact = StoreFact(key: SlotKey, value: Option<ModuleId>)

  datatype CallEdge = CallEdge(callee: Fn, m: ModuleId, name: string)

  // ------------------------------------------------------------------ one function

  function ValOf(vals: Vals, params: map<Reg, nat>, r: Reg): Option<Claim> {
    if r in vals then Some(vals[r]) else if r in params then Some(ParamOf(params[r])) else None
  }

  function Assign(vals: Vals, dst: Reg, c: Option<Claim>): Vals {
    if c.Some? then vals[dst := c.value] else vals - {dst}
  }

  function IndexOf(vals: Vals, params: map<Reg, nat>, index: IndexSource): Option<int> {
    match index
    case Literal(v) => Some(v)
    case InReg(r) =>
      match ValOf(vals, params, r)
      case Some(IntConst(v)) => Some(v)
      case _ => None
  }

  /** The claim about the destination of an instruction that has one. */
  function ClaimOf(b: Bundle, params: map<Reg, nat>, resolved: map<SlotKey, ModuleId>, fn: Fn, i: nat, insn: PtInsn, vals: Vals): Option<Claim> {
    match insn
    case Mov(_, src) => ValOf(vals, params, src)
    case LoadParam(_, slot) => Some(ParamOf(slot))
    case ConstInt(_, v) => Some(IntConst(v))
    case GetIndexed(_, base, index) =>
      var at := IndexOf(vals, params, index);
      if fn in b.factories && ValOf(vals, params, base) == Some(ParamOf(b.factories[fn].depMapSlot)) && at.Some? then Some(DepIndex(at.value))
      else None
    case LoadEnv(_, slot) =>
      if (fn, i) in b.resolvedAt && (b.resolvedAt[(fn, i)], slot) in resolved then Some(ModuleVal(resolved[(b.resolvedAt[(fn, i)], slot)])) else None
    case GetById(_, base, name) =>
      var o := ValOf(vals, params, base);
      if o.Some? && o.value.ModuleVal? && name.Some? then Some(ExportVal(o.value.id, name.value)) else None
    case CallOp(_, callee, arg) => RequireClaim(b, params, fn, callee, arg, vals)
    case _ => None
  }

  function RequireClaim(b: Bundle, params: map<Reg, nat>, fn: Fn, callee: Reg, arg: Option<Reg>, vals: Vals): Option<Claim> {
    if fn in b.factories && ValOf(vals, params, callee) == Some(ParamOf(b.factories[fn].requireSlot)) && arg.Some? then
      match ValOf(vals, params, arg.value)
      case Some(DepIndex(k)) => if 0 <= k < |b.factories[fn].deps| then Some(ModuleVal(b.factories[fn].deps[k])) else None
      case _ => None
    else None
  }

  function ValsAfter(b: Bundle, params: map<Reg, nat>, resolved: map<SlotKey, ModuleId>, fn: Fn, i: nat, insn: PtInsn, vals: Vals): Vals {
    if Written(insn).Some? then Assign(vals, Written(insn).value, ClaimOf(b, params, resolved, fn, i, insn, vals)) else vals
  }

  /** The claims before instruction i: dropped at every label. */
  function ValsAt(b: Bundle, params: map<Reg, nat>, resolved: map<SlotKey, ModuleId>, fn: Fn, i: nat): Vals
    requires fn < |b.code| && i <= |b.code[fn]|
    decreases i
  {
    if i < |b.code[fn]| && b.code[fn][i].target then map[]
    else if i == 0 then map[]
    else ValsAfter(b, params, resolved, fn, i - 1, b.code[fn][i - 1].insn, ValsAt(b, params, resolved, fn, i - 1))
  }

  function FactAt(b: Bundle, params: map<Reg, nat>, fn: Fn, i: nat, insn: PtInsn, vals: Vals): Option<StoreFact> {
    if insn.StoreEnv? && (fn, i) in b.resolvedAt then
      var v := ValOf(vals, params, insn.val);
      Some(StoreFact((b.resolvedAt[(fn, i)], insn.slot), if v.Some? && v.value.ModuleVal? then Some(v.value.id) else None))
    else None
  }

  /** The export a call is made through: a property of a module value, or the value itself. */
  function CalledExport(params: map<Reg, nat>, insn: PtInsn, vals: Vals): Option<(ModuleId, string)> {
    if !insn.CallOp? then None
    else match ValOf(vals, params, insn.callee)
      case Some(ModuleVal(id)) => Some((id, MODULE_EXPORTS))
      case Some(ExportVal(m, name)) => Some((m, name))
      case _ => None
  }

  type ExportsTable = map<(ModuleId, string), Fn>

  function EdgeAt(b: Bundle, params: map<Reg, nat>, exportsOf: ExportsTable, fn: Fn, insn: PtInsn, vals: Vals): Option<CallEdge> {
    if insn.CallOp? && RequireClaim(b, params, fn, insn.callee, insn.arg, vals).Some? then None
    else
      var e := CalledExport(params, insn, vals);
      if e.Some? && e.value in exportsOf then Some(CallEdge(exportsOf[e.value], e.value.0, e.value.1)) else None
  }

  function Find<V>(m: map<SiteKey, V>, x: SiteKey): Option<V> {
    if x in m then Some(m[x]) else None
  }

  /** What the walk of fn leaves in its two sinks, over the instructions below n. */
  ghost predicate FactsOf(b: Bundle, resolved: map<SlotKey, ModuleId>, fn: Fn, params: map<Reg, nat>, n: nat,
                          before: map<SiteKey, StoreFact>, stores: map<SiteKey, StoreFact>)
    requires fn < |b.code| && n <= |b.code[fn]|
  {
    && (forall x: SiteKey {:trigger x in stores} :: x.0 != fn || x.1 >= n ==> (x in stores <==> x in before) && (x in stores ==> stores[x] == before[x]))
    && forall i: nat {:trigger (fn, i) in stores} :: i < n ==>
         var f := FactAt(b, params, fn, i, b.code[fn][i].insn, ValsAt(b, params, resolved, fn, i));
         if f.Some? then (fn, i) in stores && stores[(fn, i)] == f.value
         else ((fn, i) in stores <==> (fn, i) in before) && ((fn, i) in stores ==> stores[(fn, i)] == before[(fn, i)])
  }

  ghost predicate EdgesOf(b: Bundle, resolved: map<SlotKey, ModuleId>, exportsOf: ExportsTable, fn: Fn, params: map<Reg, nat>, n: nat,
                          before: map<SiteKey, CallEdge>, edges: map<SiteKey, CallEdge>)
    requires fn < |b.code| && n <= |b.code[fn]|
  {
    && (forall x: SiteKey {:trigger Find(edges, x)} :: x.0 != fn || x.1 >= n ==> Find(edges, x) == Find(before, x))
    && forall i: nat {:trigger Find(edges, (fn, i))} :: i < n ==>
         Find(edges, (fn, i)) == if (fn, i) in before then Some(before[(fn, i)])
                                 else EdgeAt(b, params, exportsOf, fn, b.code[fn][i].insn, ValsAt(b, params, resolved, fn, i))
  }

  ghost predicate IsParams(b: Bundle, fn: Fn, params: map<Reg, nat>)
    requires fn < |b.code|
  {
    IsUnique(ParamMaker, b, fn, params)
  }

  /** walkOne, with both of its sinks. */
  method WalkOne(b: Bundle, fn: Fn, resolved: map<SlotKey, ModuleId>, exportsOf: ExportsTable,
                 stores0: map<SiteKey, StoreFact>, edges0: map<SiteKey, CallEdge>)
    returns (params: map<Reg, nat>, stores: map<SiteKey, StoreFact>, edges: map<SiteKey, CallEdge>)
    requires fn < |b.code|
    ensures IsParams(b, fn, params)
    ensures FactsOf(b, resolved, fn, params, |b.code[fn]|, stores0, stores)
    ensures EdgesOf(b, resolved, exportsOf, fn, params, |b.code[fn]|, edges0, edges)
  {
    params := UniqueWriters(ParamMaker, b.code[fn]);
    stores, edges := stores0, edges0;
    var vals: Vals := map[];
    for i := 0 to |b.code[fn]|
      invariant i == |b.code[fn]| || !b.code[fn][i].target ==> vals == ValsAt(b, params, resolved, fn, i)
      invariant FactsOf(b, resolved, fn, params, i, stores0, stores)
      invariant EdgesOf(b, resolved, exportsOf, fn, params, i, edges0, edges)
    {
      var site := b.code[fn][i];
      if site.target { vals := map[]; }
      assert vals == ValsAt(b, params, resolved, fn, i);
      stores := NoteFact(b, resolved, fn, params, i, vals, stores0, stores);
      edges := NoteEdge(b, resolved, exportsOf, fn, params, i, vals, edges0, edges);
      vals := WalkInsn(b, params, resolved, fn, i, site.insn, vals);
    }
  }

  method NoteFact(b: Bundle, resolved: map<SlotKey, ModuleId>, fn: Fn, params: map<Reg, nat>, i: nat, vals: Vals,
                  ghost stores0: map<SiteKey, StoreFact>, before: map<SiteKey, StoreFact>) returns (stores: map<SiteKey, StoreFact>)
    requires fn < |b.code| && i < |b.code[fn]| && vals == ValsAt(b, params, resolved, fn, i)
    requires FactsOf(b, resolved, fn, params, i, stores0, before)
    ensures FactsOf(b, resolved, fn, params, i + 1, stores0, stores)
  {
    stores := before;
    var insn := b.code[fn][i].insn;
    if !insn.StoreEnv? || (fn, i) !in b.resolvedAt { return; }
    var v := ValOf(vals, params, insn.val);
    stores := stores[(fn, i) := StoreFact((b.resolvedAt[(fn, i)], insn.slot), if v.Some? && v.value.ModuleVal? then Some(v.value.id) else None)];
  }

  method NoteEdge(b: Bundle, resolved: map<SlotKey, ModuleId>, exportsOf: ExportsTable, fn: Fn, params: map<Reg, nat>, i: nat, vals: Vals,
                  ghost edges0: map<SiteKey, CallEdge>, before: map<SiteKey, CallEdge>) returns (edges: map<SiteKey, CallEdge>)
    requires fn < |b.code| && i < |b.code[fn]| && vals == ValsAt(b, params, resolved, fn, i)
    requires EdgesOf(b, resolved, exportsOf, fn, params, i, edges0, before)
    ensures EdgesOf(b, resolved, exportsOf, fn, params, i + 1, edges0, edges)
  {
    edges := before;
    var e := CallMade(b, params, exportsOf, fn, b.code[fn][i].insn, vals);
    if e.Some? && (fn, i) !in edges { edges := edges[(fn, i) := e.value]; }
    EdgeNoted(b, resolved, exportsOf, fn, params, i, e, edges0, before, edges);
  }

  lemma EdgeNoted(b: Bundle, resolved: map<SlotKey, ModuleId>, exportsOf: ExportsTable, fn: Fn, params: map<Reg, nat>, i: nat, e: Option<CallEdge>,
                  edges0: map<SiteKey, CallEdge>, before: map<SiteKey, CallEdge>, edges: map<SiteKey, CallEdge>)
    requires fn < |b.code| && i < |b.code[fn]| && EdgesOf(b, resolved, exportsOf, fn, params, i, edges0, before)
    requires e == EdgeAt(b, params, exportsOf, fn, b.code[fn][i].insn, ValsAt(b, params, resolved, fn, i))
    requires edges == if e.Some? && (fn, i) !in before then before[(fn, i) := e.value] else before
    ensures EdgesOf(b, resolved, exportsOf, fn, params, i + 1, edges0, edges)
  {
    assert Find(before, (fn, i)) == Find(edges0, (fn, i));
    forall x: SiteKey | x != (fn, i) ensures Find(edges, x) == Find(before, x) {
    }
  }

  /** The edge of one call instruction, if it makes one. */
  method CallMade(b: Bundle, params: map<Reg, nat>, exportsOf: ExportsTable, fn: Fn, insn: PtInsn, vals: Vals) returns (edge: Option<CallEdge>)
    ensures edge == EdgeAt(b, params, exportsOf, fn, insn, vals)
  {
    if !insn.CallOp? || RequireClaim(b, params, fn, insn.callee, insn.arg, vals).Some? { return None; }
    var callee := ValOf(vals, params, insn.callee);
    if callee.None? || !(callee.value.ModuleVal? || callee.value.ExportVal?) { return None; }
    var e := if callee.value.ModuleVal? then (callee.value.id, MODULE_EXPORTS) else (callee.value.m, callee.value.name);
    edge := if e in exportsOf then Some(CallEdge(exportsOf[e], e.0, e.1)) else None;
  }

  /** One instruction of the straight-line walk. */
  method WalkInsn(b: Bundle, params: map<Reg, nat>, resolved: map<SlotKey, ModuleId>, fn: Fn, i: nat, insn: PtInsn, vals0: Vals) returns (vals: Vals)
    ensures vals == ValsAfter(b, params, resolved, fn, i, insn, vals0)
  {
    vals := vals0;
    match insn
    case Mov(dst, src) =>
      var v := ValOf(vals, params, src);
      vals := if v.None? then vals - {dst} else vals[dst := v.value];
    case LoadParam(dst, slot) => vals := vals[dst := ParamOf(slot)];
    case ConstInt(dst, value) => vals := vals[dst := IntConst(value)];
    case GetIndexed(dst, base, index) =>
      var o, at := ValOf(vals, params, base), IndexOf(vals, params, index);
      if fn in b.factories && o.Some? && o.value.ParamOf? && o.value.slot == b.factories[fn].depMapSlot && at.Some? {
        vals := vals[dst := DepIndex(at.value)];
      } else {
        vals := vals - {dst};
      }
    case LoadEnv(dst, slot) =>
      if (fn, i) in b.resolvedAt && (b.resolvedAt[(fn, i)], slot) in resolved {
        vals := vals[dst := ModuleVal(resolved[(b.resolvedAt[(fn, i)], slot)])];
      } else {
        vals := vals - {dst};
      }
    case StoreEnv(_, _) =>
    case GetById(dst, base, name) =>
      var o := ValOf(vals, params, base);
      if o.Some? && o.value.ModuleVal? && name.Some? {
        vals := vals[dst := ExportVal(o.value.id, name.value)];
      } else {
        vals := vals - {dst};
      }
    case CallOp(dst, callee, arg) =>
      var r := RequireClaim(b, params, fn, callee, arg, vals);
      vals := if r.Some? then vals[dst := r.value] else vals - {dst};
    case Put(_, _, _) =>
    case Effect =>
    case _ => vals := vals - {insn.dst};
  }

  // ----------------------------------------------------------- slots and their rounds

  datatype SlotRec = SlotRec(storeSites: seq<SiteKey>, readers: seq<Fn>)

  /** The store sites and readers of every slot, and the slot numbers that some store writes
      through an environment nobody could resolve. */
  datatype SlotIndex = SlotIndex(byKey: map<SlotKey, SlotRec>, poisoned: set<Slot>)

  ghost predicate AllProve(facts: map<SiteKey, StoreFact>, key: SlotKey, sites: seq<SiteKey>, n: nat, v: ModuleId)
    requires n <= |sites|
  {
    forall k {:trigger sites[k]} :: 0 <= k < n ==> sites[k] in facts && facts[sites[k]] == StoreFact(key, Some(v))
  }

  ghost predicate SlotProven(index: SlotIndex, facts: map<SiteKey, StoreFact>, key: SlotKey, v: ModuleId) {
    && key in index.byKey && index.byKey[key].storeSites != [] && key.1 !in index.poisoned
    && AllProve(facts, key, index.byKey[key].storeSites, |index.byKey[key].storeSites|, v)
  }

  /** The verdict on one slot. */
  method SlotValue(facts: map<SiteKey, StoreFact>, key: SlotKey, sites: seq<SiteKey>) returns (only: Option<ModuleId>)
    requires sites != []
    ensures forall v: ModuleId :: only == Some(v) <==> AllProve(facts, key, sites, |sites|, v)
  {
    only := None;
    for k := 0 to |sites|
      invariant k == 0 ==> only.None?
      invariant k > 0 ==> only.Some? && AllProve(facts, key, sites, k, only.value)
    {
      if sites[k] !in facts || facts[sites[k]].value.None? || facts[sites[k]].key != key {
        assert forall v: ModuleId :: !(sites[k] in facts && facts[sites[k]] == StoreFact(key, Some(v)));
        return None;
      }
      var v := facts[sites[k]].value;
      if only.Some? && only != v {
        assert sites[0] in facts && facts[sites[0]].value == only;
        return None;
      }
      only := v;
    }
    assert sites[0] in facts;
  }

  /** out resolves exactly the proven slots that are not in left. */
  ghost predicate ResolvesBut(index: SlotIndex, facts: map<SiteKey, StoreFact>, left: set<SlotKey>, out: map<SlotKey, ModuleId>) {
    && (forall key: SlotKey {:trigger key in out} :: key in out ==> key !in left && SlotProven(index, facts, key, out[key]))
    && forall key: SlotKey, v: ModuleId {:trigger SlotProven(index, facts, key, v)} ::
         key !in left && SlotProven(index, facts, key, v) ==> key in out && out[key] == v
  }

  /** The verdict on the slot taken next, recorded. */
  lemma SlotTaken(index: SlotIndex, facts: map<SiteKey, StoreFact>, left: set<SlotKey>, key: SlotKey, verdict: Option<ModuleId>,
                  before: map<SlotKey, ModuleId>, out: map<SlotKey, ModuleId>)
    requires key in left && ResolvesBut(index, facts, left, before)
    requires forall v: ModuleId {:trigger SlotProven(index, facts, key, v)} :: verdict == Some(v) <==> SlotProven(index, facts, key, v)
    requires out == if verdict.Some? then before[key := verdict.value] else before
    ensures ResolvesBut(index, facts, left - {key}, out)
  {
    forall k: SlotKey | k in out ensures k !in left - {key} && SlotProven(index, facts, k, out[k]) {
      if k == key { assert verdict == Some(out[k]); } else { assert k in before; }
    }
    forall k: SlotKey, v: ModuleId | k !in left - {key} && SlotProven(index, facts, k, v) ensures k in out && out[k] == v {
      if k != key { assert k in before && before[k] == v; }
    }
  }

  method SlotVerdict(index: SlotIndex, facts: map<SiteKey, StoreFact>, key: SlotKey) returns (verdict: Option<ModuleId>)
    requires key in index.byKey
    ensures forall v: ModuleId {:trigger SlotProven(index, facts, key, v)} :: verdict == Some(v) <==> SlotProven(index, facts, key, v)
  {
    var sites := index.byKey[key].storeSites;
    if sites == [] || key.1 in index.poisoned { return None; }
    verdict := SlotValue(facts, key, sites);
  }

  /** resolveSlotValues: a slot resolves exactly when every store site in the bundle proved
      the same value, and no unresolved store shares its number. */
  method ResolveSlotValues(index: SlotIndex, facts: map<SiteKey, StoreFact>) returns (out: map<SlotKey, ModuleId>)
    ensures forall key, v: ModuleId :: (key in out && out[key] == v) <==> SlotProven(index, facts, key, v)
  {
    out := map[];
    var left := index.byKey.Keys;
    assert ResolvesBut(index, facts, left, out);
    while left != {}
      invariant left <= index.byKey.Keys && ResolvesBut(index, facts, left, out)
      decreases left
    {
      var key :| key in left;
      ghost var before := out;
      var v := SlotVerdict(index, facts, key);
      if v.Some? { out := out[key := v.value]; }
      SlotTaken(index, facts, left, key, v, before, out);
      left := left - {key};
    }
    forall key, v: ModuleId ensures (key in out && out[key] == v) <==> SlotProven(index, facts, key, v) {
      if key in out { assert SlotProven(index, facts, key, out[key]); }
    }
  }
}
