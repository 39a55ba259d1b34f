// What the straight-line walk of the points-to pass proves, by the instructions alone: which
// writes since the last label a claim goes back to. So the walk misses nothing of the shapes it
// is for, and reports an edge exactly for a call through one of them.
module PointsToTraces {
  import opened CfgTypes
  import opened PtMachine
  import opened PointsTo
  import opened PointsToSound
  import opened PointsToRounds
  import opened PointsToEdges

  // ------------------------------------------------------------------- the last write

  /** The instruction that wrote r last before instruction i, if no label came since. */
  function Writer(code: seq<PtSite>, i: nat, r: Reg): (w: Option<nat>)
    requires i <= |code|
    ensures w.Some? ==> w.value < i && Written(code[w.value].insn) == Some(r)
    decreases i
  {
    if (i < |code| && code[i].target) || i == 0 then None
    else if Written(code[i - 1].insn) == Some(r) then Some(i - 1)
    else Writer(code, i - 1, r)
  }

  ghost predicate LabelAfter(code: seq<PtSite>, lo: nat, hi: nat) {
    exists k: nat {:trigger code[k]} :: lo < k <= hi && k < |code| && code[k].target
  }

  ghost predicate WritesAt(code: seq<PtSite>, j: nat, r: Reg)
    requires j < |code|
  {
    Written(code[j].insn) == Some(r)
  }

  /** ... so there is none exactly when every write is behind a label. */
  lemma {:induction false} WriterIsLast(code: seq<PtSite>, i: nat, r: Reg)
    requires i <= |code|
    ensures match Writer(code, i, r)
            case None => forall j: nat {:trigger WritesAt(code, j, r)} :: j < i && WritesAt(code, j, r) ==> LabelAfter(code, j, i)
            case Some(w) => !LabelAfter(code, w, i) && forall j: nat {:trigger WritesAt(code, j, r)} :: w < j < i ==> !WritesAt(code, j, r)
    decreases i
  {
    if i > 0 && !(i < |code| && code[i].target) {
      if !WritesAt(code, i - 1, r) {
        WriterIsLast(code, i - 1, r);
        forall j: nat | j < i - 1 && LabelAfter(code, j, i - 1) ensures LabelAfter(code, j, i) {
          var k: nat :| j < k <= i - 1 && k < |code| && code[k].target;
        }
      }
    }
  }

  // ------------------------------------------------------------ what a claim goes back to

  /** r holds parameter `slot`: nothing else is ever put in it, or it was loaded or copied. */
  ghost predicate ParamIn(code: seq<PtSite>, i: nat, r: Reg, slot: nat)
    requires i <= |code|
    decreases i
  {
    || (Makes(ParamMaker, code, r, slot) && OnlyMakes(ParamMaker, code, r, slot))
    || (var w := Writer(code, i, r);
        w.Some? &&
        match code[w.value].insn
        case LoadParam(_, s) => s == slot
        case Mov(_, src) => ParamIn(code, w.value, src, slot)
        case _ => false)
  }

  ghost predicate IntIn(code: seq<PtSite>, i: nat, r: Reg, n: int)
    requires i <= |code|
    decreases i
  {
    var w := Writer(code, i, r);
    w.Some? &&
    match code[w.value].insn
    case ConstInt(_, v) => v == n
    case Mov(_, src) => IntIn(code, w.value, src, n)
    case _ => false
  }

  ghost predicate IndexIs(code: seq<PtSite>, i: nat, index: IndexSource, n: int)
    requires i <= |code|
  {
    match index
    case Literal(v) => v == n
    case InReg(r) => IntIn(code, i, r, n)
  }

  /** r holds entry k of fn's dependency map. */
  ghost predicate DepIn(b: Bundle, fn: Fn, i: nat, r: Reg, k: int)
    requires fn < |b.code| && i <= |b.code[fn]|
    decreases i
  {
    var w := Writer(b.code[fn], i, r);
    w.Some? &&
    match b.code[fn][w.value].insn
    case GetIndexed(_, base, index) =>
      fn in b.factories && ParamIn(b.code[fn], w.value, base, b.factories[fn].depMapSlot) && IndexIs(b.code[fn], w.value, index, k)
    case Mov(_, src) => DepIn(b, fn, w.value, src, k)
    case _ => false
  }

  /** The call is require(dependencyMap[k]) with module id as entry k. */
  ghost predicate Requires(b: Bundle, fn: Fn, i: nat, callee: Reg, arg: Option<Reg>, id: ModuleId)
    requires fn < |b.code| && i <= |b.code[fn]|
  {
    && fn in b.factories && arg.Some? && ParamIn(b.code[fn], i, callee, b.factories[fn].requireSlot)
    && exists k: nat {:trigger DepIn(b, fn, i, arg.value, k)} :: k < |b.factories[fn].deps| && b.factories[fn].deps[k] == id && DepIn(b, fn, i, arg.value, k)
  }

  /** r holds module id: required, or loaded from a slot that is resolved to it. */
  ghost predicate ModuleIn(b: Bundle, resolved: map<SlotKey, ModuleId>, fn: Fn, i: nat, r: Reg, id: ModuleId)
    requires fn < |b.code| && i <= |b.code[fn]|
    decreases i
  {
    var w := Writer(b.code[fn], i, r);
    w.Some? &&
    match b.code[fn][w.value].insn
    case CallOp(_, callee, arg) => Requires(b, fn, w.value, callee, arg, id)
    case LoadEnv(_, slot) =>
      (fn, w.value) in b.resolvedAt && (b.resolvedAt[(fn, w.value)], slot) in resolved && resolved[(b.resolvedAt[(fn, w.value)], slot)] == id
    case Mov(_, src) => ModuleIn(b, resolved, fn, w.value, src, id)
    case _ => false
  }

  /** r holds what was read as `name` off module m. */
  ghost predicate ExportIn(b: Bundle, resolved: map<SlotKey, ModuleId>, fn: Fn, i: nat, r: Reg, m: ModuleId, name: string)
    requires fn < |b.code| && i <= |b.code[fn]|
    decreases i
  {
    var w := Writer(b.code[fn], i, r);
    w.Some? &&
    match b.code[fn][w.value].insn
    case GetById(_, base, read) => read == Some(name) && ModuleIn(b, resolved, fn, w.value, base, m)
    case Mov(_, src) => ExportIn(b, resolved, fn, w.value, src, m, name)
    case _ => false
  }

  // ------------------------------------------------------------------ claims are traces

  ghost predicate WriterClaims(b: Bundle, params: map<Reg, nat>, resolved: map<SlotKey, ModuleId>, fn: Fn, i: nat, r: Reg)
    requires fn < |b.code| && i <= |b.code[fn]|
  {
    var vals, w := ValsAt(b, params, resolved, fn, i), Writer(b.code[fn], i, r);
    (if r in vals then Some(vals[r]) else None) ==
      if w.Some? then ClaimOf(b, params, resolved, fn, w.value, b.code[fn][w.value].insn, ValsAt(b, params, resolved, fn, w.value)) else None
  }

  /** What the walk knows of r is what it made of the last write. */
  lemma {:induction false} ClaimIsWriters(b: Bundle, params: map<Reg, nat>, resolved: map<SlotKey, ModuleId>, fn: Fn, i: nat, r: Reg)
    requires fn < |b.code| && i <= |b.code[fn]|
    ensures WriterClaims(b, params, resolved, fn, i, r)
    decreases i
  {
    if i > 0 && !(i < |b.code[fn]| && b.code[fn][i].target) && Written(b.code[fn][i - 1].insn) != Some(r) {
      ClaimIsWriters(b, params, resolved, fn, i - 1, r);
    }
  }

  ghost function Known(b: Bundle, params: map<Reg, nat>, resolved: map<SlotKey, ModuleId>, fn: Fn, i: nat, r: Reg): Option<Claim>
    requires fn < |b.code| && i <= |b.code[fn]|
  {
    ValOf(ValsAt(b, params, resolved, fn, i), params, r)
  }

  lemma UniqueIn(b: Bundle, params: map<Reg, nat>, fn: Fn, r: Reg, slot: nat)
    requires fn < |b.code| && IsParams(b, fn, params)
    ensures (r in params && params[r] == slot) <==> (Makes(ParamMaker, b.code[fn], r, slot) && OnlyMakes(ParamMaker, b.code[fn], r, slot))
  {
  }

  lemma {:induction false} ParamTraced(b: Bundle, params: map<Reg, nat>, resolved: map<SlotKey, ModuleId>, fn: Fn, i: nat, r: Reg, slot: nat)
    requires fn < |b.code| && i <= |b.code[fn]| && IsParams(b, fn, params)
    ensures Known(b, params, resolved, fn, i, r) == Some(ParamOf(slot)) <==> ParamIn(b.code[fn], i, r, slot)
    decreases i
  {
    ClaimIsWriters(b, params, resolved, fn, i, r);
    UniqueIn(b, params, fn, r, slot);
    var w := Writer(b.code[fn], i, r);
    if r in params { UniqueIn(b, params, fn, r, params[r]); }
    if w.Some? && b.code[fn][w.value].insn.Mov? { ParamTraced(b, params, resolved, fn, w.value, b.code[fn][w.value].insn.src, slot); }
  }

  /** A register that only parameters are loaded to holds nothing else. */
  lemma OtherClaim(b: Bundle, params: map<Reg, nat>, resolved: map<SlotKey, ModuleId>, fn: Fn, i: nat, r: Reg, c: Claim)
    requires fn < |b.code| && i <= |b.code[fn]| && !c.ParamOf?
    ensures Known(b, params, resolved, fn, i, r) == Some(c) <==>
      (Writer(b.code[fn], i, r).Some? &&
       var w := Writer(b.code[fn], i, r).value;
       ClaimOf(b, params, resolved, fn, w, b.code[fn][w].insn, ValsAt(b, params, resolved, fn, w)) == Some(c))
  {
    ClaimIsWriters(b, params, resolved, fn, i, r);
  }

  lemma {:induction false} IntTraced(b: Bundle, params: map<Reg, nat>, resolved: map<SlotKey, ModuleId>, fn: Fn, i: nat, r: Reg, n: int)
    requires fn < |b.code| && i <= |b.code[fn]|
    ensures Known(b, params, resolved, fn, i, r) == Some(IntConst(n)) <==> IntIn(b.code[fn], i, r, n)
    decreases i
  {
    OtherClaim(b, params, resolved, fn, i, r, IntConst(n));
    var w := Writer(b.code[fn], i, r);
    if w.Some? && b.code[fn][w.value].insn.Mov? { IntTraced(b, params, resolved, fn, w.value, b.code[fn][w.value].insn.src, n); }
  }

  lemma IndexTraced(b: Bundle, params: map<Reg, nat>, resolved: map<SlotKey, ModuleId>, fn: Fn, i: nat, index: IndexSource, n: int)
    requires fn < |b.code| && i <= |b.code[fn]|
    ensures IndexOf(ValsAt(b, params, resolved, fn, i), params, index) == Some(n) <==> IndexIs(b.code[fn], i, index, n)
  {
    if index.InReg? { IntTraced(b, params, resolved, fn, i, index.reg, n); }
  }

  lemma {:induction false} DepTraced(b: Bundle, params: map<Reg, nat>, resolved: map<SlotKey, ModuleId>, fn: Fn, i: nat, r: Reg, k: int)
    requires fn < |b.code| && i <= |b.code[fn]| && IsParams(b, fn, params)
    ensures Known(b, params, resolved, fn, i, r) == Some(DepIndex(k)) <==> DepIn(b, fn, i, r, k)
    decreases i
  {
    OtherClaim(b, params, resolved, fn, i, r, DepIndex(k));
    var w := Writer(b.code[fn], i, r);
    if w.Some? {
      match b.code[fn][w.value].insn
      case Mov(_, src) => DepTraced(b, params, resolved, fn, w.value, src, k);
      case GetIndexed(_, base, index) =>
        if fn in b.factories { ParamTraced(b, params, resolved, fn, w.value, base, b.factories[fn].depMapSlot); }
        IndexTraced(b, params, resolved, fn, w.value, index, k);
      case _ =>
    }
  }

  lemma RequireTraced(b: Bundle, params: map<Reg, nat>, resolved: map<SlotKey, ModuleId>, fn: Fn, i: nat, callee: Reg, arg: Option<Reg>, id: ModuleId)
    requires fn < |b.code| && i <= |b.code[fn]| && IsParams(b, fn, params)
    ensures RequireClaim(b, params, fn, callee, arg, ValsAt(b, params, resolved, fn, i)) == Some(ModuleVal(id)) <==> Requires(b, fn, i, callee, arg, id)
  {
    if fn in b.factories && arg.Some? {
      ParamTraced(b, params, resolved, fn, i, callee, b.factories[fn].requireSlot);
      var c := Known(b, params, resolved, fn, i, arg.value);
      if c.Some? && c.value.DepIndex? { DepTraced(b, params, resolved, fn, i, arg.value, c.value.index); }
      if Requires(b, fn, i, callee, arg, id) {
        var k: nat :| k < |b.factories[fn].deps| && b.factories[fn].deps[k] == id && DepIn(b, fn, i, arg.value, k);
        DepTraced(b, params, resolved, fn, i, arg.value, k);
      }
    }
  }

  lemma {:induction false} ModuleTraced(b: Bundle, params: map<Reg, nat>, resolved: map<SlotKey, ModuleId>, fn: Fn, i: nat, r: Reg, id: ModuleId)
    requires fn < |b.code| && i <= |b.code[fn]| && IsParams(b, fn, params)
    ensures Known(b, params, resolved, fn, i, r) == Some(ModuleVal(id)) <==> ModuleIn(b, resolved, fn, i, r, id)
    decreases i
  {
    OtherClaim(b, params, resolved, fn, i, r, ModuleVal(id));
    var w := Writer(b.code[fn], i, r);
    if w.Some? {
      match b.code[fn][w.value].insn
      case Mov(_, src) => ModuleTraced(b, params, resolved, fn, w.value, src, id);
      case CallOp(_, callee, arg) => RequireTraced(b, params, resolved, fn, w.value, callee, arg, id);
      case _ =>
    }
  }

  lemma {:induction false} ExportTraced(b: Bundle, params: map<Reg, nat>, resolved: map<SlotKey, ModuleId>, fn: Fn, i: nat, r: Reg, m: ModuleId, name: string)
    requires fn < |b.code| && i <= |b.code[fn]| && IsParams(b, fn, params)
    ensures Known(b, params, resolved, fn, i, r) == Some(ExportVal(m, name)) <==> ExportIn(b, resolved, fn, i, r, m, name)
    decreases i
  {
    OtherClaim(b, params, resolved, fn, i, r, ExportVal(m, name));
    var w := Writer(b.code[fn], i, r);
    if w.Some? {
      match b.code[fn][w.value].insn
      case Mov(_, src) => ExportTraced(b, params, resolved, fn, w.value, src, m, name);
      case GetById(_, base, _) => ModuleTraced(b, params, resolved, fn, w.value, base, m);
      case _ =>
    }
  }

  // ------------------------------------------------------------------------ the edges

  /** The call at i goes through export `name` of m: through what was read under that name, or,
      under the reserved name, through the module itself. It is not itself a require call. */
  ghost predicate CallsThrough(b: Bundle, resolved: map<SlotKey, ModuleId>, fn: Fn, i: nat, m: ModuleId, name: string)
    requires fn < |b.code| && i < |b.code[fn]|
  {
    var insn := b.code[fn][i].insn;
    && insn.CallOp? && (forall id {:trigger Requires(b, fn, i, insn.callee, insn.arg, id)} :: !Requires(b, fn, i, insn.callee, insn.arg, id))
    && (ExportIn(b, resolved, fn, i, insn.callee, m, name) || (name == MODULE_EXPORTS && ModuleIn(b, resolved, fn, i, insn.callee, m)))
  }

  lemma NotRequire(b: Bundle, params: map<Reg, nat>, resolved: map<SlotKey, ModuleId>, fn: Fn, i: nat, callee: Reg, arg: Option<Reg>)
    requires fn < |b.code| && i <= |b.code[fn]| && IsParams(b, fn, params)
    ensures RequireClaim(b, params, fn, callee, arg, ValsAt(b, params, resolved, fn, i)).None? <==>
      forall id {:trigger Requires(b, fn, i, callee, arg, id)} :: !Requires(b, fn, i, callee, arg, id)
  {
    var c := RequireClaim(b, params, fn, callee, arg, ValsAt(b, params, resolved, fn, i));
    if c.Some? { RequireTraced(b, params, resolved, fn, i, callee, arg, c.value.id); }
    forall id | Requires(b, fn, i, callee, arg, id) ensures c == Some(ModuleVal(id)) { RequireTraced(b, params, resolved, fn, i, callee, arg, id); }
  }

  lemma ExportTracedTo(b: Bundle, params: map<Reg, nat>, resolved: map<SlotKey, ModuleId>, fn: Fn, i: nat, m: ModuleId, name: string)
    requires fn < |b.code| && i < |b.code[fn]| && b.code[fn][i].insn.CallOp? && IsParams(b, fn, params)
    ensures CalledExport(params, b.code[fn][i].insn, ValsAt(b, params, resolved, fn, i)) == Some((m, name)) <==>
      (ExportIn(b, resolved, fn, i, b.code[fn][i].insn.callee, m, name)
       || (name == MODULE_EXPORTS && ModuleIn(b, resolved, fn, i, b.code[fn][i].insn.callee, m)))
  {
    ExportTraced(b, params, resolved, fn, i, b.code[fn][i].insn.callee, m, name);
    ModuleTraced(b, params, resolved, fn, i, b.code[fn][i].insn.callee, m);
  }

  lemma EdgeTraced(b: Bundle, params: map<Reg, nat>, resolved: map<SlotKey, ModuleId>, exportsOf: ExportsTable, fn: Fn, i: nat, e: CallEdge)
    requires fn < |b.code| && i < |b.code[fn]| && IsParams(b, fn, params)
    ensures EdgeAt(b, params, exportsOf, fn, b.code[fn][i].insn, ValsAt(b, params, resolved, fn, i)) == Some(e) <==>
      (CallsThrough(b, resolved, fn, i, e.m, e.name) && (e.m, e.name) in exportsOf && exportsOf[(e.m, e.name)] == e.callee)
  {
    var insn := b.code[fn][i].insn;
    if insn.CallOp? {
      NotRequire(b, params, resolved, fn, i, insn.callee, insn.arg);
      ExportTracedTo(b, params, resolved, fn, i, e.m, e.name);
    }
  }

  /** Among all sites the pass reports e exactly at those calls of walked functions that go
      through the export the table maps to e's function. */
  lemma EdgeIffCallsThrough(b: Bundle, P: seq<map<Reg, nat>>, resolved: map<SlotKey, ModuleId>, exportsOf: ExportsTable, walked: set<Fn>,
                            edges: map<SiteKey, CallEdge>, fn: Fn, i: nat, e: CallEdge)
    requires ParamTables(b, P) && AllEdges(b, P, resolved, exportsOf, walked, edges) && fn < |b.code| && i < |b.code[fn]|
    ensures (fn, i) in edges && edges[(fn, i)] == e <==>
      (fn in walked && CallsThrough(b, resolved, fn, i, e.m, e.name) && (e.m, e.name) in exportsOf && exportsOf[(e.m, e.name)] == e.callee)
  {
    assert Find(edges, (fn, i)) == EdgeFor(b, P, resolved, exportsOf, walked, (fn, i));
    EdgeTraced(b, P[fn], resolved, exportsOf, fn, i, e);
  }

  /** The edges are exactly those calls, with the slots and functions of state s. */
  ghost predicate ReportsAll(b: Bundle, s: RoundState, exportsOf: ExportsTable, edges: map<SiteKey, CallEdge>) {
    forall fn: nat, i: nat, e: CallEdge {:trigger CallsThrough(b, s.resolved, fn, i, e.m, e.name), exportsOf[(e.m, e.name)]} ::
      fn < |b.code| && i < |b.code[fn]| ==>
        ((fn, i) in edges && edges[(fn, i)] == e <==>
          (fn in s.walked && CallsThrough(b, s.resolved, fn, i, e.m, e.name) && (e.m, e.name) in exportsOf && exportsOf[(e.m, e.name)] == e.callee))
  }

  /** Of what the whole pass returns: the edges of the last of its rounds, all of them. */
  lemma RoundsReportAll(b: Bundle, index: SlotIndex, exportsOf: ExportsTable, order: seq<Fn>, rounds: nat, edges: map<SiteKey, CallEdge>)
    returns (P: seq<map<Reg, nat>>, trace: seq<RoundState>)
    requires EdgesOfRounds(b, index, exportsOf, order, rounds, edges)
    ensures ParamTables(b, P) && Rounds(b, P, index, order, trace) && Stopped(trace, MAX_ROUNDS) && |trace| == rounds + 1
    ensures ReportsAll(b, trace[rounds], exportsOf, edges)
  {
    P, trace :| ParamTables(b, P) && Rounds(b, P, index, order, trace) && Stopped(trace, MAX_ROUNDS)
      && |trace| == rounds + 1 && AllEdges(b, P, trace[rounds].resolved, exportsOf, trace[rounds].walked, edges);
    var s := trace[rounds];
    forall fn: nat, i: nat, e: CallEdge | fn < |b.code| && i < |b.code[fn]|
      ensures (fn, i) in edges && edges[(fn, i)] == e <==>
        (fn in s.walked && CallsThrough(b, s.resolved, fn, i, e.m, e.name) && (e.m, e.name) in exportsOf && exportsOf[(e.m, e.name)] == e.callee)
    {
      EdgeIffCallsThrough(b, P, s.resolved, exportsOf, s.walked, edges, fn, i, e);
    }
  }

  // ------------------------------------------------------------------------ the slots

  /** The store at x puts module v in the slot. */
  ghost predicate StoresModule(b: Bundle, resolved: map<SlotKey, ModuleId>, x: SiteKey, key: SlotKey, v: ModuleId) {
    && x.0 < |b.code| && x.1 < |b.code[x.0]| && x in b.resolvedAt
    && var insn := b.code[x.0][x.1].insn;
    insn.StoreEnv? && key == (b.resolvedAt[x], insn.slot) && ModuleIn(b, resolved, x.0, x.1, insn.val, v)
  }

  lemma FactTraced(b: Bundle, P: seq<map<Reg, nat>>, resolved: map<SlotKey, ModuleId>, walked: set<Fn>, facts: map<SiteKey, StoreFact>, x: SiteKey, key: SlotKey, v: ModuleId)
    requires ParamTables(b, P) && AllFacts(b, P, resolved, walked, facts)
    ensures x in facts && facts[x] == StoreFact(key, Some(v)) <==> x.0 in walked && StoresModule(b, resolved, x, key, v)
  {
    assert Find(facts, x) == FactFor(b, P, resolved, walked, x);
    if x.0 < |b.code| && x.1 < |b.code[x.0]| && b.code[x.0][x.1].insn.StoreEnv? {
      ModuleTraced(b, P[x.0], resolved, x.0, x.1, b.code[x.0][x.1].insn.val, v);
    }
  }

  /** A round resolves a slot to v exactly when it is stored to, no unresolved store shares its
      number, and every store of it is in a walked function and puts v there. */
  lemma SlotIffAllStores(b: Bundle, P: seq<map<Reg, nat>>, index: SlotIndex, s: RoundState, t: RoundState, key: SlotKey, v: ModuleId)
    requires ParamTables(b, P) && NextRound(b, P, index, s, t)
    ensures key in t.resolved && t.resolved[key] == v <==>
      (key in index.byKey && index.byKey[key].storeSites != [] && key.1 !in index.poisoned
       && forall k {:trigger index.byKey[key].storeSites[k]} :: 0 <= k < |index.byKey[key].storeSites| ==>
            index.byKey[key].storeSites[k].0 in s.walked && StoresModule(b, s.resolved, index.byKey[key].storeSites[k], key, v))
  {
    var facts :| AllFacts(b, P, s.resolved, s.walked, facts) && Resolves(index, facts, t.resolved);
    assert key in t.resolved && t.resolved[key] == v <==> SlotProven(index, facts, key, v);
    if key in index.byKey {
      var sites := index.byKey[key].storeSites;
      forall k | 0 <= k < |sites|
        ensures sites[k] in facts && facts[sites[k]] == StoreFact(key, Some(v)) <==> sites[k].0 in s.walked && StoresModule(b, s.resolved, sites[k], key, v)
      {
        FactTraced(b, P, s.resolved, s.walked, facts, sites[k], key, v);
      }
    }
  }
}
