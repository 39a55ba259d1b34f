// resolvePointsToCalls (src/artifact/points-to.ts:684-762): the factories, the rounds of the
// slot fixed point, and the edges read off at the end.
module PointsToRounds {
  import opened CfgTypes
  import opened PtMachine
  import opened PointsTo
  import opened PointsToSound

  // ------------------------------------------------------------------- factories

  datatype ModuleRow = ModuleRow(id: ModuleId, factory: Fn, deps: seq<ModuleId>)

  /** Metro's factory signature, from a parameter count that includes `this`. */
  function FactoryOf(m: ModuleRow, paramCount: nat): Factory
    requires paramCount >= 6
  {
    Factory(m.id, m.deps, 2, paramCount - 1, paramCount - 2, paramCount - 3)
  }

  predicate Locatable(paramCount: map<Fn, nat>, m: ModuleRow) {
    m.factory in paramCount && paramCount[m.factory] >= 6
  }

  /** The row's factory has at least six parameters, `this` included. */
  ghost predicate HasParams(paramCount: map<Fn, nat>, m: ModuleRow) {
    m.factory in paramCount && !(paramCount[m.factory] < 6)
  }

  /** The last of the first n rows for factory fn. */
  function LastRow(modules: seq<ModuleRow>, paramCount: map<Fn, nat>, n: nat, fn: Fn): (r: Option<nat>)
    requires n <= |modules|
    ensures r.Some? ==> r.value < n && modules[r.value].factory == fn && HasParams(paramCount, modules[r.value])
    ensures r.Some? ==> forall j {:trigger modules[j]} :: r.value < j < n ==> modules[j].factory != fn
    ensures r.None? ==> forall j {:trigger modules[j]} :: 0 <= j < n && modules[j].factory == fn ==> !HasParams(paramCount, modules[j])
    decreases n
  {
    if n == 0 then None
    else if modules[n - 1].factory == fn && Locatable(paramCount, modules[n - 1]) then Some(n - 1)
    else LastRow(modules, paramCount, n - 1, fn)
  }

  /** The first of the first n rows for module id whose parameters can be located. */
  function FirstRow(modules: seq<ModuleRow>, paramCount: map<Fn, nat>, n: nat, id: ModuleId): (r: Option<nat>)
    requires n <= |modules|
    ensures r.Some? ==> r.value < n && modules[r.value].id == id && HasParams(paramCount, modules[r.value])
    ensures var end := if r.Some? then r.value else n;
            forall j {:trigger modules[j]} :: 0 <= j < end && modules[j].id == id ==> !HasParams(paramCount, modules[j])
    decreases n
  {
    if n == 0 then None
    else
      var r := FirstRow(modules, paramCount, n - 1, id);
      if r.None? && modules[n - 1].id == id && Locatable(paramCount, modules[n - 1]) then Some(n - 1) else r
  }

  /** Each factory is that of the last row for its function, each module has that of its first. */
  ghost predicate FactoriesRight(modules: seq<ModuleRow>, paramCount: map<Fn, nat>, n: nat, factories: map<Fn, Factory>, ofModule: map<ModuleId, Fn>)
    requires n <= |modules|
  {
    && (forall fn {:trigger LastRow(modules, paramCount, n, fn)} {:trigger fn in factories} :: FactoryRight(modules, LastRow(modules, paramCount, n, fn), factories, fn))
    && forall id {:trigger FirstRow(modules, paramCount, n, id)} {:trigger id in ofModule} :: ModuleRight(modules, FirstRow(modules, paramCount, n, id), ofModule, id)
  }

  ghost predicate FactoryRight(modules: seq<ModuleRow>, row: Option<nat>, factories: map<Fn, Factory>, fn: Fn)
    requires row.Some? ==> row.value < |modules|
  {
    (fn in factories <==> row.Some?) && (fn in factories ==> factories[fn].id == modules[row.value].id && factories[fn].deps == modules[row.value].deps)
  }

  ghost predicate ModuleRight(modules: seq<ModuleRow>, row: Option<nat>, ofModule: map<ModuleId, Fn>, id: ModuleId)
    requires row.Some? ==> row.value < |modules|
  {
    (id in ofModule <==> row.Some?) && (id in ofModule ==> ofModule[id] == modules[row.value].factory)
  }

  lemma RowTaken(modules: seq<ModuleRow>, paramCount: map<Fn, nat>, n: nat, factories: map<Fn, Factory>, ofModule: map<ModuleId, Fn>,
                 factories': map<Fn, Factory>, ofModule': map<ModuleId, Fn>)
    requires n < |modules| && FactoriesRight(modules, paramCount, n, factories, ofModule)
    requires factories' == if Locatable(paramCount, modules[n]) then factories[modules[n].factory := FactoryOf(modules[n], paramCount[modules[n].factory])] else factories
    requires ofModule' == if Locatable(paramCount, modules[n]) && modules[n].id !in ofModule then ofModule[modules[n].id := modules[n].factory] else ofModule
    ensures FactoriesRight(modules, paramCount, n + 1, factories', ofModule')
  {
    var m := n + 1;
    forall fn ensures FactoryRight(modules, LastRow(modules, paramCount, m, fn), factories', fn) {
      assert FactoryRight(modules, LastRow(modules, paramCount, n, fn), factories, fn);
    }
    forall id ensures ModuleRight(modules, FirstRow(modules, paramCount, m, id), ofModule', id) {
      assert ModuleRight(modules, FirstRow(modules, paramCount, n, id), ofModule, id);
    }
  }

  ghost predicate SlotsRight(paramCount: map<Fn, nat>, factories: map<Fn, Factory>) {
    forall fn {:trigger fn in factories} :: fn in factories ==>
      && fn in paramCount && paramCount[fn] >= 6
      && var f := factories[fn]; f.requireSlot == 2 < f.moduleSlot < f.exportsSlot < f.depMapSlot && f.depMapSlot + 1 == paramCount[fn]
  }

  ghost predicate Ordered(factories: map<Fn, Factory>, ofModule: map<ModuleId, Fn>, order: seq<Fn>) {
    && (forall fn {:trigger fn in order} {:trigger fn in factories} :: fn in order <==> fn in factories)
    && forall id {:trigger id in ofModule} :: id in ofModule ==> ofModule[id] in factories
  }

  method TakeRow(m: ModuleRow, paramCount: map<Fn, nat>, factories: map<Fn, Factory>, ofModule: map<ModuleId, Fn>, order: seq<Fn>)
    returns (factories': map<Fn, Factory>, ofModule': map<ModuleId, Fn>, order': seq<Fn>)
    requires SlotsRight(paramCount, factories) && Ordered(factories, ofModule, order)
    ensures factories' == if Locatable(paramCount, m) then factories[m.factory := FactoryOf(m, paramCount[m.factory])] else factories
    ensures ofModule' == if Locatable(paramCount, m) && m.id !in ofModule then ofModule[m.id := m.factory] else ofModule
    ensures SlotsRight(paramCount, factories') && Ordered(factories', ofModule', order')
  {
    factories', ofModule', order' := factories, ofModule, order;
    if Locatable(paramCount, m) {
      if m.factory !in factories { order' := order + [m.factory]; }
      factories' := factories[m.factory := FactoryOf(m, paramCount[m.factory])];
      if m.id !in ofModule { ofModule' := ofModule[m.id := m.factory]; }
    }
  }

  /** A later row for the same function replaces an earlier one; a module keeps its first. */
  method Factories(modules: seq<ModuleRow>, paramCount: map<Fn, nat>) returns (factories: map<Fn, Factory>, ofModule: map<ModuleId, Fn>, order: seq<Fn>)
    ensures FactoriesRight(modules, paramCount, |modules|, factories, ofModule) && SlotsRight(paramCount, factories)
    ensures forall fn :: fn in order <==> fn in factories
    ensures forall id :: id in ofModule ==> ofModule[id] in factories
  {
    factories, ofModule, order := map[], map[], [];
    for k := 0 to |modules|
      invariant FactoriesRight(modules, paramCount, k, factories, ofModule) && SlotsRight(paramCount, factories) && Ordered(factories, ofModule, order)
    {
      ghost var before, beforeOf := factories, ofModule;
      factories, ofModule, order := TakeRow(modules[k], paramCount, factories, ofModule, order);
      RowTaken(modules, paramCount, k, before, beforeOf, factories, ofModule);
    }
  }

  // ---------------------------------------------------------------- parameter tables

  lemma ParamsExist(b: Bundle, fn: Fn)
    requires fn < |b.code|
    ensures exists p :: IsParams(b, fn, p)
  {
    var code := b.code[fn];
    var regs := set i | 0 <= i < |code| && Written(code[i].insn).Some? :: Written(code[i].insn).value;
    var p := map x | x in regs && exists s: nat :: Makes(ParamMaker, code, x, s) && OnlyMakes(ParamMaker, code, x, s) :: ParamSlot(code, x);
    forall x: Reg, s: nat ensures (x in p && p[x] == s) <==> Makes(ParamMaker, code, x, s) && OnlyMakes(ParamMaker, code, x, s) {
      if Makes(ParamMaker, code, x, s) && OnlyMakes(ParamMaker, code, x, s) {
        var i :| 0 <= i < |code| && Written(code[i].insn) == Some(x) && Made(ParamMaker, code[i].insn) == Some(s);
        assert x in p && Made(ParamMaker, code[i].insn) == Some(p[x]);
      }
    }
    assert IsParams(b, fn, p);
  }

  ghost function ParamSlot(code: seq<PtSite>, x: Reg): (s: nat)
    requires exists s: nat :: Makes(ParamMaker, code, x, s) && OnlyMakes(ParamMaker, code, x, s)
    ensures Makes(ParamMaker, code, x, s) && OnlyMakes(ParamMaker, code, x, s)
  {
    var s: nat :| Makes(ParamMaker, code, x, s) && OnlyMakes(ParamMaker, code, x, s);
    s
  }

  lemma TablesExist(b: Bundle, n: nat) returns (P: seq<map<Reg, nat>>)
    requires n <= |b.code|
    ensures |P| == n && forall fn: nat {:trigger P[fn]} :: fn < n ==> IsParams(b, fn, P[fn])
  {
    if n == 0 { return []; }
    P := TablesExist(b, n - 1);
    ParamsExist(b, n - 1);
    var p :| IsParams(b, n - 1, p);
    P := P + [p];
  }

  // ------------------------------------------------------------------------ rounds

  /** The fact of site x, if its function is walked. */
  ghost function FactFor(b: Bundle, P: seq<map<Reg, nat>>, resolved: map<SlotKey, ModuleId>, walked: set<Fn>, x: SiteKey): Option<StoreFact>
    requires ParamTables(b, P)
  {
    if x.0 in walked && x.0 < |b.code| && x.1 < |b.code[x.0]| then
      FactAt(b, P[x.0], x.0, x.1, b.code[x.0][x.1].insn, ValsAt(b, P[x.0], resolved, x.0, x.1))
    else None
  }

  /** The facts of the walked functions, all of them and no others. */
  ghost predicate AllFacts(b: Bundle, P: seq<map<Reg, nat>>, resolved: map<SlotKey, ModuleId>, walked: set<Fn>, facts: map<SiteKey, StoreFact>)
    requires ParamTables(b, P)
  {
    forall x: SiteKey {:trigger Find(facts, x)} :: Find(facts, x) == FactFor(b, P, resolved, walked, x)
  }

  lemma AllFactsAreRight(b: Bundle, P: seq<map<Reg, nat>>, resolved: map<SlotKey, ModuleId>, walked: set<Fn>, facts: map<SiteKey, StoreFact>)
    requires ParamTables(b, P) && AllFacts(b, P, resolved, walked, facts)
    ensures FactsRight(b, P, resolved, facts)
  {
    forall x: SiteKey | x in facts
      ensures x.0 < |b.code| && x.1 < |b.code[x.0]|
      ensures FactAt(b, P[x.0], x.0, x.1, b.code[x.0][x.1].insn, ValsAt(b, P[x.0], resolved, x.0, x.1)) == Some(facts[x])
    {
      assert Find(facts, x) == FactFor(b, P, resolved, walked, x);
    }
  }

  lemma FactsAccumulate(b: Bundle, P: seq<map<Reg, nat>>, resolved: map<SlotKey, ModuleId>, fn: Fn, params: map<Reg, nat>, walked: set<Fn>,
                        before: map<SiteKey, StoreFact>, stores: map<SiteKey, StoreFact>)
    requires ParamTables(b, P) && fn < |b.code| && IsParams(b, fn, params)
    requires AllFacts(b, P, resolved, walked, before) && FactsOf(b, resolved, fn, params, |b.code[fn]|, before, stores)
    ensures AllFacts(b, P, resolved, walked + {fn}, stores)
  {
    UniqueIsUnique(ParamMaker, b, fn, params, P[fn]);
    forall x: SiteKey ensures Find(stores, x) == FactFor(b, P, resolved, walked + {fn}, x) {
      assert Find(before, x) == FactFor(b, P, resolved, walked, x);
      if x.0 == fn && x.1 < |b.code[fn]| { assert x == (fn, x.1); }
    }
  }

  ghost function Members(fns: seq<Fn>): set<Fn> {
    set fn | fn in fns
  }

  /** The store facts of every walked function, under the slots resolved so far. */
  method CollectFacts(b: Bundle, walked: seq<Fn>, resolved: map<SlotKey, ModuleId>, exportsOf: ExportsTable, ghost P: seq<map<Reg, nat>>)
    returns (facts: map<SiteKey, StoreFact>)
    requires ParamTables(b, P)
    ensures AllFacts(b, P, resolved, Members(walked), facts)
  {
    facts := map[];
    for k := 0 to |walked|
      invariant AllFacts(b, P, resolved, Members(walked[..k]), facts)
    {
      assert Members(walked[..k + 1]) == Members(walked[..k]) + {walked[k]};
      if walked[k] >= |b.code| {
        FactsUnchanged(b, P, resolved, Members(walked[..k]), walked[k], facts);
        continue;
      }
      ghost var before := facts;
      var params, stores, edges := WalkOne(b, walked[k], resolved, exportsOf, facts, map[]);
      facts := stores;
      FactsAccumulate(b, P, resolved, walked[k], params, Members(walked[..k]), before, facts);
    }
    assert walked[..|walked|] == walked;
  }

  /** A function that does not decode adds nothing. */
  lemma FactsUnchanged(b: Bundle, P: seq<map<Reg, nat>>, resolved: map<SlotKey, ModuleId>, walked: set<Fn>, fn: Fn, facts: map<SiteKey, StoreFact>)
    requires ParamTables(b, P) && fn >= |b.code| && AllFacts(b, P, resolved, walked, facts)
    ensures AllFacts(b, P, resolved, walked + {fn}, facts)
  {
    forall x: SiteKey ensures Find(facts, x) == FactFor(b, P, resolved, walked + {fn}, x) {
      assert Find(facts, x) == FactFor(b, P, resolved, walked, x);
    }
  }

  /** The readers of every resolved slot join the walked functions. */
  method AddReaders(index: SlotIndex, resolved: map<SlotKey, ModuleId>, walked0: seq<Fn>) returns (walked: seq<Fn>, grew: bool)
    ensures forall fn :: fn in walked <==> fn in walked0 || Reads(index, resolved, fn)
    ensures (grew ==> exists fn :: fn in walked && fn !in walked0) && (!grew ==> walked == walked0)
  {
    walked, grew := walked0, false;
    var left := resolved.Keys;
    while left != {}
      invariant left <= resolved.Keys && (grew ==> exists fn :: fn in walked && fn !in walked0) && (!grew ==> walked == walked0)
      invariant forall fn :: fn in walked <==> fn in walked0 || exists key :: key in resolved && key !in left && key in index.byKey && fn in index.byKey[key].readers
      decreases left
    {
      var key :| key in left;
      left := left - {key};
      if key !in index.byKey { continue; }
      var more, some := AddAll(index.byKey[key].readers, walked);
      walked, grew := more, grew || some;
    }
  }

  method AddAll(readers: seq<Fn>, walked0: seq<Fn>) returns (walked: seq<Fn>, grew: bool)
    ensures forall fn :: fn in walked <==> fn in walked0 || fn in readers
    ensures (grew ==> exists fn :: fn in walked && fn !in walked0) && (!grew ==> walked == walked0)
  {
    walked, grew := walked0, false;
    for k := 0 to |readers|
      invariant forall fn :: fn in walked <==> fn in walked0 || fn in readers[..k]
      invariant (grew ==> exists fn :: fn in walked && fn !in walked0) && (!grew ==> walked == walked0)
    {
      assert readers[..k + 1] == readers[..k] + [readers[k]];
      if readers[k] !in walked { walked, grew := walked + [readers[k]], true; }
    }
    assert readers[..|readers|] == readers;
  }

  lemma GrewIffMore(before: seq<Fn>, after: seq<Fn>, grew: bool)
    requires (grew ==> exists fn :: fn in after && fn !in before) && (!grew ==> before == after)
    ensures grew <==> Members(before) != Members(after)
  {
    if grew {
      var fn :| fn in after && fn !in before;
      assert fn in Members(after) && fn !in Members(before);
    }
  }

  lemma NothingTruthful(b: Bundle)
    ensures Truthful(b, map[])
  {
  }

  /** Where the fixed point stands between two rounds. */
  datatype RoundState = RoundState(resolved: map<SlotKey, ModuleId>, walked: set<Fn>)

  ghost predicate Reads(index: SlotIndex, resolved: map<SlotKey, ModuleId>, fn: Fn) {
    exists key :: key in resolved && key in index.byKey && fn in index.byKey[key].readers
  }

  /** One round: the walked functions' facts decide the slots, and the readers of resolved
      slots join. */
  ghost predicate NextRound(b: Bundle, P: seq<map<Reg, nat>>, index: SlotIndex, s: RoundState, t: RoundState)
    requires ParamTables(b, P)
  {
    && (exists facts :: AllFacts(b, P, s.resolved, s.walked, facts) && Resolves(index, facts, t.resolved))
    && forall fn :: fn in t.walked <==> fn in s.walked || Reads(index, t.resolved, fn)
  }

  /** The states the rounds went through, from the factories alone. */
  ghost predicate Rounds(b: Bundle, P: seq<map<Reg, nat>>, index: SlotIndex, order: seq<Fn>, trace: seq<RoundState>)
    requires ParamTables(b, P)
  {
    && |trace| > 0 && trace[0] == RoundState(map[], Members(order))
    && forall k {:trigger trace[k]} :: 0 < k < |trace| ==> RoundAt(b, P, index, trace, k)
  }

  ghost predicate RoundAt(b: Bundle, P: seq<map<Reg, nat>>, index: SlotIndex, trace: seq<RoundState>, k: nat)
    requires ParamTables(b, P) && 0 < k < |trace|
  {
    NextRound(b, P, index, trace[k - 1], trace[k])
  }

  ghost predicate Moved(trace: seq<RoundState>, k: nat)
    requires 0 < k < |trace|
  {
    trace[k] != trace[k - 1]
  }

  /** ... up to the first round that changed nothing, or the cap. */
  ghost predicate Stopped(trace: seq<RoundState>, cap: nat) {
    && 0 < |trace| <= cap + 1
    && (forall k {:trigger Moved(trace, k)} :: 0 < k < |trace| - 1 ==> Moved(trace, k))
    && (|trace| == cap + 1 || (|trace| > 1 && !Moved(trace, |trace| - 1)))
  }

  /** The facts of a set of functions are determined. */
  lemma AllFactsUnique(b: Bundle, P: seq<map<Reg, nat>>, resolved: map<SlotKey, ModuleId>, walked: set<Fn>, a: map<SiteKey, StoreFact>, c: map<SiteKey, StoreFact>)
    requires ParamTables(b, P) && AllFacts(b, P, resolved, walked, a) && AllFacts(b, P, resolved, walked, c)
    ensures a == c
  {
    forall x ensures x in a <==> x in c {
      assert Find(a, x) == Find(c, x);
    }
    forall x | x in a ensures a[x] == c[x] {
      assert Find(a, x) == Find(c, x);
    }
  }

  /** A round has one outcome, whatever order anything is iterated in. */
  lemma NextRoundUnique(b: Bundle, P: seq<map<Reg, nat>>, index: SlotIndex, s: RoundState, t: RoundState, u: RoundState)
    requires ParamTables(b, P) && NextRound(b, P, index, s, t) && NextRound(b, P, index, s, u)
    ensures t == u
  {
    var f :| AllFacts(b, P, s.resolved, s.walked, f) && Resolves(index, f, t.resolved);
    var g :| AllFacts(b, P, s.resolved, s.walked, g) && Resolves(index, g, u.resolved);
    AllFactsUnique(b, P, s.resolved, s.walked, f, g);
    ResolvesUnique(index, f, t.resolved, u.resolved);
    assert t.walked == u.walked;
  }

  /** And so do the rounds: two runs of the loop go through the same states. */
  lemma {:induction false} RoundsAgree(b: Bundle, P: seq<map<Reg, nat>>, index: SlotIndex, order: seq<Fn>, a: seq<RoundState>, c: seq<RoundState>, k: nat)
    requires ParamTables(b, P) && Rounds(b, P, index, order, a) && Rounds(b, P, index, order, c) && k < |a| && k < |c|
    ensures a[k] == c[k]
    decreases k
  {
    if k > 0 {
      RoundsAgree(b, P, index, order, a, c, k - 1);
      assert RoundAt(b, P, index, a, k) && RoundAt(b, P, index, c, k);
      NextRoundUnique(b, P, index, a[k - 1], a[k], c[k]);
    }
  }

  lemma RoundsDetermined(b: Bundle, P: seq<map<Reg, nat>>, index: SlotIndex, order: seq<Fn>, cap: nat, a: seq<RoundState>, c: seq<RoundState>)
    requires ParamTables(b, P) && Rounds(b, P, index, order, a) && Rounds(b, P, index, order, c) && Stopped(a, cap) && Stopped(c, cap)
    ensures a == c
  {
    forall k | 0 <= k < |a| && k < |c| ensures a[k] == c[k] { RoundsAgree(b, P, index, order, a, c, k); }
    if |a| < |c| { NoEarlierStop(a, c, cap); }
    if |c| < |a| { NoEarlierStop(c, a, cap); }
  }

  lemma NoEarlierStop(a: seq<RoundState>, c: seq<RoundState>, cap: nat)
    requires Stopped(a, cap) && Stopped(c, cap) && |a| <= |c| && forall k :: 0 <= k < |a| ==> a[k] == c[k]
    ensures |a| == |c|
  {
    assert 1 < |a| < |c| ==> Moved(c, |a| - 1) && (Moved(c, |a| - 1) <==> Moved(a, |a| - 1));
  }

  /** A loop that stopped before its cap stopped at a fixed point: another round changes nothing. */
  lemma StopsAtFixpoint(b: Bundle, P: seq<map<Reg, nat>>, index: SlotIndex, order: seq<Fn>, cap: nat, trace: seq<RoundState>)
    requires ParamTables(b, P) && Rounds(b, P, index, order, trace) && Stopped(trace, cap) && |trace| <= cap
    ensures NextRound(b, P, index, trace[|trace| - 1], trace[|trace| - 1])
  {
    assert RoundAt(b, P, index, trace, |trace| - 1) && !Moved(trace, |trace| - 1);
  }

  /** The slot fixed point: exactly the rounds, and however many of them run, the slots they
      resolve are truthful. */
  method ResolveSlots(b: Bundle, index: SlotIndex, exportsOf: ExportsTable, order: seq<Fn>, cap: nat, ghost P: seq<map<Reg, nat>>)
    returns (resolved: map<SlotKey, ModuleId>, walked: seq<Fn>, rounds: nat, ghost trace: seq<RoundState>)
    requires Complete(b, index) && ParamTables(b, P)
    ensures Rounds(b, P, index, order, trace) && Stopped(trace, cap)
    ensures |trace| == rounds + 1 && trace[rounds] == RoundState(resolved, Members(walked))
    ensures Truthful(b, resolved)
  {
    resolved, walked, rounds := map[], order, 0;
    trace := [RoundState(map[], Members(order))];
    NothingTruthful(b);
    for round := 0 to cap
      invariant Truthful(b, resolved) && rounds == round && |trace| == rounds + 1 && trace[rounds] == RoundState(resolved, Members(walked))
      invariant Rounds(b, P, index, order, trace) && forall k {:trigger Moved(trace, k)} :: 0 < k < |trace| ==> Moved(trace, k)
    {
      rounds := round + 1;
      var facts := CollectFacts(b, walked, resolved, exportsOf, P);
      var next := ResolveSlotValues(index, facts);
      AllFactsAreRight(b, P, resolved, Members(walked), facts);
      NextTruthful(b, P, resolved, index, facts, next);
      var changed := next != resolved;
      var more, grew := AddReaders(index, next, walked);
      ghost var s := RoundState(next, Members(more));
      RoundTaken(b, P, index, trace[round], facts, s);
      Continues(b, P, index, order, trace, s);
      GrewIffMore(walked, more, grew);
      trace := trace + [s];
      resolved, walked := next, more;
      if !changed && !grew {
        assert !Moved(trace, rounds);
        break;
      }
      assert Moved(trace, rounds);
    }
  }

  lemma RoundTaken(b: Bundle, P: seq<map<Reg, nat>>, index: SlotIndex, s: RoundState, facts: map<SiteKey, StoreFact>, t: RoundState)
    requires ParamTables(b, P) && AllFacts(b, P, s.resolved, s.walked, facts) && Resolves(index, facts, t.resolved)
    requires forall fn :: fn in t.walked <==> fn in s.walked || Reads(index, t.resolved, fn)
    ensures NextRound(b, P, index, s, t)
  {
  }

  lemma Continues(b: Bundle, P: seq<map<Reg, nat>>, index: SlotIndex, order: seq<Fn>, trace: seq<RoundState>, s: RoundState)
    requires ParamTables(b, P) && Rounds(b, P, index, order, trace) && NextRound(b, P, index, trace[|trace| - 1], s)
    ensures Rounds(b, P, index, order, trace + [s])
    ensures forall k :: 0 < k < |trace| ==> Moved(trace + [s], k) == Moved(trace, k)
  {
    var longer := trace + [s];
    forall k | 0 < k < |longer| ensures RoundAt(b, P, index, longer, k) {
      if k < |trace| { assert trace[k] == longer[k] && RoundAt(b, P, index, trace, k); }
    }
  }

  ghost function EdgeFor(b: Bundle, P: seq<map<Reg, nat>>, resolved: map<SlotKey, ModuleId>, exportsOf: ExportsTable, walked: set<Fn>, x: SiteKey): Option<CallEdge>
    requires ParamTables(b, P)
  {
    if x.0 in walked && x.0 < |b.code| && x.1 < |b.code[x.0]| then
      EdgeAt(b, P[x.0], exportsOf, x.0, b.code[x.0][x.1].insn, ValsAt(b, P[x.0], resolved, x.0, x.1))
    else None
  }

  /** The call edges of the walked functions, all of them and no others. */
  ghost predicate AllEdges(b: Bundle, P: seq<map<Reg, nat>>, resolved: map<SlotKey, ModuleId>, exportsOf: ExportsTable, walked: set<Fn>, edges: map<SiteKey, CallEdge>)
    requires ParamTables(b, P)
  {
    forall x: SiteKey {:trigger Find(edges, x)} :: Find(edges, x) == EdgeFor(b, P, resolved, exportsOf, walked, x)
  }

  lemma EdgesAccumulate(b: Bundle, P: seq<map<Reg, nat>>, resolved: map<SlotKey, ModuleId>, exportsOf: ExportsTable, fn: Fn, params: map<Reg, nat>, walked: set<Fn>,
                        before: map<SiteKey, CallEdge>, edges: map<SiteKey, CallEdge>)
    requires ParamTables(b, P) && fn < |b.code| && IsParams(b, fn, params)
    requires AllEdges(b, P, resolved, exportsOf, walked, before) && EdgesOf(b, resolved, exportsOf, fn, params, |b.code[fn]|, before, edges)
    ensures AllEdges(b, P, resolved, exportsOf, walked + {fn}, edges)
  {
    UniqueIsUnique(ParamMaker, b, fn, params, P[fn]);
    forall x: SiteKey ensures Find(edges, x) == EdgeFor(b, P, resolved, exportsOf, walked + {fn}, x) {
      assert Find(before, x) == EdgeFor(b, P, resolved, exportsOf, walked, x);
      if x.0 == fn && x.1 < |b.code[fn]| { assert x == (fn, x.1); }
    }
  }

  lemma EdgesUnchanged(b: Bundle, P: seq<map<Reg, nat>>, resolved: map<SlotKey, ModuleId>, exportsOf: ExportsTable, walked: set<Fn>, fn: Fn, edges: map<SiteKey, CallEdge>)
    requires ParamTables(b, P) && fn >= |b.code| && AllEdges(b, P, resolved, exportsOf, walked, edges)
    ensures AllEdges(b, P, resolved, exportsOf, walked + {fn}, edges)
  {
    forall x: SiteKey ensures Find(edges, x) == EdgeFor(b, P, resolved, exportsOf, walked + {fn}, x) {
      assert Find(edges, x) == EdgeFor(b, P, resolved, exportsOf, walked, x);
    }
  }

  method CollectEdges(b: Bundle, walked: seq<Fn>, resolved: map<SlotKey, ModuleId>, exportsOf: ExportsTable, ghost P: seq<map<Reg, nat>>)
    returns (edges: map<SiteKey, CallEdge>)
    requires ParamTables(b, P)
    ensures AllEdges(b, P, resolved, exportsOf, Members(walked), edges)
  {
    edges := map[];
    for k := 0 to |walked|
      invariant AllEdges(b, P, resolved, exportsOf, Members(walked[..k]), edges)
    {
      assert Members(walked[..k + 1]) == Members(walked[..k]) + {walked[k]};
      if walked[k] >= |b.code| {
        EdgesUnchanged(b, P, resolved, exportsOf, Members(walked[..k]), walked[k], edges);
        continue;
      }
      ghost var before := edges;
      var params, stores, more := WalkOne(b, walked[k], resolved, exportsOf, map[], edges);
      edges := more;
      EdgesAccumulate(b, P, resolved, exportsOf, walked[k], params, Members(walked[..k]), before, edges);
    }
    assert walked[..|walked|] == walked;
  }

  /** The callee of an edge, in every run: a value read as the edge's name off its module's
      exports, or those exports themselves. */
  ghost predicate CalleeRight(m: PMachine, e: CallEdge, v: PVal) {
    v == Unwritten || (e.name == MODULE_EXPORTS && v == Exports(e.m)) || (Exports(e.m), e.name, v) in m.gets
  }

  /** Every emitted edge is right in every run, and names the function its export maps to. */
  ghost predicate EdgesTrue(b: Bundle, exportsOf: ExportsTable, edges: map<SiteKey, CallEdge>) {
    forall x: SiteKey {:trigger x in edges} :: x in edges ==>
      && (edges[x].m, edges[x].name) in exportsOf && exportsOf[(edges[x].m, edges[x].name)] == edges[x].callee
      && forall m, i {:trigger Reached(b, m), m.frames[i]} :: Reached(b, m) && 0 <= i < |m.frames| && AtSite(b, m.frames[i]) && (m.frames[i].fn, m.frames[i].pc) == x ==>
           CalleeRight(m, edges[x], CalleeValue(b, m.frames[i]))
  }

  ghost function CalleeValue(b: Bundle, fr: PFrame): PVal
    requires AtSite(b, fr)
  {
    var insn := b.code[fr.fn][fr.pc].insn;
    if insn.CallOp? then Read(fr.regs, insn.callee) else Unwritten
  }

  lemma EdgeIsTrue(b: Bundle, P: seq<map<Reg, nat>>, resolved: map<SlotKey, ModuleId>, exportsOf: ExportsTable, walked: set<Fn>, edges: map<SiteKey, CallEdge>,
                   x: SiteKey, m: PMachine, i: nat)
    requires ParamTables(b, P) && Truthful(b, resolved) && AllEdges(b, P, resolved, exportsOf, walked, edges) && x in edges
    requires Reached(b, m) && i < |m.frames| && AtSite(b, m.frames[i]) && (m.frames[i].fn, m.frames[i].pc) == x
    ensures CalleeRight(m, edges[x], CalleeValue(b, m.frames[i]))
  {
    var n: nat :| ReachedIn(b, m, n);
    ClaimsHold(b, P, resolved, m, n);
    var fr := m.frames[i];
    assert FrameTrue(b, P, resolved, m.gets, fr);
    assert Find(edges, x) == EdgeFor(b, P, resolved, exportsOf, walked, x);
    var insn := b.code[fr.fn][fr.pc].insn;
    if insn.CallOp? { ValOfTrue(b, m.gets, fr, ValsAt(b, P[fr.fn], resolved, fr.fn, fr.pc), P[fr.fn], insn.callee); }
  }

  lemma AllEdgesAreTrue(b: Bundle, P: seq<map<Reg, nat>>, resolved: map<SlotKey, ModuleId>, exportsOf: ExportsTable, walked: set<Fn>, edges: map<SiteKey, CallEdge>)
    requires ParamTables(b, P) && Truthful(b, resolved) && AllEdges(b, P, resolved, exportsOf, walked, edges)
    ensures EdgesTrue(b, exportsOf, edges)
  {
    forall x: SiteKey | x in edges
      ensures (edges[x].m, edges[x].name) in exportsOf && exportsOf[(edges[x].m, edges[x].name)] == edges[x].callee
    {
      assert Find(edges, x) == EdgeFor(b, P, resolved, exportsOf, walked, x);
    }
    forall x: SiteKey, m, i | x in edges && Reached(b, m) && 0 <= i < |m.frames| && AtSite(b, m.frames[i]) && (m.frames[i].fn, m.frames[i].pc) == x
      ensures CalleeRight(m, edges[x], CalleeValue(b, m.frames[i]))
    {
      EdgeIsTrue(b, P, resolved, exportsOf, walked, edges, x, m, i);
    }
  }

  /** The whole pass: exactly the rounds, exactly the edges their last state justifies, and all
      of it true in every run. */
  method ResolvePointsToCalls(b: Bundle, index: SlotIndex, exportsOf: ExportsTable, order: seq<Fn>)
    returns (edges: map<SiteKey, CallEdge>, resolved: map<SlotKey, ModuleId>, rounds: nat, ghost P: seq<map<Reg, nat>>, ghost trace: seq<RoundState>)
    requires Complete(b, index)
    ensures ParamTables(b, P) && Rounds(b, P, index, order, trace) && Stopped(trace, MAX_ROUNDS)
    ensures |trace| == rounds + 1 && trace[rounds].resolved == resolved && AllEdges(b, P, resolved, exportsOf, trace[rounds].walked, edges)
    ensures Truthful(b, resolved) && EdgesTrue(b, exportsOf, edges)
  {
    P := TablesExist(b, |b.code|);
    var walked: seq<Fn>;
    resolved, walked, rounds, trace := ResolveSlots(b, index, exportsOf, order, MAX_ROUNDS, P);
    edges := CollectEdges(b, walked, resolved, exportsOf, P);
    AllEdgesAreTrue(b, P, resolved, exportsOf, Members(walked), edges);
  }
}
