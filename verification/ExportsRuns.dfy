// What a reported export says about the object that is required. Puts and reads are taken in the
// order a run makes them, and module.exports holds what was last put there.
module ExportsRuns {
  import opened CfgTypes
  import opened PtMachine
  import opened PointsTo
  import opened PointsToRounds
  import opened ExportsPass
  import opened ExportsSound
  import opened ExportsModule
  import opened PointsToEdges
  import opened Invariants
  import opened LastWrite

  // ------------------------------------------------------------------------ runs

  ghost predicate StepAt(b: Bundle, run: seq<PMachine>, k: nat)
    requires k + 1 < |run|
  {
    Step(b, run[k], run[k + 1])
  }

  ghost predicate IsRun(b: Bundle, run: seq<PMachine>) {
    |run| > 0 && run[0] == PMachine([], [], {}, {}) && forall k: nat {:trigger StepAt(b, run, k)} :: k + 1 < |run| ==> StepAt(b, run, k)
  }

  lemma {:induction false} RunReachesIn(b: Bundle, run: seq<PMachine>, k: nat)
    requires IsRun(b, run) && k < |run|
    ensures ReachedIn(b, run[k], k)
    decreases k
  {
    if k > 0 {
      RunReachesIn(b, run, k - 1);
      assert StepAt(b, run, k - 1);
    }
  }

  lemma RunReaches(b: Bundle, run: seq<PMachine>, k: nat)
    requires IsRun(b, run) && k < |run|
    ensures Reached(b, run[k])
  {
    RunReachesIn(b, run, k);
  }

  /** Step k is frame i putting v under name on o. */
  ghost predicate Puts(b: Bundle, run: seq<PMachine>, k: nat, i: nat, o: PVal, name: string, v: PVal) {
    && k + 1 < |run| && Executes(b, run[k], run[k + 1], i)
    && var fr := run[k].frames[i];
    var insn := b.code[fr.fn][fr.pc].insn;
    insn.Put? && insn.name == Some(name) && o == Read(fr.regs, insn.obj) && v == Read(fr.regs, insn.val)
  }

  /** Step k is frame i reading v under name off o. */
  ghost predicate Gets(b: Bundle, run: seq<PMachine>, k: nat, i: nat, o: PVal, name: string, v: PVal) {
    && k + 1 < |run| && Executes(b, run[k], run[k + 1], i)
    && var fr := run[k].frames[i];
    var insn := b.code[fr.fn][fr.pc].insn;
    insn.GetById? && insn.name == Some(name) && o == Read(fr.regs, insn.base) && v == Read(run[k + 1].frames[i].regs, insn.dst)
  }

  /** What the sets of puts and reads of a machine record are steps of its run. */
  lemma {:induction false} RecordedPuts(b: Bundle, run: seq<PMachine>, n: nat, o: PVal, name: string, v: PVal)
    requires IsRun(b, run) && n < |run| && (o, name, v) in run[n].puts
    ensures exists k: nat, i: nat :: k < n && Puts(b, run, k, i, o, name, v)
    decreases n
  {
    if n > 0 {
      assert StepAt(b, run, n - 1);
      if (o, name, v) in run[n - 1].puts {
        RecordedPuts(b, run, n - 1, o, name, v);
      } else {
        var i :| Executes(b, run[n - 1], run[n], i);
        assert Puts(b, run, n - 1, i, o, name, v);
      }
    }
  }

  lemma {:induction false} RecordedGets(b: Bundle, run: seq<PMachine>, n: nat, o: PVal, name: string, v: PVal)
    requires IsRun(b, run) && n < |run| && (o, name, v) in run[n].gets
    ensures exists k: nat, i: nat :: k < n && Gets(b, run, k, i, o, name, v)
    decreases n
  {
    if n > 0 {
      assert StepAt(b, run, n - 1);
      if (o, name, v) in run[n - 1].gets {
        RecordedGets(b, run, n - 1, o, name, v);
      } else {
        var i :| Executes(b, run[n - 1], run[n], i);
        assert Gets(b, run, n - 1, i, o, name, v);
      }
    }
  }

  // -------------------------------------------------------------- what a property holds

  ghost predicate PutBefore(b: Bundle, run: seq<PMachine>, n: nat, o: PVal, name: string) {
    exists k: nat, i: nat, v :: k < n && Puts(b, run, k, i, o, name, v)
  }

  /** Step k is the last put under name on o before time n, and puts v. */
  ghost predicate LastPuts(b: Bundle, run: seq<PMachine>, n: nat, o: PVal, name: string, k: nat, i: nat, v: PVal) {
    && k < n && Puts(b, run, k, i, o, name, v)
    && forall j: nat, x: nat, u {:trigger Puts(b, run, j, x, o, name, u)} :: k < j < n ==> !Puts(b, run, j, x, o, name, u)
  }

  /** At time n the property holds v: what was last put there, or `init` when nothing was. */
  ghost predicate Holds(b: Bundle, run: seq<PMachine>, n: nat, o: PVal, name: string, init: PVal, v: PVal) {
    if PutBefore(b, run, n, o, name) then exists k: nat, i: nat :: LastPuts(b, run, n, o, name, k, i, v) else v == init
  }

  /** Reading the property gives what it holds: it is a data property nobody traps. */
  ghost predicate ReadsWhatItHolds(b: Bundle, run: seq<PMachine>, o: PVal, name: string, init: PVal) {
    forall k: nat, i: nat, v {:trigger Gets(b, run, k, i, o, name, v)} :: Gets(b, run, k, i, o, name, v) ==> Holds(b, run, k, o, name, init, v)
  }

  // ---------------------------------------------------------------- one activation

  /** Frame i is a call of the factory with these parameters. */
  ghost predicate Activation(cx: Context, run: seq<PMachine>, i: nat, params: Params) {
    exists n {:trigger run[n]} :: 0 <= n < |run| && i < |run[n].frames| && run[n].frames[i].fn == cx.fn && run[n].frames[i].params == params
  }

  lemma FrameStays(b: Bundle, m: PMachine, m': PMachine, i: nat)
    requires Step(b, m, m')
    ensures |m.frames| <= |m'.frames| && (i < |m.frames| ==> m'.frames[i].fn == m.frames[i].fn && m'.frames[i].params == m.frames[i].params)
  {
    if j :| Executes(b, m, m', j) {
    } else if j, pc :| Jumps(b, m, m', j, pc) {
    } else if fr :| Enters(b, m, m', fr) {
    } else {
      var node :| Allocates(m, m', node);
    }
  }

  lemma {:induction false} FrameIsSame(b: Bundle, run: seq<PMachine>, n: nat, k: nat, i: nat)
    requires IsRun(b, run) && n <= k < |run| && i < |run[n].frames|
    ensures i < |run[k].frames| && run[k].frames[i].fn == run[n].frames[i].fn && run[k].frames[i].params == run[n].frames[i].params
    decreases k
  {
    if n < k {
      FrameIsSame(b, run, n, k - 1, i);
      assert StepAt(b, run, k - 1);
      FrameStays(b, run[k - 1], run[k], i);
    }
  }

  /** ... and stays one. */
  lemma StaysActivation(cx: Context, run: seq<PMachine>, i: nat, params: Params, k: nat)
    requires IsRun(cx.b, run) && Activation(cx, run, i, params) && k < |run| && i < |run[k].frames|
    ensures run[k].frames[i].fn == cx.fn && run[k].frames[i].params == params
  {
    var n :| 0 <= n < |run| && i < |run[n].frames| && run[n].frames[i].fn == cx.fn && run[n].frames[i].params == params;
    if n <= k { FrameIsSame(cx.b, run, n, k, i); } else { FrameIsSame(cx.b, run, k, n, i); }
  }

  /** The guard of points-to.ts:480 and 488 at instruction j. */
  ghost predicate Replaces(cx: Context, j: nat)
    requires cx.fn < |cx.b.code| && j < |cx.b.code[cx.fn]|
  {
    var insn := cx.b.code[cx.fn][j].insn;
    insn.Put? && insn.name == Some("exports") && IsModuleParam(cx, KnownAt(cx, j), insn.obj)
  }

  ghost predicate NeverReplaces(cx: Context)
    requires cx.fn < |cx.b.code|
  {
    forall j: nat {:trigger Replaces(cx, j)} :: j < |cx.b.code[cx.fn]| ==> !Replaces(cx, j)
  }

  /** Frame i makes step k at a put recognised under key. */
  ghost predicate RecognisedAs(cx: Context, run: seq<PMachine>, k: nat, i: nat, key: string)
    requires cx.fn < |cx.b.code|
  {
    && k < |run| && i < |run[k].frames| && run[k].frames[i].fn == cx.fn && run[k].frames[i].pc < |cx.b.code[cx.fn]|
    && exists kind :: HasPut(cx, run[k].frames[i].pc, key, kind)
  }

  /** Whatever is put under prop on o in this run is put there by activation i, by puts
      recognised under key. */
  ghost predicate OnlyRecognised(cx: Context, run: seq<PMachine>, i: nat, o: PVal, prop: string, key: string)
    requires cx.fn < |cx.b.code|
  {
    forall k: nat, x: nat, v {:trigger Puts(cx.b, run, k, x, o, prop, v)} :: Puts(cx.b, run, k, x, o, prop, v) ==> x == i && RecognisedAs(cx, run, k, i, key)
  }

  function ModuleOf(cx: Context, params: Params): PVal {
    ParamVal(params, cx.f.moduleSlot)
  }

  function GivenTo(cx: Context, params: Params): PVal {
    ParamVal(params, cx.f.exportsSlot)
  }

  /** The module object of activation i: its `exports` starts as the object the factory is given,
      is read as it is, and is replaced by nobody but the factory, at a put that looks so. */
  ghost predicate ModuleObject(cx: Context, run: seq<PMachine>, i: nat, params: Params)
    requires cx.fn < |cx.b.code|
  {
    && Activation(cx, run, i, params) && ReadsWhatItHolds(cx.b, run, ModuleOf(cx, params), "exports", GivenTo(cx, params))
    && forall k: nat, x: nat, v {:trigger Puts(cx.b, run, k, x, ModuleOf(cx, params), "exports", v)} ::
         Puts(cx.b, run, k, x, ModuleOf(cx, params), "exports", v) ==> x == i && k < |run| && i < |run[k].frames| && run[k].frames[i].pc < |cx.b.code[cx.fn]| && Replaces(cx, run[k].frames[i].pc)
  }

  /** What module.exports holds at time n. */
  ghost predicate ModuleExports(cx: Context, run: seq<PMachine>, params: Params, n: nat, v: PVal) {
    Holds(cx.b, run, n, ModuleOf(cx, params), "exports", GivenTo(cx, params), v)
  }

  // ------------------------------------------- a factory without a replacing put

  lemma NothingReplaces(cx: Context, run: seq<PMachine>, i: nat, params: Params, n: nat)
    requires cx.fn < |cx.b.code| && NeverReplaces(cx) && ModuleObject(cx, run, i, params)
    ensures !PutBefore(cx.b, run, n, ModuleOf(cx, params), "exports")
  {
  }

  /** As long as nothing replaced it, module.exports is the object the factory was given, and a
      recognised put goes there, under the name it is recognised under. */
  lemma GivenUntilReplaced(cx: Context, run: seq<PMachine>, a: nat, params: Params, k: nat, o: PVal, name: string, v: PVal, key: string)
    requires ContextRight(cx) && TruthfulClosures(cx.b, cx.slots) && IsRun(cx.b, run) && ModuleObject(cx, run, a, params)
    requires !PutBefore(cx.b, run, k, ModuleOf(cx, params), "exports")
    requires Puts(cx.b, run, k, a, o, name, v) && RecognisedAs(cx, run, k, a, key) && !Replaces(cx, run[k].frames[a].pc)
    ensures o == GivenTo(cx, params) && key == name && ModuleExports(cx, run, params, k, o)
  {
    var pc := run[k].frames[a].pc;
    var kind :| HasPut(cx, pc, key, kind);
    StaysActivation(cx, run, a, params, k);
    RunReaches(cx.b, run, k);
    RecognisedPutIsRight(cx, run[k], a, NamedPut(key, kind));
    NotElsewhere(cx, run, a, params, k, o);
  }

  /** Nothing but the object it was given was ever read from or put into module.exports. */
  lemma NotElsewhere(cx: Context, run: seq<PMachine>, a: nat, params: Params, k: nat, o: PVal)
    requires cx.fn < |cx.b.code| && IsRun(cx.b, run) && ModuleObject(cx, run, a, params) && k < |run|
    requires !PutBefore(cx.b, run, k, ModuleOf(cx, params), "exports")
    ensures (ModuleOf(cx, params), "exports", o) in run[k].gets + run[k].puts ==> o == GivenTo(cx, params)
  {
    if (ModuleOf(cx, params), "exports", o) in run[k].gets {
      RecordedGets(cx.b, run, k, ModuleOf(cx, params), "exports", o);
      var j: nat, x: nat :| j < k && Gets(cx.b, run, j, x, ModuleOf(cx, params), "exports", o);
      assert !PutBefore(cx.b, run, j, ModuleOf(cx, params), "exports");
    }
    if (ModuleOf(cx, params), "exports", o) in run[k].puts {
      RecordedPuts(cx.b, run, k, ModuleOf(cx, params), "exports", o);
      assert PutBefore(cx.b, run, k, ModuleOf(cx, params), "exports");
    }
  }

  /** Without a replacing put in the factory that is so throughout. */
  lemma PutsGoToGiven(cx: Context, run: seq<PMachine>, a: nat, params: Params, k: nat, o: PVal, name: string, v: PVal, key: string)
    requires ContextRight(cx) && TruthfulClosures(cx.b, cx.slots) && IsRun(cx.b, run) && NeverReplaces(cx) && ModuleObject(cx, run, a, params)
    requires Puts(cx.b, run, k, a, o, name, v) && RecognisedAs(cx, run, k, a, key)
    ensures o == GivenTo(cx, params) && key == name && ModuleExports(cx, run, params, k, o)
  {
    NothingReplaces(cx, run, a, params, k);
    assert !Replaces(cx, run[k].frames[a].pc);
    GivenUntilReplaced(cx, run, a, params, k, o, name, v, key);
  }

  // --------------------------------------------------- what stands under a bound name

  /** A put recognised under a bound key stores the bound function, or undefined. */
  ghost predicate Stores(v: PVal, f: Fn, voids: bool) {
    IsOrUnwritten(v, ClosureVal(f)) || (voids && IsOrUnwritten(v, Undef))
  }

  lemma RecognisedStores(cx: Context, cfg: Option<FunctionCfg>, run: seq<PMachine>, i: nat, k: nat, o: PVal, prop: string, v: PVal, key: string, f: Fn)
    requires ContextRight(cx) && TruthfulClosures(cx.b, cx.slots) && IsRun(cx.b, run) && BoundTo(cx, cfg, key, f)
    requires Puts(cx.b, run, k, i, o, prop, v) && RecognisedAs(cx, run, k, i, key)
    ensures Stores(v, f, UndefOffsets(cx, key, |cx.b.code[cx.fn]|) != [])
  {
    var fr := run[k].frames[i];
    var kind :| HasPut(cx, fr.pc, key, kind);
    RunReaches(cx.b, run, k);
    RecognisedPutIsRight(cx, run[k], i, NamedPut(key, kind));
    BoundPuts(cx, cfg, key, f, fr.pc, kind);
    if kind == StoresUndef { UndefListed(cx, key, fr.pc, |cx.b.code[cx.fn]|); }
  }

  /** What a property holds that only recognised puts of a bound key write: its initial value
      until the first of them, and from then on the function (or the undefined before it). */
  lemma BoundPropertyHolds(cx: Context, cfg: Option<FunctionCfg>, run: seq<PMachine>, i: nat, n: nat, o: PVal, prop: string, init: PVal, v: PVal, key: string, f: Fn)
    requires ContextRight(cx) && TruthfulClosures(cx.b, cx.slots) && IsRun(cx.b, run) && BoundTo(cx, cfg, key, f)
    requires OnlyRecognised(cx, run, i, o, prop, key) && Holds(cx.b, run, n, o, prop, init, v)
    ensures if PutBefore(cx.b, run, n, o, prop) then Stores(v, f, UndefOffsets(cx, key, |cx.b.code[cx.fn]|) != []) else v == init
  {
    if PutBefore(cx.b, run, n, o, prop) {
      var k: nat, x: nat :| LastPuts(cx.b, run, n, o, prop, k, x, v);
      RecognisedStores(cx, cfg, run, i, k, o, prop, v, key, f);
    }
  }

  // ----------------------------------------------------- a whole run of the factory

  /** (p, i) comes before (q, j) on a path: in an earlier block, or earlier in the same. */
  ghost predicate Sooner(cx: Context, p: nat, i: nat, q: nat, j: nat)
    requires cx.fn < |cx.b.code| && i < |cx.b.code[cx.fn]| && j < |cx.b.code[cx.fn]|
  {
    p < q || (p == q && cx.b.code[cx.fn][i].offset < cx.b.code[cx.fn][j].offset)
  }

  /** Activation a runs the path w from its start to an exit: `when` says at which step it
      executes the put at instruction i of w[p], in the order of the path, and there are no
      other puts of the activation. */
  ghost predicate RunsAlong(cx: Context, cfg: FunctionCfg, run: seq<PMachine>, a: nat, w: seq<BlockId>, when: map<(nat, nat), nat>)
    requires cx.fn < |cx.b.code|
  {
    && Path(cfg.blocks, cfg.entry, w) && IsExitBlock(cfg, w[|w| - 1])
    && (forall p: nat, i: nat {:trigger RunsAt(cx, cfg, w, p, i)} :: RunsAt(cx, cfg, w, p, i) && cx.b.code[cx.fn][i].insn.Put? ==> (p, i) in when && ExecutesAt(cx, run, when[(p, i)], a, i))
    && (forall x {:trigger x in when} :: x in when ==> RunsAt(cx, cfg, w, x.0, x.1))
    && (forall x, y {:trigger when[x], when[y]} :: x in when && y in when && Sooner(cx, x.0, x.1, y.0, y.1) ==> when[x] < when[y])
    && forall k: nat, o, name, v {:trigger Puts(cx.b, run, k, a, o, name, v)} :: Puts(cx.b, run, k, a, o, name, v) ==> exists x :: x in when && when[x] == k && ExecutesAt(cx, run, k, a, x.1)
  }

  ghost predicate ExecutesAt(cx: Context, run: seq<PMachine>, k: nat, a: nat, i: nat) {
    k + 1 < |run| && Executes(cx.b, run[k], run[k + 1], a) && run[k].frames[a].fn == cx.fn && run[k].frames[a].pc == i
  }

  /** Every recognised put of the key, wherever it runs, puts under prop on o. */
  ghost predicate AllGoTo(cx: Context, run: seq<PMachine>, a: nat, o: PVal, prop: string, key: string)
    requires cx.fn < |cx.b.code|
  {
    forall k: nat, x: PVal, name: string, v {:trigger Puts(cx.b, run, k, a, x, name, v)} ::
      Puts(cx.b, run, k, a, x, name, v) && RecognisedAs(cx, run, k, a, key) ==> x == o && name == prop
  }

  /** The last recognised put of a whole run is the last one on its path, so it stores the
      function, and not the undefined before it. */
  lemma LastOfRunStoresFunction(cx: Context, cfg: FunctionCfg, run: seq<PMachine>, a: nat, w: seq<BlockId>, when: map<(nat, nat), nat>,
                                o: PVal, prop: string, key: string, f: Fn, k: nat, v: PVal)
    requires ContextRight(cx) && TruthfulClosures(cx.b, cx.slots) && IsRun(cx.b, run) && BoundTo(cx, Some(cfg), key, f) && Disjoint(cfg.blocks)
    requires RunsAlong(cx, cfg, run, a, w, when) && AllGoTo(cx, run, a, o, prop, key)
    requires OnlyRecognised(cx, run, a, o, prop, key) && LastPuts(cx.b, run, |run|, o, prop, k, a, v)
    ensures IsOrUnwritten(v, ClosureVal(f))
  {
    var fr := run[k].frames[a];
    assert RecognisedAs(cx, run, k, a, key);
    var kind :| HasPut(cx, fr.pc, key, kind);
    var x :| x in when && when[x] == k && ExecutesAt(cx, run, k, a, x.1);
    assert PutRuns(cx, cfg, w, x.0, fr.pc, key, kind);
    forall q: nat, j: nat, u | PutRuns(cx, cfg, w, q, j, key, u)
      ensures q < x.0 || (q == x.0 && cx.b.code[cx.fn][j].offset <= cx.b.code[cx.fn][fr.pc].offset)
    {
      NotSooner(cx, cfg, run, a, w, when, o, prop, key, k, v, x, q, j, u);
    }
    assert LastPut(cx, cfg, w, x.0, fr.pc, key, kind);
    LastPutStoresFunction(cx, cfg, key, f, w, x.0, fr.pc, kind);
    RunReaches(cx.b, run, k);
    RecognisedPutIsRight(cx, run[k], a, NamedPut(key, kind));
  }

  lemma NotSooner(cx: Context, cfg: FunctionCfg, run: seq<PMachine>, a: nat, w: seq<BlockId>, when: map<(nat, nat), nat>,
                  o: PVal, prop: string, key: string, k: nat, v: PVal, x: (nat, nat), q: nat, j: nat, u: PutKind)
    requires ContextRight(cx) && RunsAlong(cx, cfg, run, a, w, when) && AllGoTo(cx, run, a, o, prop, key)
    requires LastPuts(cx.b, run, |run|, o, prop, k, a, v) && x in when && when[x] == k && PutRuns(cx, cfg, w, q, j, key, u)
    ensures !Sooner(cx, x.0, x.1, q, j)
  {
    var m := when[(q, j)];
    assert ExecutesAt(cx, run, m, a, j);
    var fr := run[m].frames[a];
    var insn := cx.b.code[cx.fn][j].insn;
    assert HasPut(cx, j, key, u) && insn.Put? && insn.name.Some?;
    assert Puts(cx.b, run, m, a, Read(fr.regs, insn.obj), insn.name.value, Read(fr.regs, insn.val));
    assert RecognisedAs(cx, run, m, a, key);
  }

  // ------------------------------------------------------------ what is required

  lemma AllGoToGiven(cx: Context, run: seq<PMachine>, a: nat, params: Params, name: string)
    requires ContextRight(cx) && TruthfulClosures(cx.b, cx.slots) && IsRun(cx.b, run) && NeverReplaces(cx) && ModuleObject(cx, run, a, params)
    ensures AllGoTo(cx, run, a, GivenTo(cx, params), name, name)
  {
    forall k: nat, x: PVal, prop: string, v | Puts(cx.b, run, k, a, x, prop, v) && RecognisedAs(cx, run, k, a, name)
      ensures x == GivenTo(cx, params) && prop == name
    {
      PutsGoToGiven(cx, run, a, params, k, x, prop, v, name);
    }
  }

  /** After a whole run of a factory without a replacing put: module.exports holds the object it
      was given, and a bound name holds its function there, once anything was put under it. */
  lemma ReportedNameHolds(cx: Context, cfg: FunctionCfg, run: seq<PMachine>, a: nat, params: Params, w: seq<BlockId>, when: map<(nat, nat), nat>,
                          name: string, f: Fn, v: PVal)
    requires ContextRight(cx) && TruthfulClosures(cx.b, cx.slots) && IsRun(cx.b, run) && BoundTo(cx, Some(cfg), name, f) && Disjoint(cfg.blocks)
    requires NeverReplaces(cx) && ModuleObject(cx, run, a, params) && RunsAlong(cx, cfg, run, a, w, when)
    requires OnlyRecognised(cx, run, a, GivenTo(cx, params), name, name) && Holds(cx.b, run, |run|, GivenTo(cx, params), name, Undef, v)
    ensures ModuleExports(cx, run, params, |run|, GivenTo(cx, params))
    ensures if PutBefore(cx.b, run, |run|, GivenTo(cx, params), name) then IsOrUnwritten(v, ClosureVal(f)) else v == Undef
  {
    NothingReplaces(cx, run, a, params, |run|);
    AllGoToGiven(cx, run, a, params, name);
    if PutBefore(cx.b, run, |run|, GivenTo(cx, params), name) {
      var k: nat, x: nat :| LastPuts(cx.b, run, |run|, GivenTo(cx, params), name, k, x, v);
      LastOfRunStoresFunction(cx, cfg, run, a, w, when, GivenTo(cx, params), name, name, f, k, v);
    }
  }

  /** What was ever read under a bound name that only recognised puts write. */
  lemma ReadGives(cx: Context, cfg: Option<FunctionCfg>, run: seq<PMachine>, a: nat, n: nat, o: PVal, name: string, f: Fn, v: PVal)
    requires ContextRight(cx) && TruthfulClosures(cx.b, cx.slots) && IsRun(cx.b, run) && BoundTo(cx, cfg, name, f)
    requires OnlyRecognised(cx, run, a, o, name, name) && ReadsWhatItHolds(cx.b, run, o, name, Undef) && n < |run| && (o, name, v) in run[n].gets
    ensures v == Unwritten || v == Undef || v == ClosureVal(f)
  {
    RecordedGets(cx.b, run, n, o, name, v);
    var k: nat, i: nat :| k < n && Gets(cx.b, run, k, i, o, name, v);
    BoundPropertyHolds(cx, cfg, run, a, k, o, name, Undef, v, name, f);
  }

  /** The factory an edge names, and that its name is bound there. */
  lemma EdgeIsBound(b: Bundle, index: SlotIndex, ofModule: map<ModuleId, Fn>, cfgs: map<Fn, FunctionCfg>, cxs: map<ModuleId, Context>, table: ExportsTable,
                    edges: map<SiteKey, CallEdge>, x: SiteKey)
    requires TableOfAll(b, index, ofModule, cfgs, cxs, table) && EdgesTrue(b, table, edges) && x in edges
    ensures edges[x].m in cxs
    ensures var cx := cxs[edges[x].m];
            cx.b == b && ContextRight(cx) && TruthfulClosures(b, cx.slots) && BoundTo(cx, CfgOf(cfgs, cx.fn), edges[x].name, edges[x].callee)
  {
    var e := edges[x];
    assert TableRight(cxs, cfgs, table, e.m, e.name, e.callee);
    assert ContextOf(b, index, ofModule, e.m, cxs[e.m]);
  }

  /** The called value was read under the name off the module's exports. */
  lemma CalleeWasRead(b: Bundle, table: ExportsTable, edges: map<SiteKey, CallEdge>, x: SiteKey, run: seq<PMachine>, j: nat)
    requires EdgesTrue(b, table, edges) && x in edges && edges[x].name != MODULE_EXPORTS && IsRun(b, run)
    requires var m := run[|run| - 1]; j < |m.frames| && AtSite(b, m.frames[j]) && (m.frames[j].fn, m.frames[j].pc) == x
    ensures var m := run[|run| - 1];
            var v := CalleeValue(b, m.frames[j]);
            v == Unwritten || (Exports(edges[x].m), edges[x].name, v) in m.gets
  {
    var m := run[|run| - 1];
    RunReaches(b, run, |run| - 1);
    assert CalleeRight(m, edges[x], CalleeValue(b, m.frames[j]));
  }

  /** The module object of an activation of m's factory, which never replaces it, and which holds
      what requiring m gives; the name is put there by that activation alone, and read as it is. */
  ghost predicate RequiredFrom(cx: Context, run: seq<PMachine>, a: nat, params: Params, m: ModuleId, name: string)
    requires cx.fn < |cx.b.code|
  {
    && IsRun(cx.b, run) && ModuleObject(cx, run, a, params) && ModuleExports(cx, run, params, |run|, Exports(m))
    && OnlyRecognised(cx, run, a, Exports(m), name, name) && ReadsWhatItHolds(cx.b, run, Exports(m), name, Undef)
  }

  /** An edge m.name -> f, when m's factory has no replacing put: in every run, whatever is called
      at the site is a closure of f, or the undefined of a name that is not put yet. */
  lemma EdgeCallsFunction(b: Bundle, index: SlotIndex, ofModule: map<ModuleId, Fn>, cfgs: map<Fn, FunctionCfg>, cxs: map<ModuleId, Context>, table: ExportsTable,
                          edges: map<SiteKey, CallEdge>, x: SiteKey, run: seq<PMachine>, a: nat, params: Params, j: nat)
    requires TableOfAll(b, index, ofModule, cfgs, cxs, table) && EdgesTrue(b, table, edges) && x in edges && edges[x].name != MODULE_EXPORTS
    requires edges[x].m in cxs && cxs[edges[x].m].b == b && cxs[edges[x].m].fn < |b.code|
    requires NeverReplaces(cxs[edges[x].m]) && RequiredFrom(cxs[edges[x].m], run, a, params, edges[x].m, edges[x].name)
    requires var m := run[|run| - 1]; j < |m.frames| && AtSite(b, m.frames[j]) && (m.frames[j].fn, m.frames[j].pc) == x
    ensures Exports(edges[x].m) == GivenTo(cxs[edges[x].m], params)
    ensures var v := CalleeValue(b, run[|run| - 1].frames[j]); v == Unwritten || v == Undef || v == ClosureVal(edges[x].callee)
  {
    var e, cx := edges[x], cxs[edges[x].m];
    EdgeIsBound(b, index, ofModule, cfgs, cxs, table, edges, x);
    NothingReplaces(cx, run, a, params, |run|);
    CalleeWasRead(b, table, edges, x, run, j);
    var v := CalleeValue(b, run[|run| - 1].frames[j]);
    if v != Unwritten { ReadGives(cx, CfgOf(cfgs, cx.fn), run, a, |run| - 1, Exports(e.m), e.name, e.callee, v); }
  }

  // ---------------------------------------------------- a factory that replaces it

  /** Every put recognised under the reserved key is a replacing one: no property of that name
      is put on the exports object. */
  ghost predicate ReservedKeyIsFree(cx: Context)
    requires cx.fn < |cx.b.code|
  {
    forall j: nat, kind {:trigger HasPut(cx, j, MODULE_EXPORTS, kind)} :: j < |cx.b.code[cx.fn]| && HasPut(cx, j, MODULE_EXPORTS, kind) ==> Replaces(cx, j)
  }

  lemma ReplacingPuts(cx: Context, run: seq<PMachine>, a: nat, params: Params)
    requires ContextRight(cx) && IsRun(cx.b, run) && ModuleObject(cx, run, a, params)
    ensures OnlyRecognised(cx, run, a, ModuleOf(cx, params), "exports", MODULE_EXPORTS)
  {
    forall k: nat, x: nat, v | Puts(cx.b, run, k, x, ModuleOf(cx, params), "exports", v) ensures x == a && RecognisedAs(cx, run, k, a, MODULE_EXPORTS) {
      var pc := run[k].frames[a].pc;
      StaysActivation(cx, run, a, params, k);
      assert Replaces(cx, pc);
      var put := PutAt(cx, cx.b.code[cx.fn][pc].insn, KnownAt(cx, pc)).value;
      assert HasPut(cx, pc, MODULE_EXPORTS, put.kind);
    }
  }

  lemma ReplacingGoesToModule(cx: Context, run: seq<PMachine>, a: nat, params: Params, k: nat, x: PVal, prop: string, v: PVal)
    requires ContextRight(cx) && TruthfulClosures(cx.b, cx.slots) && IsRun(cx.b, run) && ModuleObject(cx, run, a, params) && ReservedKeyIsFree(cx)
    requires Puts(cx.b, run, k, a, x, prop, v) && RecognisedAs(cx, run, k, a, MODULE_EXPORTS)
    ensures x == ModuleOf(cx, params) && prop == "exports"
  {
    var fr := run[k].frames[a];
    var kind :| HasPut(cx, fr.pc, MODULE_EXPORTS, kind);
    assert Replaces(cx, fr.pc);
    StaysActivation(cx, run, a, params, k);
    RunReachesIn(cx.b, run, k);
    KnownHolds(cx, run[k], k);
    assert FactoryFrame(cx, run[k].gets, run[k].puts, fr);
    ParamTrue(cx, run[k].gets, run[k].puts, fr, KnownAt(cx, fr.pc), cx.b.code[cx.fn][fr.pc].insn.obj);
  }

  lemma AllGoToModule(cx: Context, run: seq<PMachine>, a: nat, params: Params)
    requires ContextRight(cx) && TruthfulClosures(cx.b, cx.slots) && IsRun(cx.b, run) && ModuleObject(cx, run, a, params) && ReservedKeyIsFree(cx)
    ensures AllGoTo(cx, run, a, ModuleOf(cx, params), "exports", MODULE_EXPORTS)
  {
    forall k: nat, x: PVal, prop: string, v | Puts(cx.b, run, k, a, x, prop, v) && RecognisedAs(cx, run, k, a, MODULE_EXPORTS)
      ensures x == ModuleOf(cx, params) && prop == "exports"
    {
      ReplacingGoesToModule(cx, run, a, params, k, x, prop, v);
    }
  }

  /** After a whole run of a factory whose module.exports is bound: if it was replaced at all, it
      holds the bound function. */
  lemma ModuleIsFunction(cx: Context, cfg: FunctionCfg, run: seq<PMachine>, a: nat, params: Params, w: seq<BlockId>, when: map<(nat, nat), nat>, f: Fn, v: PVal)
    requires ContextRight(cx) && TruthfulClosures(cx.b, cx.slots) && IsRun(cx.b, run) && BoundTo(cx, Some(cfg), MODULE_EXPORTS, f) && Disjoint(cfg.blocks)
    requires ReservedKeyIsFree(cx) && ModuleObject(cx, run, a, params) && RunsAlong(cx, cfg, run, a, w, when) && ModuleExports(cx, run, params, |run|, v)
    ensures if PutBefore(cx.b, run, |run|, ModuleOf(cx, params), "exports") then IsOrUnwritten(v, ClosureVal(f)) else v == GivenTo(cx, params)
  {
    ReplacingPuts(cx, run, a, params);
    AllGoToModule(cx, run, a, params);
    if PutBefore(cx.b, run, |run|, ModuleOf(cx, params), "exports") {
      var k: nat, x: nat :| LastPuts(cx.b, run, |run|, ModuleOf(cx, params), "exports", k, x, v);
      LastOfRunStoresFunction(cx, cfg, run, a, w, when, ModuleOf(cx, params), "exports", MODULE_EXPORTS, f, k, v);
    }
  }

  /** The converse of ReportedNameHolds, for every run: from the first replacing put of another
      object on, the names put so far are not on what module.exports holds. */
  lemma ReplacementLosesNames(cx: Context, run: seq<PMachine>, a: nat, params: Params, k: nat, v: PVal, name: string, u: PVal)
    requires ContextRight(cx) && TruthfulClosures(cx.b, cx.slots) && IsRun(cx.b, run) && ModuleObject(cx, run, a, params)
    requires !PutBefore(cx.b, run, k, ModuleOf(cx, params), "exports") && Puts(cx.b, run, k, a, ModuleOf(cx, params), "exports", v)
    requires v != GivenTo(cx, params) && v != ModuleOf(cx, params) && OnlyRecognised(cx, run, a, v, name, name)
    requires name != MODULE_EXPORTS && Holds(cx.b, run, k + 1, v, name, Undef, u)
    ensures ModuleExports(cx, run, params, k + 1, v) && u == Undef
  {
    assert LastPuts(cx.b, run, k + 1, ModuleOf(cx, params), "exports", k, a, v);
    assert PutBefore(cx.b, run, k + 1, ModuleOf(cx, params), "exports");
    forall j: nat, x: nat, y | j < k + 1 ensures !Puts(cx.b, run, j, x, v, name, y) { NotOnNewObject(cx, run, a, params, k, v, name, j, x, y); }
  }

  lemma NotYet(b: Bundle, run: seq<PMachine>, j: nat, k: nat, o: PVal, name: string)
    requires j <= k && !PutBefore(b, run, k, o, name)
    ensures !PutBefore(b, run, j, o, name)
  {
  }

  lemma NotOnNewObject(cx: Context, run: seq<PMachine>, a: nat, params: Params, k: nat, v: PVal, name: string, j: nat, x: nat, y: PVal)
    requires ContextRight(cx) && TruthfulClosures(cx.b, cx.slots) && IsRun(cx.b, run) && ModuleObject(cx, run, a, params)
    requires !PutBefore(cx.b, run, k, ModuleOf(cx, params), "exports") && Puts(cx.b, run, k, a, ModuleOf(cx, params), "exports", v)
    requires v != GivenTo(cx, params) && v != ModuleOf(cx, params) && OnlyRecognised(cx, run, a, v, name, name) && name != MODULE_EXPORTS && j <= k
    ensures !Puts(cx.b, run, j, x, v, name, y)
  {
    if Puts(cx.b, run, j, x, v, name, y) {
      var pc := run[j].frames[a].pc;
      assert RecognisedAs(cx, run, j, a, name);
      var kind :| HasPut(cx, pc, name, kind);
      assert !Replaces(cx, pc);
      NotYet(cx.b, run, j, k, ModuleOf(cx, params), "exports");
      GivenUntilReplaced(cx, run, a, params, j, v, name, y, name);
    }
  }
}
