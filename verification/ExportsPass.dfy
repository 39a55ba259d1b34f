// exportsPass (src/artifact/points-to.ts:333-532): which function each export name of a
// factory is bound to, and why the last recognised put on any path to an exit stores it.
module ExportsPass {
  import opened CfgTypes
  import opened PtMachine
  import opened PointsTo
  import opened Invariants
  import opened LastWrite

  /** The straight-line facts, dropped at every label. */
  datatype Known = Known(params: map<Reg, nat>, closures: map<Reg, Fn>, exports: set<Reg>, undef: set<Reg>)

  const NOTHING := Known(map[], map[], {}, {})

  /** What holds for the whole function: its factory, its one-writer registers, and the
      closures that environment slots hold. */
  datatype Context = Context(b: Bundle, fn: Fn, f: Factory, params: map<Reg, nat>, unique: map<Reg, Fn>, slots: map<SlotKey, Fn>)

  function ParamAt(cx: Context, s: Known, r: Reg): Option<nat> {
    if r in s.params then Some(s.params[r]) else if r in cx.params then Some(cx.params[r]) else None
  }

  predicate IsModuleParam(cx: Context, s: Known, r: Reg) {
    ParamAt(cx, s, r) == Some(cx.f.moduleSlot)
  }

  predicate IsExportsReg(cx: Context, s: Known, r: Reg) {
    r in s.exports || ParamAt(cx, s, r) == Some(cx.f.exportsSlot)
  }

  function ClosureOf(cx: Context, s: Known, r: Reg): Option<Fn> {
    if r in s.closures then Some(s.closures[r]) else if r in cx.unique then Some(cx.unique[r]) else None
  }

  function Forget(s: Known, r: Reg): Known {
    Known(s.params - {r}, s.closures - {r}, s.exports - {r}, s.undef - {r})
  }

  /** The facts after the instruction at index i. */
  function After(cx: Context, i: nat, insn: PtInsn, s: Known): Known {
    match insn
    case LoadParam(dst, slot) => Forget(s, dst).(params := s.params[dst := slot])
    case LoadUndefined(dst) => Forget(s, dst).(undef := s.undef + {dst})
    case MakeClosure(dst, fn) => Forget(s, dst).(closures := s.closures[dst := fn])
    case Mov(dst, src) =>
      var p, c := ParamAt(cx, s, src), ClosureOf(cx, s, src);
      Known(if p.Some? then s.params[dst := p.value] else s.params - {dst},
            if c.Some? then s.closures[dst := c.value] else s.closures - {dst},
            if IsExportsReg(cx, s, src) then s.exports + {dst} else s.exports - {dst},
            if src in s.undef then s.undef + {dst} else s.undef - {dst})
    case LoadEnv(dst, slot) =>
      var t := Forget(s, dst);
      if (cx.fn, i) in cx.b.resolvedAt && (cx.b.resolvedAt[(cx.fn, i)], slot) in cx.slots
      then t.(closures := t.closures[dst := cx.slots[(cx.b.resolvedAt[(cx.fn, i)], slot)]]) else t
    case GetById(dst, base, name) =>
      // The destination is forgotten before the base is looked at.
      var t := Forget(s, dst);
      if name == Some("exports") && IsModuleParam(cx, t, base) then t.(exports := t.exports + {dst}) else t
    case Put(obj, val, name) =>
      if name == Some("exports") && IsModuleParam(cx, s, obj) then s.(exports := s.exports + {val}) else s
    case _ => if Written(insn).Some? then Forget(s, Written(insn).value) else s
  }

  function KnownAt(cx: Context, i: nat): Known
    requires cx.fn < |cx.b.code| && i <= |cx.b.code[cx.fn]|
    decreases i
  {
    if i < |cx.b.code[cx.fn]| && cx.b.code[cx.fn][i].target then NOTHING
    else if i == 0 then NOTHING
    else After(cx, i - 1, cx.b.code[cx.fn][i - 1].insn, KnownAt(cx, i - 1))
  }

  // ----------------------------------------------------------------- puts by name

  datatype PutKind = StoresClosure(fn: Fn) | StoresUndef | StoresOther

  datatype NamedPut = NamedPut(name: string, kind: PutKind)

  /** A put recognised as one on the exports object. */
  function PutAt(cx: Context, insn: PtInsn, s: Known): Option<NamedPut> {
    if !insn.Put? || insn.name.None? then None
    else
      var whole := insn.name == Some("exports") && IsModuleParam(cx, s, insn.obj);
      var after := After(cx, 0, insn, s);
      if !IsExportsReg(cx, after, insn.obj) && !whole then None
      else
        var c := ClosureOf(cx, s, insn.val);
        Some(NamedPut(if whole then MODULE_EXPORTS else insn.name.value,
                      if c.Some? then StoresClosure(c.value) else if insn.val in s.undef then StoresUndef else StoresOther))
  }

  ghost predicate HasPut(cx: Context, i: nat, name: string, kind: PutKind)
    requires cx.fn < |cx.b.code| && i < |cx.b.code[cx.fn]|
  {
    PutAt(cx, cx.b.code[cx.fn][i].insn, KnownAt(cx, i)) == Some(NamedPut(name, kind))
  }

  /** The exports object is read or passed on at instruction i. */
  predicate Leaks(cx: Context, site: PtSite, s: Known) {
    !site.insn.Mov? && exists k :: 0 <= k < |site.sources| && IsExportsReg(cx, s, site.sources[k])
  }

  /** The offsets of the puts of one kind under one name, among the first n instructions. */
  function UndefOffsets(cx: Context, name: string, n: nat): seq<nat>
    requires cx.fn < |cx.b.code| && n <= |cx.b.code[cx.fn]|
    decreases n
  {
    if n == 0 then []
    else
      var site := cx.b.code[cx.fn][n - 1];
      if PutAt(cx, site.insn, KnownAt(cx, n - 1)) == Some(NamedPut(name, StoresUndef)) then UndefOffsets(cx, name, n - 1) + [site.offset]
      else UndefOffsets(cx, name, n - 1)
  }

  /** The offsets of the closure puts recorded under one name: a closure that differs from the
      first one is not recorded. */
  function ClosureOffsets(cx: Context, name: string, n: nat): seq<nat>
    requires cx.fn < |cx.b.code| && n <= |cx.b.code[cx.fn]|
    decreases n
  {
    if n == 0 then []
    else
      var site := cx.b.code[cx.fn][n - 1];
      var put := PutAt(cx, site.insn, KnownAt(cx, n - 1));
      if put.Some? && put.value.name == name && put.value.kind.StoresClosure? && FirstClosure(cx, name, n - 1) in {None, Some(put.value.kind.fn)}
      then ClosureOffsets(cx, name, n - 1) + [site.offset]
      else ClosureOffsets(cx, name, n - 1)
  }

  function FirstClosure(cx: Context, name: string, n: nat): Option<Fn>
    requires cx.fn < |cx.b.code| && n <= |cx.b.code[cx.fn]|
    decreases n
  {
    if n == 0 then None
    else
      var before := FirstClosure(cx, name, n - 1);
      var put := PutAt(cx, cx.b.code[cx.fn][n - 1].insn, KnownAt(cx, n - 1));
      if before.None? && put.Some? && put.value.name == name && put.value.kind.StoresClosure? then Some(put.value.kind.fn) else before
  }

  /** Some put under the name is of an unproven value, or of a second closure. */
  ghost predicate AmbiguousName(cx: Context, name: string, n: nat)
    requires cx.fn < |cx.b.code| && n <= |cx.b.code[cx.fn]|
  {
    exists i: nat {:trigger SpoilsName(cx, name, i)} :: i < n && SpoilsName(cx, name, i)
  }

  ghost predicate SpoilsName(cx: Context, name: string, i: nat)
    requires cx.fn < |cx.b.code| && i < |cx.b.code[cx.fn]|
  {
    var put := PutAt(cx, cx.b.code[cx.fn][i].insn, KnownAt(cx, i));
    put.Some? && put.value.name == name
    && (put.value.kind.StoresOther? || (put.value.kind.StoresClosure? && FirstClosure(cx, name, i) !in {None, Some(put.value.kind.fn)}))
  }

  function EscapeOffsets(cx: Context, n: nat): seq<nat>
    requires cx.fn < |cx.b.code| && n <= |cx.b.code[cx.fn]|
    decreases n
  {
    if n == 0 then []
    else if Leaks(cx, cx.b.code[cx.fn][n - 1], KnownAt(cx, n - 1)) then EscapeOffsets(cx, n - 1) + [cx.b.code[cx.fn][n - 1].offset]
    else EscapeOffsets(cx, n - 1)
  }

  /** The verdict on one name: bound to f. */
  ghost predicate BoundTo(cx: Context, cfg: Option<FunctionCfg>, name: string, f: Fn)
    requires cx.fn < |cx.b.code|
  {
    var n := |cx.b.code[cx.fn]|;
    && FirstClosure(cx, name, n) == Some(f) && !AmbiguousName(cx, name, n)
    && (UndefOffsets(cx, name, n) == [] ||
        (|ClosureOffsets(cx, name, n)| == 1 && ProvesLast(cfg, UndefOffsets(cx, name, n), ClosureOffsets(cx, name, n)[0], EscapeOffsets(cx, n))))
  }

  // ------------------------------------------------------------------- the walk

  class Pass {
    var known: Known
    var out: map<string, Fn>
    var ambiguous: set<string>
    var undefWrites: map<string, seq<nat>>
    var closureWrites: map<string, seq<nat>>
    var escapes: seq<nat>
    var storeFacts: map<SiteKey, StoreFact>

    constructor ()
      ensures known == NOTHING && out == map[] && ambiguous == {} && undefWrites == map[] && closureWrites == map[] && escapes == [] && storeFacts == map[]
    {
      known, out, ambiguous, undefWrites, closureWrites, escapes, storeFacts := NOTHING, map[], {}, map[], map[], [], map[];
    }

    /** The tables after the first n instructions. */
    ghost predicate Walked(cx: Context, n: nat)
      requires cx.fn < |cx.b.code| && n <= |cx.b.code[cx.fn]|
      reads this
    {
      && (n == |cx.b.code[cx.fn]| || !cx.b.code[cx.fn][n].target ==> known == KnownAt(cx, n))
      && NamesTo(cx, n, out, ambiguous, undefWrites, closureWrites)
      && escapes == EscapeOffsets(cx, n) && FactsTo(cx, n, storeFacts)
    }

    method StepOver(cx: Context, i: nat)
      requires cx.fn < |cx.b.code| && i < |cx.b.code[cx.fn]| && Walked(cx, i)
      modifies this
      ensures Walked(cx, i + 1)
    {
      var site := cx.b.code[cx.fn][i];
      if site.target { known := NOTHING; }
      ghost var out0, ambiguous0, undef0, closure0 := out, ambiguous, undefWrites, closureWrites;
      assert known == KnownAt(cx, i);
      NoteEscape(cx, site);
      NotePut(cx, site);
      NamesNext(cx, i, out0, ambiguous0, undef0, closure0, out, ambiguous, undefWrites, closureWrites);
      ghost var facts0, fact := storeFacts, ClosureFact(cx, i, site.insn, known);
      NoteStore(cx, i, site.insn);
      FactsNext(cx, i, fact, facts0, storeFacts);
      known := After(cx, i, site.insn, known);
    }

    /** The names that keep their function. */
    method Settle(cx: Context, cfg: Option<FunctionCfg>) returns (bound: map<string, Fn>)
      requires cx.fn < |cx.b.code| && Walked(cx, |cx.b.code[cx.fn]|)
      requires cfg.Some? ==> CfgShape(cfg.value) && Disjoint(cfg.value.blocks)
      ensures forall name: string, f: Fn :: (name in bound && bound[name] == f) <==> BoundTo(cx, cfg, name, f)
    {
      bound := map[];
      var left := out.Keys;
      while left != {}
        invariant left <= out.Keys
        invariant forall name: string, f: Fn :: (name in bound && bound[name] == f) <==> name !in left && BoundTo(cx, cfg, name, f)
        decreases left
      {
        var name :| name in left;
        left := left - {name};
        var keep := Keeps(cx, cfg, name);
        ghost var before := bound;
        if keep { bound := bound[name := out[name]]; }
        forall x: string, f: Fn ensures (x in bound && bound[x] == f) <==> x !in left && BoundTo(cx, cfg, x, f) {
          if x != name {
            assert (x in before && before[x] == f) <==> x !in left + {name} && BoundTo(cx, cfg, x, f);
          }
        }
      }
    }

    method Keeps(cx: Context, cfg: Option<FunctionCfg>, name: string) returns (keep: bool)
      requires cx.fn < |cx.b.code| && Walked(cx, |cx.b.code[cx.fn]|) && name in out
      requires cfg.Some? ==> CfgShape(cfg.value) && Disjoint(cfg.value.blocks)
      ensures forall f: Fn :: (keep && out[name] == f) <==> BoundTo(cx, cfg, name, f)
    {
      ghost var n := |cx.b.code[cx.fn]|;
      assert FirstClosure(cx, name, n) == Some(out[name]);
      if name in ambiguous { return false; }
      var undefs, closures := Listed(undefWrites, name), Listed(closureWrites, name);
      if undefs == [] { return true; }
      if |closures| != 1 { return false; }
      keep := ProvenLastWrite(cfg, undefs, closures[0], escapes);
    }

    method NoteEscape(cx: Context, site: PtSite)
      modifies this`escapes
      ensures escapes == if Leaks(cx, site, known) then old(escapes) + [site.offset] else old(escapes)
    {
      if site.insn.Mov? { return; }
      for k := 0 to |site.sources|
        invariant escapes == old(escapes) && forall j :: 0 <= j < k ==> !IsExportsReg(cx, known, site.sources[j])
      {
        if IsExportsReg(cx, known, site.sources[k]) {
          escapes := escapes + [site.offset];
          return;
        }
      }
    }

    /** A put, recorded under its name. */
    method NotePut(cx: Context, site: PtSite)
      modifies this`out, this`ambiguous, this`undefWrites, this`closureWrites
      ensures Recorded(PutAt(cx, site.insn, known), site.offset, old(out), old(ambiguous), old(undefWrites), old(closureWrites),
                       out, ambiguous, undefWrites, closureWrites)
    {
      var put := PutAt(cx, site.insn, known);
      if put.None? { return; }
      var name := put.value.name;
      match put.value.kind
      case StoresUndef => undefWrites := Append(undefWrites, name, site.offset);
      case StoresOther => ambiguous := ambiguous + {name};
      case StoresClosure(fn) =>
        if name in out && out[name] != fn {
          ambiguous := ambiguous + {name};
          return;
        }
        out := out[name := fn];
        closureWrites := Append(closureWrites, name, site.offset);
    }

    method NoteStore(cx: Context, i: nat, insn: PtInsn)
      modifies this`storeFacts
      ensures storeFacts == if ClosureFact(cx, i, insn, known).Some? then old(storeFacts)[(cx.fn, i) := ClosureFact(cx, i, insn, known).value] else old(storeFacts)
    {
      if !insn.StoreEnv? || (cx.fn, i) !in cx.b.resolvedAt { return; }
      storeFacts := storeFacts[(cx.fn, i) := StoreFact((cx.b.resolvedAt[(cx.fn, i)], insn.slot), ClosureOf(cx, known, insn.val))];
    }
  }

  /** How one put moves the tables. */
  ghost predicate Recorded(put: Option<NamedPut>, offset: nat, out: map<string, Fn>, ambiguous: set<string>,
                           undefWrites: map<string, seq<nat>>, closureWrites: map<string, seq<nat>>, out': map<string, Fn>, ambiguous': set<string>,
                           undefWrites': map<string, seq<nat>>, closureWrites': map<string, seq<nat>>) {
    if put.None? then out' == out && ambiguous' == ambiguous && undefWrites' == undefWrites && closureWrites' == closureWrites
    else
      var name := put.value.name;
      match put.value.kind
      case StoresUndef => out' == out && ambiguous' == ambiguous && closureWrites' == closureWrites && undefWrites' == Append(undefWrites, name, offset)
      case StoresOther => out' == out && ambiguous' == ambiguous + {name} && closureWrites' == closureWrites && undefWrites' == undefWrites
      case StoresClosure(fn) =>
        undefWrites' == undefWrites &&
        if name in out && out[name] != fn then out' == out && ambiguous' == ambiguous + {name} && closureWrites' == closureWrites
        else out' == out[name := fn] && ambiguous' == ambiguous && closureWrites' == Append(closureWrites, name, offset)
  }

  function Listed(m: map<string, seq<nat>>, name: string): seq<nat> {
    if name in m then m[name] else []
  }

  function Append(m: map<string, seq<nat>>, name: string, offset: nat): map<string, seq<nat>> {
    m[name := Listed(m, name) + [offset]]
  }

  /** The closure a store site proves, if any. */
  function ClosureFact(cx: Context, i: nat, insn: PtInsn, s: Known): Option<StoreFact> {
    if insn.StoreEnv? && (cx.fn, i) in cx.b.resolvedAt
    then Some(StoreFact((cx.b.resolvedAt[(cx.fn, i)], insn.slot), ClosureOf(cx, s, insn.val))) else None
  }

  ghost predicate FactsTo(cx: Context, n: nat, facts: map<SiteKey, StoreFact>)
    requires cx.fn < |cx.b.code| && n <= |cx.b.code[cx.fn]|
  {
    forall x: SiteKey {:trigger Find(facts, x)} :: Find(facts, x) == FactBelow(cx, n, x)
  }

  ghost function FactBelow(cx: Context, n: nat, x: SiteKey): Option<StoreFact>
    requires cx.fn < |cx.b.code| && n <= |cx.b.code[cx.fn]|
  {
    if x.0 == cx.fn && x.1 < n then ClosureFact(cx, x.1, cx.b.code[cx.fn][x.1].insn, KnownAt(cx, x.1)) else None
  }

  lemma FactsNext(cx: Context, i: nat, f: Option<StoreFact>, before: map<SiteKey, StoreFact>, after: map<SiteKey, StoreFact>)
    requires cx.fn < |cx.b.code| && i < |cx.b.code[cx.fn]| && FactsTo(cx, i, before) && f == FactBelow(cx, i + 1, (cx.fn, i))
    requires after == if f.Some? then before[(cx.fn, i) := f.value] else before
    ensures FactsTo(cx, i + 1, after)
  {
    forall x: SiteKey ensures Find(after, x) == FactBelow(cx, i + 1, x) {
      assert Find(before, x) == FactBelow(cx, i, x);
      if x.0 != cx.fn || x.1 != i { BelowNext(cx, i, x); } else { assert x == (cx.fn, i); }
    }
  }

  lemma BelowNext(cx: Context, i: nat, x: SiteKey)
    requires cx.fn < |cx.b.code| && i < |cx.b.code[cx.fn]| && (x.0 != cx.fn || x.1 != i)
    ensures FactBelow(cx, i + 1, x) == FactBelow(cx, i, x)
  {
  }

  /** The facts of a walk are determined. */
  lemma FactsToUnique(cx: Context, n: nat, a: map<SiteKey, StoreFact>, c: map<SiteKey, StoreFact>)
    requires cx.fn < |cx.b.code| && n <= |cx.b.code[cx.fn]| && FactsTo(cx, n, a) && FactsTo(cx, n, c)
    ensures a == c
  {
    forall x ensures x in a <==> x in c {
      assert Find(a, x) == Find(c, x);
    }
    forall x | x in a ensures a[x] == c[x] {
      assert Find(a, x) == Find(c, x);
    }
  }

  /** The tables by name say what the first n puts say. */
  ghost predicate NamesTo(cx: Context, n: nat, out: map<string, Fn>, ambiguous: set<string>,
                          undefWrites: map<string, seq<nat>>, closureWrites: map<string, seq<nat>>)
    requires cx.fn < |cx.b.code| && n <= |cx.b.code[cx.fn]|
  {
    && (forall name: string {:trigger FirstClosure(cx, name, n)} {:trigger name in out} ::
          FirstClosure(cx, name, n) == if name in out then Some(out[name]) else None)
    && (forall name: string {:trigger name in ambiguous} :: name in ambiguous <==> AmbiguousName(cx, name, n))
    && (forall name: string {:trigger UndefOffsets(cx, name, n)} :: UndefOffsets(cx, name, n) == Listed(undefWrites, name))
    && (forall name: string {:trigger ClosureOffsets(cx, name, n)} :: ClosureOffsets(cx, name, n) == Listed(closureWrites, name))
  }

  lemma AmbiguousNext(cx: Context, name: string, i: nat)
    requires cx.fn < |cx.b.code| && i < |cx.b.code[cx.fn]|
    ensures AmbiguousName(cx, name, i + 1) <==> AmbiguousName(cx, name, i) || SpoilsName(cx, name, i)
  {
  }

  lemma NamesNext(cx: Context, i: nat, out: map<string, Fn>, ambiguous: set<string>, undefWrites: map<string, seq<nat>>, closureWrites: map<string, seq<nat>>,
                  out': map<string, Fn>, ambiguous': set<string>, undefWrites': map<string, seq<nat>>, closureWrites': map<string, seq<nat>>)
    requires cx.fn < |cx.b.code| && i < |cx.b.code[cx.fn]| && NamesTo(cx, i, out, ambiguous, undefWrites, closureWrites)
    requires Recorded(PutAt(cx, cx.b.code[cx.fn][i].insn, KnownAt(cx, i)), cx.b.code[cx.fn][i].offset, out, ambiguous, undefWrites, closureWrites,
                      out', ambiguous', undefWrites', closureWrites')
    ensures NamesTo(cx, i + 1, out', ambiguous', undefWrites', closureWrites')
  {
    forall name: string
      ensures FirstClosure(cx, name, i + 1) == (if name in out' then Some(out'[name]) else None)
      ensures name in ambiguous' <==> AmbiguousName(cx, name, i + 1)
      ensures UndefOffsets(cx, name, i + 1) == Listed(undefWrites', name)
      ensures ClosureOffsets(cx, name, i + 1) == Listed(closureWrites', name)
    {
      FirstNext(cx, i, out, ambiguous, undefWrites, closureWrites, out', ambiguous', undefWrites', closureWrites', name);
      OffsetsNext(cx, i, out, ambiguous, undefWrites, closureWrites, out', ambiguous', undefWrites', closureWrites', name);
    }
  }

  lemma FirstNext(cx: Context, i: nat, out: map<string, Fn>, ambiguous: set<string>, undefWrites: map<string, seq<nat>>, closureWrites: map<string, seq<nat>>,
                  out': map<string, Fn>, ambiguous': set<string>, undefWrites': map<string, seq<nat>>, closureWrites': map<string, seq<nat>>, name: string)
    requires cx.fn < |cx.b.code| && i < |cx.b.code[cx.fn]| && NamesTo(cx, i, out, ambiguous, undefWrites, closureWrites)
    requires Recorded(PutAt(cx, cx.b.code[cx.fn][i].insn, KnownAt(cx, i)), cx.b.code[cx.fn][i].offset, out, ambiguous, undefWrites, closureWrites,
                      out', ambiguous', undefWrites', closureWrites')
    ensures FirstClosure(cx, name, i + 1) == if name in out' then Some(out'[name]) else None
    ensures name in ambiguous' <==> AmbiguousName(cx, name, i + 1)
  {
    assert FirstClosure(cx, name, i) == if name in out then Some(out[name]) else None;
    AmbiguousNext(cx, name, i);
  }

  lemma OffsetsNext(cx: Context, i: nat, out: map<string, Fn>, ambiguous: set<string>, undefWrites: map<string, seq<nat>>, closureWrites: map<string, seq<nat>>,
                  out': map<string, Fn>, ambiguous': set<string>, undefWrites': map<string, seq<nat>>, closureWrites': map<string, seq<nat>>, name: string)
    requires cx.fn < |cx.b.code| && i < |cx.b.code[cx.fn]| && NamesTo(cx, i, out, ambiguous, undefWrites, closureWrites)
    requires Recorded(PutAt(cx, cx.b.code[cx.fn][i].insn, KnownAt(cx, i)), cx.b.code[cx.fn][i].offset, out, ambiguous, undefWrites, closureWrites,
                      out', ambiguous', undefWrites', closureWrites')
    ensures UndefOffsets(cx, name, i + 1) == Listed(undefWrites', name)
    ensures ClosureOffsets(cx, name, i + 1) == Listed(closureWrites', name)
  {
    assert UndefOffsets(cx, name, i) == Listed(undefWrites, name);
    assert ClosureOffsets(cx, name, i) == Listed(closureWrites, name);
    assert FirstClosure(cx, name, i) == if name in out then Some(out[name]) else None;
  }

  /** exportsPass: a name is bound to f exactly when BoundTo says so. */
  method RunPass(cx: Context, cfg: Option<FunctionCfg>) returns (bound: map<string, Fn>, facts: map<SiteKey, StoreFact>)
    requires cx.fn < |cx.b.code| && (cfg.Some? ==> CfgShape(cfg.value) && Disjoint(cfg.value.blocks))
    ensures forall name: string, f: Fn :: (name in bound && bound[name] == f) <==> BoundTo(cx, cfg, name, f)
    ensures FactsTo(cx, |cx.b.code[cx.fn]|, facts)
  {
    var pass := new Pass();
    NothingYet(cx);
    for i := 0 to |cx.b.code[cx.fn]|
      invariant pass.Walked(cx, i)
    {
      pass.StepOver(cx, i);
    }
    bound := pass.Settle(cx, cfg);
    facts := pass.storeFacts;
  }

  lemma NothingYet(cx: Context)
    requires cx.fn < |cx.b.code|
    ensures NamesTo(cx, 0, map[], {}, map[], map[]) && KnownAt(cx, 0) == NOTHING
  {
  }
}
