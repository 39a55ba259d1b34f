// What the exports pass recognises, by the instructions alone: which writes and puts since the
// last label make a put one on the exports object, under which name and of what; and which
// names are bound, by the puts.
module ExportsTraces {
  import opened CfgTypes
  import opened PtMachine
  import opened PointsTo
  import opened Invariants
  import opened LastWrite
  import opened ExportsPass
  import opened ExportsSound
  import opened ExportsModule
  import opened PointsToSound
  import opened PointsToTraces

  function Code(cx: Context): seq<PtSite>
    requires cx.fn < |cx.b.code|
  {
    cx.b.code[cx.fn]
  }

  // ------------------------------------------------------------- what registers hold

  /** r holds a closure of f: nothing else is ever put in it, or it was created, loaded from a
      slot that only holds f, or copied. */
  ghost predicate ClosureIn(cx: Context, i: nat, r: Reg, f: Fn)
    requires cx.fn < |cx.b.code| && i <= |Code(cx)|
    decreases i
  {
    || (Makes(ClosureMaker, Code(cx), r, f) && OnlyMakes(ClosureMaker, Code(cx), r, f))
    || (var w := Writer(Code(cx), i, r);
        w.Some? &&
        match Code(cx)[w.value].insn
        case MakeClosure(_, g) => g == f
        case LoadEnv(_, slot) =>
          (cx.fn, w.value) in cx.b.resolvedAt && (cx.b.resolvedAt[(cx.fn, w.value)], slot) in cx.slots && cx.slots[(cx.b.resolvedAt[(cx.fn, w.value)], slot)] == f
        case Mov(_, src) => ClosureIn(cx, w.value, src, f)
        case _ => false)
  }

  ghost predicate UndefIn(cx: Context, i: nat, r: Reg)
    requires cx.fn < |cx.b.code| && i <= |Code(cx)|
    decreases i
  {
    var w := Writer(Code(cx), i, r);
    w.Some? &&
    match Code(cx)[w.value].insn
    case LoadUndefined(_) => true
    case Mov(_, src) => UndefIn(cx, w.value, src)
    case _ => false
  }

  ghost predicate ModuleParamIn(cx: Context, i: nat, r: Reg)
    requires cx.fn < |cx.b.code| && i <= |Code(cx)|
  {
    ParamIn(Code(cx), i, r, cx.f.moduleSlot)
  }

  /** Instruction j is `module.exports = r`. */
  ghost predicate ReplacesWith(cx: Context, j: nat, r: Reg)
    requires cx.fn < |cx.b.code| && j < |Code(cx)|
  {
    var insn := Code(cx)[j].insn;
    insn.Put? && insn.val == r && insn.name == Some("exports") && ModuleParamIn(cx, j, insn.obj)
  }

  /** r was put in module.exports after its last write, with no label since. */
  ghost predicate PutSince(cx: Context, i: nat, r: Reg)
    requires cx.fn < |cx.b.code| && i <= |Code(cx)|
    decreases i
  {
    && i > 0 && !(i < |Code(cx)| && Code(cx)[i].target) && Written(Code(cx)[i - 1].insn) != Some(r)
    && (ReplacesWith(cx, i - 1, r) || PutSince(cx, i - 1, r))
  }

  /** r holds the exports object: the parameter, what was read as `exports` off the module, what
      module.exports was set to, or a copy. A read into its own base does not count. */
  ghost predicate ExportsIn(cx: Context, i: nat, r: Reg)
    requires cx.fn < |cx.b.code| && i <= |Code(cx)|
    decreases i, 1
  {
    ParamIn(Code(cx), i, r, cx.f.exportsSlot) || MarkedIn(cx, i, r)
  }

  ghost predicate MarkedIn(cx: Context, i: nat, r: Reg)
    requires cx.fn < |cx.b.code| && i <= |Code(cx)|
    decreases i, 0
  {
    || PutSince(cx, i, r)
    || (var w := Writer(Code(cx), i, r);
        w.Some? &&
        match Code(cx)[w.value].insn
        case GetById(dst, base, name) => base != dst && name == Some("exports") && ModuleParamIn(cx, w.value, base)
        case Mov(_, src) => ExportsIn(cx, w.value, src)
        case _ => false)
  }

  // -------------------------------------------------------------------- one step back

  /** Neither a label at i nor a write of r by the instruction before. */
  predicate Passes(code: seq<PtSite>, i: nat, r: Reg)
    requires i <= |code|
  {
    i > 0 && !(i < |code| && code[i].target) && Written(code[i - 1].insn) != Some(r)
  }

  predicate WrittenAt(code: seq<PtSite>, i: nat, r: Reg)
    requires i <= |code|
  {
    i > 0 && !(i < |code| && code[i].target) && Written(code[i - 1].insn) == Some(r)
  }

  lemma WriterSteps(code: seq<PtSite>, i: nat, r: Reg)
    requires i <= |code|
    ensures Passes(code, i, r) ==> Writer(code, i, r) == Writer(code, i - 1, r)
    ensures WrittenAt(code, i, r) ==> Writer(code, i, r) == Some(i - 1)
    ensures !Passes(code, i, r) && !WrittenAt(code, i, r) ==> Writer(code, i, r) == None
  {
  }

  lemma UniqueClosure(cx: Context, r: Reg, f: Fn)
    requires ContextRight(cx)
    ensures (r in cx.unique && cx.unique[r] == f) <==> (Makes(ClosureMaker, Code(cx), r, f) && OnlyMakes(ClosureMaker, Code(cx), r, f))
  {
  }

  lemma UniqueParam(cx: Context, r: Reg, slot: nat)
    requires ContextRight(cx)
    ensures (r in cx.params && cx.params[r] == slot) <==> (Makes(ParamMaker, Code(cx), r, slot) && OnlyMakes(ParamMaker, Code(cx), r, slot))
  {
  }

  /** A register that one kind of instruction alone writes is written by it. */
  lemma OnlyOnes(cx: Context, r: Reg, j: nat)
    requires ContextRight(cx) && j < |Code(cx)| && Written(Code(cx)[j].insn) == Some(r)
    ensures r in cx.params ==> Code(cx)[j].insn == LoadParam(r, cx.params[r])
    ensures r in cx.unique ==> Code(cx)[j].insn == MakeClosure(r, cx.unique[r])
  {
    if r in cx.params { UniqueParam(cx, r, cx.params[r]); }
    if r in cx.unique { UniqueClosure(cx, r, cx.unique[r]); }
  }

  lemma {:induction false} ParamRecognised(cx: Context, i: nat, r: Reg, slot: nat)
    requires ContextRight(cx) && i <= |Code(cx)|
    ensures ParamAt(cx, KnownAt(cx, i), r) == Some(slot) <==> ParamIn(Code(cx), i, r, slot)
    decreases i
  {
    WriterSteps(Code(cx), i, r);
    UniqueParam(cx, r, slot);
    if Passes(Code(cx), i, r) {
      ParamRecognised(cx, i - 1, r, slot);
      ParamPasses(cx, i, r, slot);
    } else if WrittenAt(Code(cx), i, r) {
      OnlyOnes(cx, r, i - 1);
      if Code(cx)[i - 1].insn.Mov? { ParamRecognised(cx, i - 1, Code(cx)[i - 1].insn.src, slot); }
    }
  }

  lemma ParamPasses(cx: Context, i: nat, r: Reg, slot: nat)
    requires ContextRight(cx) && i <= |Code(cx)| && Passes(Code(cx), i, r)
    ensures ParamIn(Code(cx), i, r, slot) <==> ParamIn(Code(cx), i - 1, r, slot)
    ensures ParamAt(cx, KnownAt(cx, i), r) == ParamAt(cx, KnownAt(cx, i - 1), r)
  {
    WriterSteps(Code(cx), i, r);
  }

  lemma {:induction false} ClosureRecognised(cx: Context, i: nat, r: Reg, f: Fn)
    requires ContextRight(cx) && i <= |Code(cx)|
    ensures ClosureOf(cx, KnownAt(cx, i), r) == Some(f) <==> ClosureIn(cx, i, r, f)
    decreases i
  {
    WriterSteps(Code(cx), i, r);
    UniqueClosure(cx, r, f);
    if Passes(Code(cx), i, r) {
      ClosureRecognised(cx, i - 1, r, f);
      ClosurePasses(cx, i, r, f);
    } else if WrittenAt(Code(cx), i, r) {
      OnlyOnes(cx, r, i - 1);
      if Code(cx)[i - 1].insn.Mov? { ClosureRecognised(cx, i - 1, Code(cx)[i - 1].insn.src, f); }
    }
  }

  lemma ClosurePasses(cx: Context, i: nat, r: Reg, f: Fn)
    requires ContextRight(cx) && i <= |Code(cx)| && Passes(Code(cx), i, r)
    ensures ClosureIn(cx, i, r, f) <==> ClosureIn(cx, i - 1, r, f)
    ensures ClosureOf(cx, KnownAt(cx, i), r) == ClosureOf(cx, KnownAt(cx, i - 1), r)
  {
    WriterSteps(Code(cx), i, r);
  }

  lemma {:induction false} UndefRecognised(cx: Context, i: nat, r: Reg)
    requires ContextRight(cx) && i <= |Code(cx)|
    ensures r in KnownAt(cx, i).undef <==> UndefIn(cx, i, r)
    decreases i
  {
    WriterSteps(Code(cx), i, r);
    if Passes(Code(cx), i, r) {
      UndefRecognised(cx, i - 1, r);
    } else if WrittenAt(Code(cx), i, r) {
      if Code(cx)[i - 1].insn.Mov? { UndefRecognised(cx, i - 1, Code(cx)[i - 1].insn.src); }
    }
  }

  lemma ModuleRecognised(cx: Context, i: nat, r: Reg)
    requires ContextRight(cx) && i <= |Code(cx)|
    ensures IsModuleParam(cx, KnownAt(cx, i), r) <==> ModuleParamIn(cx, i, r)
  {
    ParamRecognised(cx, i, r, cx.f.moduleSlot);
  }

  lemma {:induction false} MarkRecognised(cx: Context, i: nat, r: Reg)
    requires ContextRight(cx) && i <= |Code(cx)|
    ensures r in KnownAt(cx, i).exports <==> MarkedIn(cx, i, r)
    decreases i, 1
  {
    WriterSteps(Code(cx), i, r);
    if Passes(Code(cx), i, r) {
      MarkRecognised(cx, i - 1, r);
      MarkPasses(cx, i, r);
    } else if WrittenAt(Code(cx), i, r) {
      MarkWritten(cx, i, r);
    }
  }

  lemma MarkPasses(cx: Context, i: nat, r: Reg)
    requires ContextRight(cx) && i <= |Code(cx)| && Passes(Code(cx), i, r)
    ensures MarkedIn(cx, i, r) <==> MarkedIn(cx, i - 1, r) || ReplacesWith(cx, i - 1, r)
    ensures r in KnownAt(cx, i).exports <==> r in KnownAt(cx, i - 1).exports || ReplacesWith(cx, i - 1, r)
  {
    WriterSteps(Code(cx), i, r);
    var insn := Code(cx)[i - 1].insn;
    if insn.Put? { ModuleRecognised(cx, i - 1, insn.obj); }
  }

  lemma MarkWritten(cx: Context, i: nat, r: Reg)
    requires ContextRight(cx) && i <= |Code(cx)| && WrittenAt(Code(cx), i, r)
    ensures r in KnownAt(cx, i).exports <==> MarkedIn(cx, i, r)
    decreases i, 0
  {
    WriterSteps(Code(cx), i, r);
    var insn := Code(cx)[i - 1].insn;
    match insn
    case Mov(_, src) => ExportsRecognised(cx, i - 1, src);
    case GetById(dst, base, name) =>
      ModuleRecognised(cx, i - 1, base);
      OnlyOnes(cx, r, i - 1);
    case _ =>
  }

  lemma {:induction false} ExportsRecognised(cx: Context, i: nat, r: Reg)
    requires ContextRight(cx) && i <= |Code(cx)|
    ensures IsExportsReg(cx, KnownAt(cx, i), r) <==> ExportsIn(cx, i, r)
    decreases i, 2
  {
    ParamRecognised(cx, i, r, cx.f.exportsSlot);
    MarkRecognised(cx, i, r);
  }

  // --------------------------------------------------------------------------- puts

  /** What the put at i stores. */
  ghost predicate StoresKind(cx: Context, i: nat, val: Reg, kind: PutKind)
    requires cx.fn < |cx.b.code| && i <= |Code(cx)|
  {
    match kind
    case StoresClosure(f) => ClosureIn(cx, i, val, f)
    case StoresUndef => UndefIn(cx, i, val) && NoClosureIn(cx, i, val)
    case StoresOther => !UndefIn(cx, i, val) && NoClosureIn(cx, i, val)
  }

  ghost predicate NoClosureIn(cx: Context, i: nat, val: Reg)
    requires cx.fn < |cx.b.code| && i <= |Code(cx)|
  {
    forall f {:trigger ClosureIn(cx, i, val, f)} :: !ClosureIn(cx, i, val, f)
  }

  /** The put at i is one on the exports object under its own name, or replaces that object. */
  ghost predicate PutsUnder(cx: Context, i: nat, key: string, kind: PutKind)
    requires cx.fn < |cx.b.code| && i < |Code(cx)|
  {
    var insn := Code(cx)[i].insn;
    && insn.Put? && insn.name.Some? && StoresKind(cx, i, insn.val, kind)
    && if insn.name == Some("exports") && ModuleParamIn(cx, i, insn.obj) then key == MODULE_EXPORTS
       else ExportsIn(cx, i, insn.obj) && key == insn.name.value
  }

  lemma KindRecognised(cx: Context, i: nat, val: Reg, kind: PutKind)
    requires ContextRight(cx) && i <= |Code(cx)|
    ensures var s := KnownAt(cx, i);
            var c := ClosureOf(cx, s, val);
            kind == (if c.Some? then StoresClosure(c.value) else if val in s.undef then StoresUndef else StoresOther) <==> StoresKind(cx, i, val, kind)
  {
    var c := ClosureOf(cx, KnownAt(cx, i), val);
    UndefRecognised(cx, i, val);
    if c.Some? { ClosureRecognised(cx, i, val, c.value); }
    if kind.StoresClosure? { ClosureRecognised(cx, i, val, kind.fn); }
    if c.None? {
      forall f ensures !ClosureIn(cx, i, val, f) { ClosureRecognised(cx, i, val, f); }
    }
  }

  /** The pass records a put under a key, as one of its kind, exactly when it is that. */
  lemma PutIffRecognised(cx: Context, i: nat, key: string, kind: PutKind)
    requires ContextRight(cx) && i < |Code(cx)|
    ensures HasPut(cx, i, key, kind) <==> PutsUnder(cx, i, key, kind)
  {
    var insn := Code(cx)[i].insn;
    if insn.Put? && insn.name.Some? {
      ModuleRecognised(cx, i, insn.obj);
      ExportsRecognised(cx, i, insn.obj);
      KindRecognised(cx, i, insn.val, kind);
    }
  }

  /** The exports object is used at instruction i other than by a copy. */
  ghost predicate Uses(cx: Context, i: nat)
    requires cx.fn < |cx.b.code| && i < |Code(cx)|
  {
    var site := Code(cx)[i];
    !site.insn.Mov? && exists k {:trigger site.sources[k]} :: 0 <= k < |site.sources| && ExportsIn(cx, i, site.sources[k])
  }

  lemma LeakIffUsed(cx: Context, i: nat)
    requires ContextRight(cx) && i < |Code(cx)|
    ensures Leaks(cx, Code(cx)[i], KnownAt(cx, i)) <==> Uses(cx, i)
  {
    var sources := Code(cx)[i].sources;
    forall k | 0 <= k < |sources| ensures IsExportsReg(cx, KnownAt(cx, i), sources[k]) <==> ExportsIn(cx, i, sources[k]) { ExportsRecognised(cx, i, sources[k]); }
  }

  // ------------------------------------------------------------------ which names are bound

  /** Some of the first n instructions puts f under the key. */
  ghost predicate SomePut(cx: Context, n: nat, key: string, kind: PutKind)
    requires cx.fn < |cx.b.code| && n <= |Code(cx)|
  {
    exists i: nat {:trigger HasPut(cx, i, key, kind)} :: i < n && HasPut(cx, i, key, kind)
  }

  /** Every put under the key stores f or undefined. */
  ghost predicate OnlyPuts(cx: Context, n: nat, key: string, f: Fn)
    requires cx.fn < |cx.b.code| && n <= |Code(cx)|
  {
    forall i: nat, kind {:trigger HasPut(cx, i, key, kind)} :: i < n && HasPut(cx, i, key, kind) ==> kind in {StoresClosure(f), StoresUndef}
  }

  lemma {:induction false} FirstIsSome(cx: Context, n: nat, key: string)
    requires cx.fn < |cx.b.code| && n <= |Code(cx)|
    ensures match FirstClosure(cx, key, n)
            case Some(f) => SomePut(cx, n, key, StoresClosure(f))
            case None => forall f {:trigger SomePut(cx, n, key, StoresClosure(f))} :: !SomePut(cx, n, key, StoresClosure(f))
    decreases n
  {
    if n > 0 {
      FirstIsSome(cx, n - 1, key);
      var before := FirstClosure(cx, key, n - 1);
      if before.Some? {
        var i: nat :| i < n - 1 && HasPut(cx, i, key, StoresClosure(before.value));
      } else {
        forall f | SomePut(cx, n, key, StoresClosure(f)) ensures HasPut(cx, n - 1, key, StoresClosure(f)) {
          var i: nat :| i < n && HasPut(cx, i, key, StoresClosure(f));
          if i < n - 1 { assert SomePut(cx, n - 1, key, StoresClosure(f)); }
        }
        if FirstClosure(cx, key, n).Some? { assert HasPut(cx, n - 1, key, StoresClosure(FirstClosure(cx, key, n).value)); }
      }
    }
  }

  lemma {:induction false} FirstStays(cx: Context, m: nat, n: nat, key: string)
    requires cx.fn < |cx.b.code| && m <= n <= |Code(cx)| && FirstClosure(cx, key, m).Some?
    ensures FirstClosure(cx, key, n) == FirstClosure(cx, key, m)
    decreases n - m
  {
    if m < n { FirstStays(cx, m, n - 1, key); }
  }

  /** The first function put under a key is not contradicted exactly when every put stores it or
      undefined. */
  lemma UnspoiltIff(cx: Context, n: nat, key: string, f: Fn)
    requires cx.fn < |cx.b.code| && n <= |Code(cx)| && FirstClosure(cx, key, n) == Some(f)
    ensures !AmbiguousName(cx, key, n) <==> OnlyPuts(cx, n, key, f)
  {
    if !AmbiguousName(cx, key, n) {
      forall i: nat, kind | i < n && HasPut(cx, i, key, kind) ensures kind in {StoresClosure(f), StoresUndef} {
        assert !SpoilsName(cx, key, i);
        if kind.StoresClosure? { FirstAt(cx, i, n, key, kind.fn); }
      }
    }
    if OnlyPuts(cx, n, key, f) {
      forall i: nat | i < n ensures !SpoilsName(cx, key, i) {
        var put := PutAt(cx, Code(cx)[i].insn, KnownAt(cx, i));
        if put.Some? && put.value.name == key {
          assert HasPut(cx, i, key, put.value.kind);
          if FirstClosure(cx, key, i).Some? { FirstStays(cx, i, n, key); }
        }
      }
    }
  }

  /** A put of g that spoils nothing is of the first function. */
  lemma FirstAt(cx: Context, i: nat, n: nat, key: string, g: Fn)
    requires cx.fn < |cx.b.code| && i < n <= |Code(cx)| && HasPut(cx, i, key, StoresClosure(g)) && FirstClosure(cx, key, i) in {None, Some(g)}
    ensures FirstClosure(cx, key, n) == Some(g)
  {
    assert FirstClosure(cx, key, i + 1) == Some(g);
    FirstStays(cx, i + 1, n, key);
  }

  lemma {:induction false} UndefListedIff(cx: Context, n: nat, key: string)
    requires cx.fn < |cx.b.code| && n <= |Code(cx)|
    ensures UndefOffsets(cx, key, n) != [] <==> SomePut(cx, n, key, StoresUndef)
    decreases n
  {
    if n > 0 {
      UndefListedIff(cx, n - 1, key);
      if SomePut(cx, n - 1, key, StoresUndef) {
        var i: nat :| i < n - 1 && HasPut(cx, i, key, StoresUndef);
        assert SomePut(cx, n, key, StoresUndef);
      }
      if HasPut(cx, n - 1, key, StoresUndef) { assert SomePut(cx, n, key, StoresUndef); }
    }
  }

  /** The offsets the last-write proof is given for undefined are those of its puts. */
  lemma {:induction false} UndefListed(cx: Context, n: nat, key: string, o: nat)
    requires cx.fn < |cx.b.code| && n <= |Code(cx)|
    ensures o in UndefOffsets(cx, key, n) <==> exists i: nat {:trigger Code(cx)[i]} :: i < n && Code(cx)[i].offset == o && HasPut(cx, i, key, StoresUndef)
    decreases n
  {
    if n > 0 { UndefListed(cx, n - 1, key, o); }
  }

  /** ... and those it must worry about are where the exports object is used. */
  lemma {:induction false} EscapeListed(cx: Context, n: nat, o: nat)
    requires ContextRight(cx) && n <= |Code(cx)|
    ensures o in EscapeOffsets(cx, n) <==> exists i: nat {:trigger Code(cx)[i]} :: i < n && Code(cx)[i].offset == o && Uses(cx, i)
    decreases n
  {
    if n > 0 {
      EscapeListed(cx, n - 1, o);
      LeakIffUsed(cx, n - 1);
    }
  }

  /** The offsets of the puts of f under the key, in order. */
  ghost predicate ClosureSites(cx: Context, n: nat, key: string, f: Fn, offsets: seq<nat>)
    requires cx.fn < |cx.b.code| && n <= |Code(cx)|
    decreases n
  {
    if n == 0 then offsets == []
    else if HasPut(cx, n - 1, key, StoresClosure(f)) then
      |offsets| > 0 && offsets[|offsets| - 1] == Code(cx)[n - 1].offset && ClosureSites(cx, n - 1, key, f, offsets[..|offsets| - 1])
    else ClosureSites(cx, n - 1, key, f, offsets)
  }

  lemma {:induction false} ClosureListed(cx: Context, n: nat, m: nat, key: string, f: Fn)
    requires cx.fn < |cx.b.code| && n <= m <= |Code(cx)| && FirstClosure(cx, key, m) == Some(f) && OnlyPuts(cx, m, key, f)
    ensures ClosureSites(cx, n, key, f, ClosureOffsets(cx, key, n))
    decreases n
  {
    if n > 0 {
      ClosureListed(cx, n - 1, m, key, f);
      var put := PutAt(cx, Code(cx)[n - 1].insn, KnownAt(cx, n - 1));
      if put.Some? && put.value.name == key {
        assert HasPut(cx, n - 1, key, put.value.kind);
        if FirstClosure(cx, key, n - 1).Some? { FirstStays(cx, n - 1, m, key); }
      }
    }
  }

  lemma {:induction false} SitesUnique(cx: Context, n: nat, key: string, f: Fn, a: seq<nat>, c: seq<nat>)
    requires cx.fn < |cx.b.code| && n <= |Code(cx)| && ClosureSites(cx, n, key, f, a) && ClosureSites(cx, n, key, f, c)
    ensures a == c
    decreases n
  {
    if n > 0 {
      if HasPut(cx, n - 1, key, StoresClosure(f)) {
        SitesUnique(cx, n - 1, key, f, a[..|a| - 1], c[..|c| - 1]);
        assert a == a[..|a| - 1] + [a[|a| - 1]] && c == c[..|c| - 1] + [c[|c| - 1]];
      } else {
        SitesUnique(cx, n - 1, key, f, a, c);
      }
    }
  }

  /** The one put of f, proven to come after every put of undefined. */
  ghost predicate ProvenAt(cx: Context, cfg: Option<FunctionCfg>, key: string, f: Fn, c: nat)
    requires cx.fn < |cx.b.code|
  {
    ClosureSites(cx, |Code(cx)|, key, f, [c]) && ProvesLast(cfg, UndefOffsets(cx, key, |Code(cx)|), c, EscapeOffsets(cx, |Code(cx)|))
  }

  lemma SitesAre(cx: Context, cfg: Option<FunctionCfg>, key: string, f: Fn, offsets: seq<nat>)
    requires cx.fn < |cx.b.code| && ClosureSites(cx, |Code(cx)|, key, f, offsets)
    ensures (|offsets| == 1 && ProvesLast(cfg, UndefOffsets(cx, key, |Code(cx)|), offsets[0], EscapeOffsets(cx, |Code(cx)|))) <==>
      exists c: nat :: ProvenAt(cx, cfg, key, f, c)
  {
    if |offsets| == 1 && ProvesLast(cfg, UndefOffsets(cx, key, |Code(cx)|), offsets[0], EscapeOffsets(cx, |Code(cx)|)) {
      assert offsets == [offsets[0]];
      assert ProvenAt(cx, cfg, key, f, offsets[0]);
    }
    if c: nat :| ProvenAt(cx, cfg, key, f, c) { SitesUnique(cx, |Code(cx)|, key, f, [c], offsets); }
  }

  lemma SomeIsFirst(cx: Context, n: nat, key: string, f: Fn)
    requires cx.fn < |cx.b.code| && n <= |Code(cx)| && SomePut(cx, n, key, StoresClosure(f)) && OnlyPuts(cx, n, key, f)
    ensures FirstClosure(cx, key, n) == Some(f)
  {
    FirstIsSome(cx, n, key);
    var g := FirstClosure(cx, key, n).value;
    var i: nat :| i < n && HasPut(cx, i, key, StoresClosure(g));
  }

  /** A name is bound to f exactly when f is put under it, nothing else but undefined is, and if
      undefined is, f is put there once and proven to come last. */
  lemma BoundIff(cx: Context, cfg: Option<FunctionCfg>, key: string, f: Fn)
    requires cx.fn < |cx.b.code|
    ensures BoundTo(cx, cfg, key, f) <==>
      (SomePut(cx, |Code(cx)|, key, StoresClosure(f)) && OnlyPuts(cx, |Code(cx)|, key, f)
       && (SomePut(cx, |Code(cx)|, key, StoresUndef) ==> exists c: nat :: ProvenAt(cx, cfg, key, f, c)))
  {
    var n := |Code(cx)|;
    FirstIsSome(cx, n, key);
    UndefListedIff(cx, n, key);
    if SomePut(cx, n, key, StoresClosure(f)) && OnlyPuts(cx, n, key, f) { SomeIsFirst(cx, n, key, f); }
    if FirstClosure(cx, key, n) == Some(f) {
      UnspoiltIff(cx, n, key, f);
      if OnlyPuts(cx, n, key, f) {
        ClosureListed(cx, n, n, key, f);
        SitesAre(cx, cfg, key, f, ClosureOffsets(cx, key, n));
      }
    }
  }

  // ------------------------------------------------------- the slots of the second walk

  /** Site x of the factory stores a closure of f into the slot, by the instructions alone: without
      knowing any slot. */
  ghost predicate StoresClosureAt(cx: Context, x: SiteKey, key: SlotKey, f: Fn)
    requires cx.fn < |cx.b.code|
  {
    && x.0 == cx.fn && x.1 < |Code(cx)| && x in cx.b.resolvedAt
    && var insn := Code(cx)[x.1].insn;
       insn.StoreEnv? && key == (cx.b.resolvedAt[x], insn.slot) && ClosureIn(cx.(slots := map[]), x.1, insn.val, f)
  }

  lemma ClosureFactTraced(cx: Context, facts: map<SiteKey, StoreFact>, x: SiteKey, key: SlotKey, f: Fn)
    requires ContextRight(cx) && FactsTo(cx.(slots := map[]), |Code(cx)|, facts)
    ensures x in facts && facts[x] == StoreFact(key, Some(f)) <==> StoresClosureAt(cx, x, key, f)
  {
    var first := cx.(slots := map[]);
    assert Find(facts, x) == FactBelow(first, |Code(cx)|, x);
    if x.0 == cx.fn && x.1 < |Code(cx)| && Code(cx)[x.1].insn.StoreEnv? {
      assert x == (cx.fn, x.1);
      ClosureRecognised(first, x.1, Code(cx)[x.1].insn.val, f);
    }
  }

  /** The second walk knows a slot to hold f exactly when the slot is stored to, no unresolved
      store shares its number, and every store of it is in this factory and stores f. */
  lemma ClosureSlotIffAllStores(cx: Context, index: SlotIndex, key: SlotKey, f: Fn)
    requires ContextRight(cx) && SecondWalk(cx, index)
    ensures key in cx.slots && cx.slots[key] == f <==>
      (key in index.byKey && index.byKey[key].storeSites != [] && key.1 !in index.poisoned
       && forall k {:trigger index.byKey[key].storeSites[k]} :: 0 <= k < |index.byKey[key].storeSites| ==> StoresClosureAt(cx, index.byKey[key].storeSites[k], key, f))
  {
    var facts :| FactsTo(cx.(slots := map[]), |Code(cx)|, facts) && Resolves(index, facts, cx.slots);
    var slots := cx.slots;
    assert Resolves(index, facts, slots);
    assert (key in slots && slots[key] == f) <==> SlotProven(index, facts, key, f);
    if key in index.byKey {
      var sites := index.byKey[key].storeSites;
      forall k | 0 <= k < |sites| ensures sites[k] in facts && facts[sites[k]] == StoreFact(key, Some(f)) <==> StoresClosureAt(cx, sites[k], key, f) {
        ClosureFactTraced(cx, facts, sites[k], key, f);
      }
    }
  }
}
