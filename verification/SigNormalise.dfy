// The canonical signature form of a function (src/deps/sig-normalise.ts): what it masks, and
// the changes to a function it cannot see.
module SigNormalise {
  import opened CfgTypes

  type Reg = int

  /** Operand roles; NumberRole stands for immediates, doubles and environment slots. */
  datatype Role = RegRole | AddrRole | CacheRole | NumberRole | StringRole | FunctionRole | BigintRole | RegexpRole | BuiltinRole | ShapeRole | LiteralRole

  datatype Operand = Operand(role: Role, value: int)

  datatype OpClass = LoadParamOp | LoadConstOp | GetByValOp | GetByIndexOp | DebugOp | OtherOp

  datatype SigCase = SigCase(value: int, target: int)

  datatype SigTable = SigTable(ofStrings: bool, defaultTarget: int, cases: seq<SigCase>)

  datatype SigInsn = SigInsn(offset: int, class_: OpClass, name: nat, operands: seq<Operand>, targets: seq<int>, table: Option<SigTable>)

  datatype SigHandler = SigHandler(start: int, end: int, target: int)

  /** The tables of a module that operands index: names, big integers, properties per shape. */
  datatype SigModule = SigModule(strings: map<int, string>, functions: map<int, string>, bigInts: map<int, int>,
                                 builtins: map<int, string>, shapes: map<int, nat>)

  /** A function and the module it is from. */
  datatype SigFunction = SigFunction(paramCount: nat, name: string, insns: seq<SigInsn>, labels: map<int, string>, handlers: seq<SigHandler>, mod: SigModule)

  function LabelAt(f: SigFunction, offset: int): Option<string> {
    if offset in f.labels then Some(f.labels[offset]) else None
  }

  // --------------------------------------------------------- debug-only instructions

  datatype Kept = Kept(insn: SigInsn, labels: seq<string>)

  function OwnLabel(f: SigFunction, insn: SigInsn): seq<string> {
    if insn.offset in f.labels then [f.labels[insn.offset]] else []
  }

  /** The kept instructions among the first n, and the labels waiting for the next one. */
  function KeptTo(f: SigFunction, n: nat): (r: (seq<Kept>, seq<string>))
    requires n <= |f.insns|
    ensures |r.0| <= n
    decreases n
  {
    if n == 0 then ([], [])
    else
      var (out, pending) := KeptTo(f, n - 1);
      var insn := f.insns[n - 1];
      if insn.class_ == DebugOp then (out, pending + OwnLabel(f, insn)) else (out + [Kept(insn, pending + OwnLabel(f, insn))], [])
  }

  function KeptOf(f: SigFunction): seq<Kept> {
    KeptTo(f, |f.insns|).0
  }

  function WithoutDebug(insns: seq<SigInsn>): (r: seq<SigInsn>)
    ensures |r| <= |insns| && forall x :: x in r ==> x in insns && x.class_ != DebugOp
  {
    if insns == [] then []
    else WithoutDebug(insns[..|insns| - 1]) + (if insns[|insns| - 1].class_ == DebugOp then [] else [insns[|insns| - 1]])
  }

  /** signatureInstructions. */
  method SignatureInstructions(f: SigFunction) returns (out: seq<Kept>)
    ensures out == KeptOf(f) && InsnsOf(out) == WithoutDebug(f.insns)
  {
    out := [];
    var pending: seq<string> := [];
    for i := 0 to |f.insns|
      invariant (out, pending) == KeptTo(f, i)
    {
      var insn := f.insns[i];
      assert pending + [] == pending;
      if insn.offset in f.labels { pending := pending + [f.labels[insn.offset]]; }
      if insn.class_ == DebugOp { continue; }
      out := out + [Kept(insn, pending)];
      pending := [];
    }
    KeptAreOthers(f, |f.insns|);
    assert f.insns[..|f.insns|] == f.insns;
  }

  // ---------------------------------------------------------------- the dependency mask

  datatype RegState = DepMap | ConstImm(offset: int)

  datatype MaskMode = SelfMask | LoadMask

  datatype Scan = Scan(regs: map<Reg, RegState>, masked: map<int, MaskMode>)

  predicate IsReg(insn: SigInsn, k: nat) {
    k < |insn.operands| && insn.operands[k].role == RegRole
  }

  predicate Holds(s: Scan, r: Reg, what: RegState) {
    r in s.regs && s.regs[r] == what
  }

  /** What the scan makes of an instruction. */
  datatype Effect = Param(dst: Reg, last: bool) | Const(dst: Reg) | ByVal(dst: Reg, base: Reg, index: Reg) | ByIndex(dst: Reg, base: Reg) | Kill(dst: Reg) | Nothing

  function EffectOf(paramCount: nat, insn: SigInsn): Effect {
    var ops := insn.operands;
    if insn.class_ == LoadParamOp && |ops| >= 2 && IsReg(insn, 0) then Param(ops[0].value, ops[1].value == paramCount - 1)
    else if insn.class_ == LoadConstOp && IsReg(insn, 0) then Const(ops[0].value)
    else if insn.class_ == GetByValOp && |ops| == 3 && IsReg(insn, 0) && IsReg(insn, 1) && IsReg(insn, 2) then ByVal(ops[0].value, ops[1].value, ops[2].value)
    else if insn.class_ == GetByIndexOp && |ops| == 3 && IsReg(insn, 0) && IsReg(insn, 1) && ops[2].role == NumberRole then ByIndex(ops[0].value, ops[1].value)
    else if IsReg(insn, 0) then Kill(ops[0].value)
    else Nothing
  }

  /** One instruction of the flat forward scan. */
  function Apply(s: Scan, e: Effect, offset: int): Scan {
    match e
    case Param(dst, last) => s.(regs := if last then s.regs[dst := DepMap] else s.regs - {dst})
    case Const(dst) => s.(regs := s.regs[dst := ConstImm(offset)])
    case ByVal(dst, base, index) =>
      Scan(s.regs - {dst}, if Holds(s, base, DepMap) && index in s.regs && s.regs[index].ConstImm? then s.masked[s.regs[index].offset := LoadMask] else s.masked)
    case ByIndex(dst, base) => Scan(s.regs - {dst}, if Holds(s, base, DepMap) then s.masked[offset := SelfMask] else s.masked)
    case Kill(dst) => s.(regs := s.regs - {dst})
    case Nothing => s
  }

  function ScanStep(paramCount: nat, s: Scan, insn: SigInsn): Scan {
    Apply(s, EffectOf(paramCount, insn), insn.offset)
  }

  function ScanTo(paramCount: nat, insns: seq<SigInsn>, n: nat): Scan
    requires n <= |insns|
    decreases n
  {
    if n == 0 then Scan(map[], map[]) else ScanStep(paramCount, ScanTo(paramCount, insns, n - 1), insns[n - 1])
  }

  function MasksOf(f: SigFunction): map<int, MaskMode> {
    ScanTo(f.paramCount, f.insns, |f.insns|).masked
  }

  // Which instructions those are.

  predicate Sets(insn: SigInsn, r: Reg) {
    IsReg(insn, 0) && insn.operands[0].value == r
  }

  /** The last of the first n instructions that writes r. */
  function LastSet(insns: seq<SigInsn>, n: nat, r: Reg): (w: Option<nat>)
    requires n <= |insns|
    ensures w.Some? ==> w.value < n && Sets(insns[w.value], r) && forall j {:trigger insns[j]} :: w.value < j < n ==> !Sets(insns[j], r)
    ensures w.None? ==> forall j {:trigger insns[j]} :: 0 <= j < n ==> !Sets(insns[j], r)
    decreases n
  {
    if n == 0 then None else if Sets(insns[n - 1], r) then Some(n - 1) else LastSet(insns, n - 1, r)
  }

  /** Before instruction n, r was last written by a load of the last parameter. */
  predicate HoldsMap(pc: nat, insns: seq<SigInsn>, n: nat, r: Reg)
    requires n <= |insns|
  {
    var w := LastSet(insns, n, r);
    w.Some? && insns[w.value].class_ == LoadParamOp && |insns[w.value].operands| >= 2 && insns[w.value].operands[1].value == pc - 1
  }

  /** An access by an immediate index, and one by an index register. */
  predicate ByNumber(insn: SigInsn) {
    insn.class_ == GetByIndexOp && |insn.operands| == 3 && IsReg(insn, 0) && IsReg(insn, 1) && insn.operands[2].role == NumberRole
  }

  predicate ByRegister(insn: SigInsn) {
    insn.class_ == GetByValOp && |insn.operands| == 3 && IsReg(insn, 0) && IsReg(insn, 1) && IsReg(insn, 2)
  }

  /** Instruction k indexes the dependency map by its own number. */
  predicate IndexesMap(pc: nat, insns: seq<SigInsn>, k: nat)
    requires k < |insns|
  {
    ByNumber(insns[k]) && HoldsMap(pc, insns, k, insns[k].operands[1].value)
  }

  /** Instruction j indexes the dependency map by what the constant load k put in its index. */
  predicate UsesIndex(pc: nat, insns: seq<SigInsn>, k: nat, j: nat)
    requires j < |insns| && k < |insns|
  {
    && ByRegister(insns[j]) && HoldsMap(pc, insns, j, insns[j].operands[1].value)
    && LastSet(insns, j, insns[j].operands[2].value) == Some(k) && insns[k].class_ == LoadConstOp
  }

  ghost function MaskOf(pc: nat, insns: seq<SigInsn>, n: nat, k: nat): Option<MaskMode>
    requires n <= |insns| && k < |insns|
  {
    if k < n && IndexesMap(pc, insns, k) then Some(SelfMask)
    else if exists j :: 0 <= j < n && UsesIndex(pc, insns, k, j) then Some(LoadMask)
    else None
  }

  lemma {:induction false} RegIs(pc: nat, insns: seq<SigInsn>, n: nat, r: Reg)
    requires n <= |insns|
    ensures var s, w := ScanTo(pc, insns, n), LastSet(insns, n, r);
            (Holds(s, r, DepMap) <==> HoldsMap(pc, insns, n, r))
            && (r in s.regs && s.regs[r].ConstImm? <==> w.Some? && insns[w.value].class_ == LoadConstOp)
            && (r in s.regs && s.regs[r].ConstImm? ==> s.regs[r].offset == insns[w.value].offset)
    decreases n
  {
    if n > 0 { RegIs(pc, insns, n - 1, r); }
  }

  /** A keyed access adds the mask of the constant load it uses. */
  lemma ByValMasks(pc: nat, insns: seq<SigInsn>, n: nat, k: nat)
    requires OwnOffsets(insns) && n < |insns| && k < |insns| && EffectOf(pc, insns[n]).ByVal?
    ensures MaskAt(ScanTo(pc, insns, n + 1), insns[k]) ==
      if UsesIndex(pc, insns, k, n) then Some(LoadMask) else MaskAt(ScanTo(pc, insns, n), insns[k])
  {
    var e := EffectOf(pc, insns[n]);
    RegIs(pc, insns, n, e.base);
    RegIs(pc, insns, n, e.index);
    var w := LastSet(insns, n, e.index);
    if w.Some? { OffsetTells(insns, w.value, k); }
  }

  /** An indexed access adds its own. */
  lemma ByIndexMasks(pc: nat, insns: seq<SigInsn>, n: nat, k: nat)
    requires OwnOffsets(insns) && n < |insns| && k < |insns| && EffectOf(pc, insns[n]).ByIndex?
    ensures MaskAt(ScanTo(pc, insns, n + 1), insns[k]) ==
      if k == n && IndexesMap(pc, insns, n) then Some(SelfMask) else MaskAt(ScanTo(pc, insns, n), insns[k])
  {
    RegIs(pc, insns, n, EffectOf(pc, insns[n]).base);
    OffsetTells(insns, n, k);
  }

  lemma MaskStays(pc: nat, insns: seq<SigInsn>, n: nat, k: nat)
    requires n < |insns| && k < |insns| && !EffectOf(pc, insns[n]).ByVal? && !EffectOf(pc, insns[n]).ByIndex?
    ensures MaskAt(ScanTo(pc, insns, n + 1), insns[k]) == MaskAt(ScanTo(pc, insns, n), insns[k])
  {
  }

  ghost predicate MaskIs(pc: nat, insns: seq<SigInsn>, n: nat, k: nat)
    requires n <= |insns| && k < |insns|
  {
    MaskAt(ScanTo(pc, insns, n), insns[k]) == MaskOf(pc, insns, n, k)
  }

  lemma MaskStep(pc: nat, insns: seq<SigInsn>, n: nat, k: nat)
    requires OwnOffsets(insns) && n < |insns| && k < |insns| && MaskIs(pc, insns, n, k)
    ensures MaskIs(pc, insns, n + 1, k)
  {
    MaskNext(pc, insns, n, k);
    var e := EffectOf(pc, insns[n]);
    if e.ByVal? { ByValMasks(pc, insns, n, k); } else if e.ByIndex? { ByIndexMasks(pc, insns, n, k); } else { MaskStays(pc, insns, n, k); }
  }

  /** The mask is on exactly those, each by its own offset. */
  lemma {:induction false} MasksAre(pc: nat, insns: seq<SigInsn>, n: nat, k: nat)
    requires OwnOffsets(insns) && n <= |insns| && k < |insns|
    ensures MaskIs(pc, insns, n, k)
    decreases n
  {
    if n == 0 {
      NoMasks(pc, insns, k);
    } else {
      MasksAre(pc, insns, n - 1, k);
      MaskStep(pc, insns, n - 1, k);
    }
  }

  lemma NoMasks(pc: nat, insns: seq<SigInsn>, k: nat)
    requires k < |insns|
    ensures MaskIs(pc, insns, 0, k)
  {
  }

  lemma MaskNext(pc: nat, insns: seq<SigInsn>, n: nat, k: nat)
    requires n < |insns| && k < |insns|
    ensures (exists j :: 0 <= j < n + 1 && UsesIndex(pc, insns, k, j)) <==> (exists j :: 0 <= j < n && UsesIndex(pc, insns, k, j)) || UsesIndex(pc, insns, k, n)
  {
  }

  /** findDependencyIndexOperands: the instructions that index the dependency map by their own
      number, and the constant loads that another one indexes it by. */
  method FindDependencyIndexOperands(f: SigFunction) returns (masked: map<int, MaskMode>)
    ensures masked == MasksOf(f)
    ensures OwnOffsets(f.insns) ==> forall k {:trigger MaskOf(f.paramCount, f.insns, |f.insns|, k)} :: 0 <= k < |f.insns| ==>
      (if f.insns[k].offset in masked then Some(masked[f.insns[k].offset]) else None) == MaskOf(f.paramCount, f.insns, |f.insns|, k)
  {
    masked := map[];
    var regs: map<Reg, RegState> := map[];
    for i := 0 to |f.insns|
      invariant Scan(regs, masked) == ScanTo(f.paramCount, f.insns, i)
    {
      var insn := f.insns[i];
      var ops := insn.operands;
      if insn.class_ == LoadParamOp && |ops| >= 2 && IsReg(insn, 0) {
        if ops[1].value == f.paramCount - 1 { regs := regs[ops[0].value := DepMap]; } else { regs := regs - {ops[0].value}; }
      } else if insn.class_ == LoadConstOp && IsReg(insn, 0) {
        regs := regs[ops[0].value := ConstImm(insn.offset)];
      } else if insn.class_ == GetByValOp && |ops| == 3 && IsReg(insn, 0) && IsReg(insn, 1) && IsReg(insn, 2) {
        if ops[1].value in regs && regs[ops[1].value] == DepMap && ops[2].value in regs && regs[ops[2].value].ConstImm? {
          masked := masked[regs[ops[2].value].offset := LoadMask];
        }
        regs := regs - {ops[0].value};
      } else if insn.class_ == GetByIndexOp && |ops| == 3 && IsReg(insn, 0) && IsReg(insn, 1) && ops[2].role == NumberRole {
        if ops[1].value in regs && regs[ops[1].value] == DepMap { masked := masked[insn.offset := SelfMask]; }
        regs := regs - {ops[0].value};
      } else if IsReg(insn, 0) {
        regs := regs - {ops[0].value};
      }
    }
    if OwnOffsets(f.insns) {
      forall k | 0 <= k < |f.insns| ensures MaskAt(Scan(regs, masked), f.insns[k]) == MaskOf(f.paramCount, f.insns, |f.insns|, k) {
        MasksAre(f.paramCount, f.insns, |f.insns|, k);
      }
    }
  }

  // ------------------------------------------------------------------------- the text

  datatype Token =
    | RegToken(index: nat)
    | LabelToken(target: Option<string>)
    | StringToken(text: Option<string>)
    | FunctionToken(name: string)
    | BigintToken(bigint: Option<int>)
    | RegexpToken
    | BuiltinToken(name: string)
    | CacheToken
    | ShapeToken(props: Option<nat>)
    | LiteralToken
    | DepToken
    | NumberToken(value: int)

  datatype Line =
    | Header(paramCount: nat, shown: string)
    | InsnLine(labels: seq<string>, name: nat, tokens: seq<Token>)
    | SwitchLine(labels: seq<string>, name: nat, defaultLabel: Option<string>, cases: seq<(Token, Option<string>)>)
    | TryLine(start: Option<string>, end: Option<string>, target: Option<string>)

  function MaskedName(name: string): string {
    if name == "global" then "global" else "~"
  }

  /** regName: registers numbered by first use. */
  function Index(regs: seq<Reg>, r: Reg): (i: nat)
    ensures i <= |regs| && (i < |regs| ==> regs[i] == r)
  {
    if regs == [] then 0 else if regs[0] == r then 0 else 1 + Index(regs[1..], r)
  }

  function Named(regs: seq<Reg>, r: Reg): seq<Reg> {
    if Index(regs, r) < |regs| then regs else regs + [r]
  }

  /** How many of the first n operands are no cache slots. */
  function Shown(ops: seq<Operand>, n: nat): (c: nat)
    requires n <= |ops|
    ensures c <= n
    decreases n
  {
    if n == 0 then 0 else Shown(ops, n - 1) + if ops[n - 1].role == CacheRole then 0 else 1
  }

  /** The operands but for cache slots, each at its place among the others. */
  function WithoutCache(ops: seq<Operand>): (r: seq<Operand>)
    ensures |r| <= |ops| && forall k {:trigger r[k]} :: 0 <= k < |r| ==> r[k].role != CacheRole
  {
    if ops == [] then []
    else if ops[|ops| - 1].role == CacheRole then WithoutCache(ops[..|ops| - 1])
    else WithoutCache(ops[..|ops| - 1]) + [ops[|ops| - 1]]
  }

  lemma {:induction false} ShownPrefix(ops: seq<Operand>, m: nat, n: nat)
    requires n <= m <= |ops|
    ensures Shown(ops[..m], n) == Shown(ops, n)
    decreases n
  {
    if n > 0 { ShownPrefix(ops, m, n - 1); }
  }

  lemma {:induction false} WithoutCacheAt(ops: seq<Operand>, k: nat)
    requires k < |ops|
    ensures |WithoutCache(ops)| == Shown(ops, |ops|)
    ensures ops[k].role != CacheRole ==> Shown(ops, k) < |WithoutCache(ops)| && WithoutCache(ops)[Shown(ops, k)] == ops[k]
    decreases |ops|
  {
    var n := |ops| - 1;
    ShownPrefix(ops, n, n);
    if k < n { ShownPrefix(ops, n, k); }
    if n > 0 { WithoutCacheAt(ops[..n], if k < n then k else 0); }
  }

  predicate IsMasked(masked: map<int, MaskMode>, insn: SigInsn, idx: nat, op: Operand) {
    insn.offset in masked &&
    match masked[insn.offset]
    case SelfMask => idx == |insn.operands| - 1 && op.role == NumberRole
    case LoadMask => op.role != RegRole
  }

  function Lookup<T>(table: map<int, T>, k: int): Option<T> {
    if k in table then Some(table[k]) else None
  }

  function NameIn(table: map<int, string>, k: int): string {
    if k in table then table[k] else "?"
  }

  /** The label of the offset an instruction goes to. */
  function TargetLabel(f: SigFunction, insn: SigInsn): Option<string> {
    if insn.targets != [] then LabelAt(f, insn.targets[0]) else None
  }

  function TokenOf(f: SigFunction, masked: map<int, MaskMode>, insn: SigInsn, idx: nat, op: Operand, regs: seq<Reg>): Token {
    match op.role
    case RegRole => RegToken(Index(regs, op.value))
    case AddrRole => LabelToken(TargetLabel(f, insn))
    case StringRole => StringToken(Lookup(f.mod.strings, op.value))
    case FunctionRole => FunctionToken(MaskedName(NameIn(f.mod.functions, op.value)))
    case BigintRole => BigintToken(Lookup(f.mod.bigInts, op.value))
    case RegexpRole => RegexpToken
    case BuiltinRole => BuiltinToken(NameIn(f.mod.builtins, op.value))
    case CacheRole => CacheToken
    case ShapeRole => ShapeToken(Lookup(f.mod.shapes, op.value))
    case LiteralRole => LiteralToken
    case NumberRole => if IsMasked(masked, insn, idx, op) then DepToken else NumberToken(op.value)
  }

  /** The tokens of the first n operands, and the registers named so far. */
  function Tokens(f: SigFunction, masked: map<int, MaskMode>, insn: SigInsn, ops: seq<Operand>, n: nat, regs: seq<Reg>): (seq<Token>, seq<Reg>)
    requires n <= |ops|
    decreases n
  {
    if n == 0 then ([], regs)
    else
      var (ts, rs) := Tokens(f, masked, insn, ops, n - 1, regs);
      (ts + [TokenOf(f, masked, insn, n - 1, ops[n - 1], rs)], if ops[n - 1].role == RegRole then Named(rs, ops[n - 1].value) else rs)
  }

  function CaseToken(f: SigFunction, ofStrings: bool, value: int): Token {
    if ofStrings then StringToken(Lookup(f.mod.strings, value)) else NumberToken(value)
  }

  function CaseLabels(f: SigFunction, ofStrings: bool, cases: seq<SigCase>): (r: seq<(Token, Option<string>)>)
    ensures |r| == |cases| && forall k :: 0 <= k < |r| ==> r[k] == (CaseToken(f, ofStrings, cases[k].value), LabelAt(f, cases[k].target))
  {
    if cases == [] then []
    else [(CaseToken(f, ofStrings, cases[0].value), LabelAt(f, cases[0].target))] + CaseLabels(f, ofStrings, cases[1..])
  }

  function LineOf(f: SigFunction, masked: map<int, MaskMode>, x: Kept, regs: seq<Reg>): (Line, seq<Reg>) {
    if x.insn.table.Some? then
      var t := x.insn.table.value;
      (SwitchLine(x.labels, x.insn.name, LabelAt(f, t.defaultTarget), CaseLabels(f, t.ofStrings, t.cases)), regs)
    else
      var ops := WithoutCache(x.insn.operands);
      var (ts, rs) := Tokens(f, masked, x.insn, ops, |ops|, regs);
      (InsnLine(x.labels, x.insn.name, ts), rs)
  }

  function Lines(f: SigFunction, masked: map<int, MaskMode>, xs: seq<Kept>, n: nat): (seq<Line>, seq<Reg>)
    requires n <= |xs|
    decreases n
  {
    if n == 0 then ([], [])
    else
      var (ls, rs) := Lines(f, masked, xs, n - 1);
      var (line, rs') := LineOf(f, masked, xs[n - 1], rs);
      (ls + [line], rs')
  }

  function TryLines(f: SigFunction): (r: seq<Line>)
    ensures |r| == |f.handlers|
    ensures forall k :: 0 <= k < |r| ==> r[k] == TryLine(LabelAt(f, f.handlers[k].start), LabelAt(f, f.handlers[k].end), LabelAt(f, f.handlers[k].target))
  {
    seq(|f.handlers|, k requires 0 <= k < |f.handlers| =>
      TryLine(LabelAt(f, f.handlers[k].start), LabelAt(f, f.handlers[k].end), LabelAt(f, f.handlers[k].target)))
  }

  function Normalised(f: SigFunction): seq<Line> {
    [Header(f.paramCount, MaskedName(f.name))] + Lines(f, MasksOf(f), KeptOf(f), |KeptOf(f)|).0 + TryLines(f)
  }

  /** normaliseFunctionForSignature, up to rendering each line as text. */
  method NormaliseFunctionForSignature(f: SigFunction) returns (lines: seq<Line>)
    ensures lines == Normalised(f)
  {
    var masked := FindDependencyIndexOperands(f);
    var kept := SignatureInstructions(f);
    lines := AddInsnLines(f, masked, kept, [Header(f.paramCount, MaskedName(f.name))]);
    lines := AddTryLines(f, lines);
  }

  method AddInsnLines(f: SigFunction, masked: map<int, MaskMode>, kept: seq<Kept>, before: seq<Line>) returns (lines: seq<Line>)
    ensures lines == before + Lines(f, masked, kept, |kept|).0
  {
    var regs: seq<Reg> := [];
    lines := before;
    for k := 0 to |kept|
      invariant lines == before + Lines(f, masked, kept, k).0 && regs == Lines(f, masked, kept, k).1
    {
      var line, more := NormaliseInsn(f, masked, kept[k], regs);
      lines, regs := lines + [line], more;
    }
  }

  method AddTryLines(f: SigFunction, before: seq<Line>) returns (lines: seq<Line>)
    ensures lines == before + TryLines(f)
  {
    lines := before;
    for k := 0 to |f.handlers|
      invariant lines == before + TryLines(f)[..k]
    {
      var h := f.handlers[k];
      assert TryLines(f)[..k + 1] == TryLines(f)[..k] + [TryLines(f)[k]];
      lines := lines + [TryLine(LabelAt(f, h.start), LabelAt(f, h.end), LabelAt(f, h.target))];
    }
    assert TryLines(f)[..|f.handlers|] == TryLines(f);
  }

  method NormaliseInsn(f: SigFunction, masked: map<int, MaskMode>, x: Kept, regs0: seq<Reg>) returns (line: Line, regs: seq<Reg>)
    ensures (line, regs) == LineOf(f, masked, x, regs0)
  {
    regs := regs0;
    if x.insn.table.Some? {
      var t := x.insn.table.value;
      return SwitchLine(x.labels, x.insn.name, LabelAt(f, t.defaultTarget), CaseLabels(f, t.ofStrings, t.cases)), regs;
    }
    var ops := WithoutCache(x.insn.operands);
    var tokens: seq<Token> := [];
    for k := 0 to |ops|
      invariant (tokens, regs) == Tokens(f, masked, x.insn, ops, k, regs0)
    {
      tokens := tokens + [TokenOf(f, masked, x.insn, k, ops[k], regs)];
      if ops[k].role == RegRole { regs := Named(regs, ops[k].value); }
    }
    line := InsnLine(x.labels, x.insn.name, tokens);
  }

  // ----------------------------------------------------- what the form cannot see

  ghost predicate Injective(pi: Reg -> Reg) {
    forall a, b {:trigger pi(a), pi(b)} :: pi(a) == pi(b) ==> a == b
  }

  /** Values of one role, in two modules, of which the same is said: numbers by value, ids by
      what they name, a function only by being the global one. Two regular expressions or two
      literal offsets are never told apart. */
  predicate SameValue(m: SigModule, m': SigModule, role: Role, a: int, b: int) {
    match role
    case StringRole => SameEntry(m.strings, a, m'.strings, b)
    case FunctionRole => IsCalled(m.functions, a, "global") <==> IsCalled(m'.functions, b, "global")
    case BigintRole => SameEntry(m.bigInts, a, m'.bigInts, b)
    case BuiltinRole => SameEntry(m.builtins, a, m'.builtins, b) || (IsUnnamed(m.builtins, a) && IsUnnamed(m'.builtins, b))
    case ShapeRole => SameEntry(m.shapes, a, m'.shapes, b)
    case NumberRole => a == b
    case _ => true
  }

  /** Both missing, or there with one value. */
  predicate SameEntry<T(==)>(t: map<int, T>, a: int, u: map<int, T>, b: int) {
    (a in t <==> b in u) && (a in t ==> t[a] == u[b])
  }

  predicate IsCalled(t: map<int, string>, a: int, name: string) {
    a in t && t[a] == name
  }

  predicate IsUnnamed(t: map<int, string>, a: int) {
    a in t ==> t[a] == "?"
  }

  /** Both without a label, or with one. */
  predicate SameLabel(f: SigFunction, o: int, g: SigFunction, p: int) {
    SameEntry(f.labels, o, g.labels, p)
  }

  predicate SameTarget(f: SigFunction, a: SigInsn, g: SigFunction, b: SigInsn) {
    if a.targets == [] || a.targets[0] !in f.labels then b.targets == [] || b.targets[0] !in g.labels
    else b.targets != [] && SameLabel(f, a.targets[0], g, b.targets[0])
  }

  predicate SameName(f: SigFunction, g: SigFunction) {
    f.name == "global" <==> g.name == "global"
  }

  /** b is a with registers renamed, each in its own module; addresses and cache indices are
      free, and so is the number when it is a masked dependency index. */
  predicate SameOperand(m: SigModule, m': SigModule, pi: Reg -> Reg, a: Operand, b: Operand, free: bool) {
    b.role == a.role &&
    match a.role
    case RegRole => b.value == pi(a.value)
    case _ => SameValue(m, m', a.role, a.value, b.value) || (free && a.role == NumberRole)
  }

  /** Masked, and one of the two instructions the mask is for. */
  predicate Free(masked: map<int, MaskMode>, insn: SigInsn, k: nat) {
    k < |insn.operands| && IsMasked(masked, insn, k, insn.operands[k]) && insn.class_ in {LoadConstOp, GetByIndexOp}
    && forall j :: 0 <= j < |insn.operands| ==> insn.operands[j].role != CacheRole
  }

  ghost predicate SameTable(f: SigFunction, g: SigFunction, a: SigTable, b: SigTable) {
    && SameLabel(f, a.defaultTarget, g, b.defaultTarget) && |a.cases| == |b.cases|
    && forall k {:trigger a.cases[k]} {:trigger b.cases[k]} :: 0 <= k < |a.cases| ==>
         && a.ofStrings == b.ofStrings && SameValue(f.mod, g.mod, if a.ofStrings then StringRole else NumberRole, a.cases[k].value, b.cases[k].value)
         && SameLabel(f, a.cases[k].target, g, b.cases[k].target)
  }

  ghost predicate SameInsn(f: SigFunction, g: SigFunction, pi: Reg -> Reg, masked: map<int, MaskMode>, a: SigInsn, b: SigInsn) {
    && b.class_ == a.class_ && b.name == a.name && |b.operands| == |a.operands|
    && (forall k {:trigger a.operands[k]} {:trigger b.operands[k]} :: 0 <= k < |a.operands| ==> SameOperand(f.mod, g.mod, pi, a.operands[k], b.operands[k], Free(masked, a, k)))
    && (a.targets == [] <==> b.targets == []) && (a.targets != [] ==> SameLabel(f, a.targets[0], g, b.targets[0]))
    && (a.table.Some? <==> b.table.Some?) && (a.table.Some? ==> SameTable(f, g, a.table.value, b.table.value))
  }

  /** Up to debug-only instructions, register names, offsets and dependency indices, f and g
      are one function: same instructions, same labels in the same places. */
  ghost predicate Alike(f: SigFunction, g: SigFunction, pi: Reg -> Reg) {
    && Injective(pi) && g.paramCount == f.paramCount && SameName(f, g)
    && |KeptOf(g)| == |KeptOf(f)|
    && (forall k {:trigger KeptOf(f)[k]} {:trigger KeptOf(g)[k]} :: 0 <= k < |KeptOf(f)| ==>
          KeptOf(g)[k].labels == KeptOf(f)[k].labels && SameInsn(f, g, pi, MasksOf(f), KeptOf(f)[k].insn, KeptOf(g)[k].insn))
    && |g.handlers| == |f.handlers|
    && forall k: nat {:trigger HandlerLooks(f, g, k)} :: k < |f.handlers| ==> HandlerLooks(f, g, k)
  }

  /** Instructions have their own offsets, debug-only ones have no operands, and LoadParam's
      second operand is a number. */
  ghost predicate WellFormed(f: SigFunction) {
    && (forall i {:trigger f.insns[i]} :: 0 <= i < |f.insns| && f.insns[i].class_ == LoadParamOp && |f.insns[i].operands| >= 2 ==> f.insns[i].operands[1].role == NumberRole)
    && (forall i, j {:trigger f.insns[i], f.insns[j]} :: 0 <= i < j < |f.insns| ==> f.insns[i].offset != f.insns[j].offset)
    && forall i {:trigger f.insns[i]} :: 0 <= i < |f.insns| && f.insns[i].class_ == DebugOp ==> f.insns[i].operands == []
  }

  // --- the mask only sees kept instructions

  function InsnsOf(xs: seq<Kept>): (r: seq<SigInsn>)
    ensures |r| == |xs| && forall k {:trigger r[k]} :: 0 <= k < |xs| ==> r[k] == xs[k].insn
  {
    if xs == [] then [] else InsnsOf(xs[..|xs| - 1]) + [xs[|xs| - 1].insn]
  }

  /** What is kept is what is not debug-only, in order. */
  lemma {:induction false} KeptAreOthers(f: SigFunction, n: nat)
    requires n <= |f.insns|
    ensures InsnsOf(KeptTo(f, n).0) == WithoutDebug(f.insns[..n])
    decreases n
  {
    if n > 0 {
      KeptAreOthers(f, n - 1);
      assert f.insns[..n][..n - 1] == f.insns[..n - 1];
      KeptMore(f, n);
    }
  }

  lemma KeptMore(f: SigFunction, n: nat)
    requires 0 < n <= |f.insns|
    ensures var before, x := KeptTo(f, n - 1).0, f.insns[n - 1];
            InsnsOf(KeptTo(f, n).0) == InsnsOf(before) + if x.class_ == DebugOp then [] else [x]
  {
    var before := KeptTo(f, n - 1).0;
    if f.insns[n - 1].class_ != DebugOp {
      var last := KeptTo(f, n).0[|before|];
      assert KeptTo(f, n).0 == before + [last];
      assert (before + [last])[..|before|] == before;
    }
  }

  lemma {:induction false} ScanPrefix(pc: nat, a: seq<SigInsn>, b: seq<SigInsn>, n: nat)
    requires n <= |a| && n <= |b| && forall k :: 0 <= k < n ==> a[k] == b[k]
    ensures ScanTo(pc, a, n) == ScanTo(pc, b, n)
    decreases n
  {
    if n > 0 { ScanPrefix(pc, a, b, n - 1); }
  }

  ghost predicate ScanSkips(f: SigFunction, n: nat)
    requires n <= |f.insns|
  {
    ScanTo(f.paramCount, f.insns, n) == ScanTo(f.paramCount, InsnsOf(KeptTo(f, n).0), |KeptTo(f, n).0|)
  }

  lemma {:induction false} ScanSkipsDebug(f: SigFunction, n: nat)
    requires WellFormed(f) && n <= |f.insns|
    ensures ScanSkips(f, n)
    decreases n
  {
    if n == 0 {
      ScanSkipsNone(f);
    } else {
      ScanSkipsDebug(f, n - 1);
      ScanSkipsNext(f, n - 1);
    }
  }

  lemma ScanSkipsNone(f: SigFunction)
    ensures ScanSkips(f, 0)
  {
  }

  /** A debug-only instruction has no effect on the scan, any other is the next one kept. */
  lemma ScanSkipsNext(f: SigFunction, n: nat)
    requires WellFormed(f) && n < |f.insns| && ScanSkips(f, n)
    ensures ScanSkips(f, n + 1)
  {
    var before, x := KeptTo(f, n).0, f.insns[n];
    if x.class_ == DebugOp {
      assert EffectOf(f.paramCount, x) == Nothing;
    } else {
      var last := Kept(x, KeptTo(f, n).1 + OwnLabel(f, x));
      assert KeptTo(f, n + 1).0 == before + [last];
      ScanOneMore(f.paramCount, before, last);
    }
  }

  lemma ScanOneMore(pc: nat, xs: seq<Kept>, x: Kept)
    ensures ScanTo(pc, InsnsOf(xs + [x]), |xs| + 1) == ScanStep(pc, ScanTo(pc, InsnsOf(xs), |xs|), x.insn)
  {
    ScanPrefix(pc, InsnsOf(xs + [x]), InsnsOf(xs), |xs|);
  }

  lemma {:induction false} KeptFrom(f: SigFunction, n: nat, k: nat) returns (i: nat)
    requires n <= |f.insns| && k < |KeptTo(f, n).0|
    ensures i < n && KeptTo(f, n).0[k].insn == f.insns[i] && k <= i
    decreases n
  {
    if k < |KeptTo(f, n - 1).0| { i := KeptFrom(f, n - 1, k); } else { i := n - 1; }
  }

  lemma {:induction false} KeptOffsetsDiffer(f: SigFunction, n: nat, j: nat, k: nat)
    requires WellFormed(f) && n <= |f.insns| && j < k < |KeptTo(f, n).0|
    ensures KeptTo(f, n).0[j].insn.offset != KeptTo(f, n).0[k].insn.offset
    decreases n
  {
    if k < |KeptTo(f, n - 1).0| {
      KeptOffsetsDiffer(f, n - 1, j, k);
    } else {
      var i := KeptFrom(f, n - 1, j);
      assert f.insns[i].offset != f.insns[n - 1].offset;
    }
  }

  // --- scanning two alike sequences

  /** The two scans agree, register by renamed register and instruction by instruction. */
  ghost predicate ScansAgree(pi: Reg -> Reg, xs: seq<SigInsn>, ys: seq<SigInsn>, n: nat, s: Scan, t: Scan)
    requires n <= |xs| == |ys|
  {
    && (forall r {:trigger RegAgrees(pi, xs, ys, n, s, t, r)} :: RegAgrees(pi, xs, ys, n, s, t, r))
    && (forall k {:trigger MaskAt(s, xs[k])} {:trigger MaskAt(t, ys[k])} :: 0 <= k < |xs| ==> MaskAt(s, xs[k]) == MaskAt(t, ys[k]))
  }

  function MaskAt(s: Scan, insn: SigInsn): Option<MaskMode> {
    if insn.offset in s.masked then Some(s.masked[insn.offset]) else None
  }

  ghost predicate StatesAgree(xs: seq<SigInsn>, ys: seq<SigInsn>, n: nat, a: RegState, b: RegState)
    requires n <= |xs| == |ys|
  {
    match a
    case DepMap => b == DepMap
    case ConstImm(o) => b.ConstImm? && exists k :: 0 <= k < n && xs[k].offset == o && ys[k].offset == b.offset
  }

  ghost predicate OwnOffsets(xs: seq<SigInsn>) {
    forall i, j {:trigger xs[i], xs[j]} :: 0 <= i < j < |xs| ==> xs[i].offset != xs[j].offset
  }

  function RenamedEffect(pi: Reg -> Reg, e: Effect): Effect {
    match e
    case Param(dst, last) => Param(pi(dst), last)
    case Const(dst) => Const(pi(dst))
    case ByVal(dst, base, index) => ByVal(pi(dst), pi(base), pi(index))
    case ByIndex(dst, base) => ByIndex(pi(dst), pi(base))
    case Kill(dst) => Kill(pi(dst))
    case Nothing => Nothing
  }

  lemma StatesStillAgree(xs: seq<SigInsn>, ys: seq<SigInsn>, n: nat, a: RegState, b: RegState)
    requires n < |xs| == |ys| && StatesAgree(xs, ys, n, a, b)
    ensures StatesAgree(xs, ys, n + 1, a, b)
  {
  }

  ghost predicate RegAgrees(pi: Reg -> Reg, xs: seq<SigInsn>, ys: seq<SigInsn>, n: nat, s: Scan, t: Scan, r: Reg)
    requires n <= |xs| == |ys|
  {
    (r in s.regs <==> pi(r) in t.regs) && (r in s.regs ==> StatesAgree(xs, ys, n, s.regs[r], t.regs[pi(r)]))
  }

  lemma RegAgreesNext(pi: Reg -> Reg, xs: seq<SigInsn>, ys: seq<SigInsn>, n: nat, s: Scan, t: Scan, e: Effect, r: Reg)
    requires Injective(pi) && n < |xs| == |ys| && RegAgrees(pi, xs, ys, n, s, t, r)
    ensures RegAgrees(pi, xs, ys, n + 1, Apply(s, e, xs[n].offset), Apply(t, RenamedEffect(pi, e), ys[n].offset), r)
  {
    if r in s.regs { StatesStillAgree(xs, ys, n, s.regs[r], t.regs[pi(r)]); }
    if !e.Nothing? && r != e.dst { assert pi(r) != pi(e.dst); }
  }

  lemma MaskAgreesNext(pi: Reg -> Reg, xs: seq<SigInsn>, ys: seq<SigInsn>, n: nat, s: Scan, t: Scan, e: Effect, k: nat)
    requires n < |xs| == |ys| && k < |xs| && OwnOffsets(xs) && OwnOffsets(ys) && MaskAt(s, xs[k]) == MaskAt(t, ys[k])
    requires e.ByVal? ==> RegAgrees(pi, xs, ys, n, s, t, e.base) && RegAgrees(pi, xs, ys, n, s, t, e.index)
    requires e.ByIndex? ==> RegAgrees(pi, xs, ys, n, s, t, e.base)
    ensures MaskAt(Apply(s, e, xs[n].offset), xs[k]) == MaskAt(Apply(t, RenamedEffect(pi, e), ys[n].offset), ys[k])
  {
    if e.ByVal? && e.index in s.regs && s.regs[e.index].ConstImm? {
      var j :| 0 <= j < n && xs[j].offset == s.regs[e.index].offset && ys[j].offset == t.regs[pi(e.index)].offset;
      OffsetTells(xs, j, k);
      OffsetTells(ys, j, k);
    } else if e.ByIndex? {
      OffsetTells(xs, n, k);
      OffsetTells(ys, n, k);
    }
  }

  lemma OffsetTells(xs: seq<SigInsn>, j: nat, k: nat)
    requires OwnOffsets(xs) && j < |xs| && k < |xs|
    ensures xs[j].offset == xs[k].offset <==> j == k
  {
  }

  ghost predicate SameEffects(pi: Reg -> Reg, pc: nat, xs: seq<SigInsn>, ys: seq<SigInsn>)
    requires |xs| == |ys|
  {
    forall k {:trigger EffectOf(pc, xs[k])} {:trigger EffectOf(pc, ys[k])} :: 0 <= k < |xs| ==> EffectOf(pc, ys[k]) == RenamedEffect(pi, EffectOf(pc, xs[k]))
  }

  lemma NothingScanned(pi: Reg -> Reg, xs: seq<SigInsn>, ys: seq<SigInsn>)
    requires |xs| == |ys|
    ensures ScansAgree(pi, xs, ys, 0, Scan(map[], map[]), Scan(map[], map[]))
  {
  }

  lemma {:induction false} AlikeScansAgree(pi: Reg -> Reg, xs: seq<SigInsn>, ys: seq<SigInsn>, n: nat, pc: nat)
    requires Injective(pi) && n <= |xs| == |ys| && OwnOffsets(xs) && OwnOffsets(ys) && SameEffects(pi, pc, xs, ys)
    ensures ScansAgree(pi, xs, ys, n, ScanTo(pc, xs, n), ScanTo(pc, ys, n))
    decreases n
  {
    if n == 0 {
      NothingScanned(pi, xs, ys);
    } else {
      AlikeScansAgree(pi, xs, ys, n - 1, pc);
      AgreeNext(pi, xs, ys, n - 1, ScanTo(pc, xs, n - 1), ScanTo(pc, ys, n - 1), EffectOf(pc, xs[n - 1]));
    }
  }

  lemma AgreeNext(pi: Reg -> Reg, xs: seq<SigInsn>, ys: seq<SigInsn>, n: nat, s: Scan, t: Scan, e: Effect)
    requires Injective(pi) && n < |xs| == |ys| && OwnOffsets(xs) && OwnOffsets(ys) && ScansAgree(pi, xs, ys, n, s, t)
    ensures ScansAgree(pi, xs, ys, n + 1, Apply(s, e, xs[n].offset), Apply(t, RenamedEffect(pi, e), ys[n].offset))
  {
    var s', t' := Apply(s, e, xs[n].offset), Apply(t, RenamedEffect(pi, e), ys[n].offset);
    var m := n + 1;
    forall r: Reg ensures RegAgrees(pi, xs, ys, m, s', t', r) {
      assert RegAgrees(pi, xs, ys, n, s, t, r);
      RegAgreesNext(pi, xs, ys, n, s, t, e, r);
    }
    forall k: nat {:trigger MaskAt(s', xs[k])} | k < |xs| ensures MaskAt(s', xs[k]) == MaskAt(t', ys[k]) {
      assert MaskAt(s, xs[k]) == MaskAt(t, ys[k]);
      if e.ByVal? { assert RegAgrees(pi, xs, ys, n, s, t, e.base) && RegAgrees(pi, xs, ys, n, s, t, e.index); }
      if e.ByIndex? { assert RegAgrees(pi, xs, ys, n, s, t, e.base); }
      MaskAgreesNext(pi, xs, ys, n, s, t, e, k);
    }
  }

  // --- masks of two alike functions

  lemma KeptEffect(f: SigFunction, g: SigFunction, pi: Reg -> Reg, k: nat)
    requires WellFormed(f) && Alike(f, g, pi) && k < |KeptOf(f)|
    ensures EffectOf(g.paramCount, KeptOf(g)[k].insn) == RenamedEffect(pi, EffectOf(f.paramCount, KeptOf(f)[k].insn))
  {
    var a, b := KeptOf(f)[k].insn, KeptOf(g)[k].insn;
    var i := KeptFrom(f, |f.insns|, k);
    assert SameInsn(f, g, pi, MasksOf(f), a, b);
    assert a.class_ == LoadParamOp && |a.operands| >= 2 ==> a.operands[1].role == NumberRole;
  }

  lemma KeptOwnOffsets(f: SigFunction)
    requires WellFormed(f)
    ensures OwnOffsets(InsnsOf(KeptOf(f)))
  {
    var xs := InsnsOf(KeptOf(f));
    forall i, j | 0 <= i < j < |xs| ensures xs[i].offset != xs[j].offset { KeptOffsetsDiffer(f, |f.insns|, i, j); }
  }

  /** The mask is the same, instruction by instruction. */
  lemma MasksAgree(f: SigFunction, g: SigFunction, pi: Reg -> Reg, k: nat)
    requires WellFormed(f) && WellFormed(g) && Alike(f, g, pi) && k < |KeptOf(f)|
    ensures var a, b := KeptOf(f)[k].insn, KeptOf(g)[k].insn;
      (a.offset in MasksOf(f) <==> b.offset in MasksOf(g)) && (a.offset in MasksOf(f) ==> MasksOf(f)[a.offset] == MasksOf(g)[b.offset])
  {
    var xs, ys := InsnsOf(KeptOf(f)), InsnsOf(KeptOf(g));
    ScanSkipsDebug(f, |f.insns|);
    ScanSkipsDebug(g, |g.insns|);
    KeptOwnOffsets(f);
    KeptOwnOffsets(g);
    forall j | 0 <= j < |xs| ensures EffectOf(f.paramCount, ys[j]) == RenamedEffect(pi, EffectOf(f.paramCount, xs[j])) { KeptEffect(f, g, pi, j); }
    AlikeScansAgree(pi, xs, ys, |xs|, f.paramCount);
    assert MaskAt(ScanTo(f.paramCount, xs, |xs|), xs[k]) == MaskAt(ScanTo(f.paramCount, ys, |xs|), ys[k]);
  }

  // --- lines of two alike functions

  function RenamedRegs(pi: Reg -> Reg, regs: seq<Reg>): (r: seq<Reg>)
    ensures |r| == |regs|
  {
    if regs == [] then [] else [pi(regs[0])] + RenamedRegs(pi, regs[1..])
  }

  lemma {:induction false} IndexRenamed(pi: Reg -> Reg, regs: seq<Reg>, r: Reg)
    requires Injective(pi)
    ensures Index(RenamedRegs(pi, regs), pi(r)) == Index(regs, r)
    decreases |regs|
  {
    if regs != [] {
      assert pi(regs[0]) == pi(r) ==> regs[0] == r;
      assert RenamedRegs(pi, regs)[1..] == RenamedRegs(pi, regs[1..]);
      IndexRenamed(pi, regs[1..], r);
    }
  }

  lemma {:induction false} RenamedAppend(pi: Reg -> Reg, regs: seq<Reg>, r: Reg)
    ensures RenamedRegs(pi, regs + [r]) == RenamedRegs(pi, regs) + [pi(r)]
    decreases |regs|
  {
    if regs == [] {
      assert regs + [r] == [r];
      assert RenamedRegs(pi, [r]) == [pi(r)] + RenamedRegs(pi, [r][1..]);
    } else {
      RenamedAppend(pi, regs[1..], r);
      assert (regs + [r])[1..] == regs[1..] + [r];
    }
  }

  lemma NamedRenamed(pi: Reg -> Reg, regs: seq<Reg>, r: Reg)
    requires Injective(pi)
    ensures Named(RenamedRegs(pi, regs), pi(r)) == RenamedRegs(pi, Named(regs, r))
  {
    IndexRenamed(pi, regs, r);
    RenamedAppend(pi, regs, r);
  }

  lemma {:induction false} FilterNoCache(ops: seq<Operand>)
    requires forall k :: 0 <= k < |ops| ==> ops[k].role != CacheRole
    ensures WithoutCache(ops) == ops
    decreases |ops|
  {
    if ops != [] {
      FilterNoCache(ops[..|ops| - 1]);
      assert ops == ops[..|ops| - 1] + [ops[|ops| - 1]];
    }
  }

  lemma {:induction false} FilterSame(m: SigModule, m': SigModule, pi: Reg -> Reg, xs: seq<Operand>, ys: seq<Operand>)
    requires |xs| == |ys| && forall k {:trigger xs[k]} {:trigger ys[k]} :: 0 <= k < |xs| ==> SameOperand(m, m', pi, xs[k], ys[k], false)
    ensures |WithoutCache(xs)| == |WithoutCache(ys)|
    ensures forall j {:trigger WithoutCache(xs)[j]} {:trigger WithoutCache(ys)[j]} :: 0 <= j < |WithoutCache(xs)| ==>
      SameOperand(m, m', pi, WithoutCache(xs)[j], WithoutCache(ys)[j], false)
    decreases |xs|
  {
    if xs != [] {
      assert SameOperand(m, m', pi, xs[|xs| - 1], ys[|ys| - 1], false);
      FilterSame(m, m', pi, xs[..|xs| - 1], ys[..|ys| - 1]);
    }
  }

  /** Two instructions masked alike. */
  ghost predicate MaskedAlike(masked: map<int, MaskMode>, masked': map<int, MaskMode>, a: SigInsn, b: SigInsn) {
    (a.offset in masked <==> b.offset in masked') && (a.offset in masked ==> masked[a.offset] == masked'[b.offset])
  }

  // --- what two functions of one form have in common

  /** Operand j, as it is shown: a register renamed, an address by its label, a dependency index
      as one, and any other value by what is said of it. */
  ghost predicate OperandLooks(f: SigFunction, g: SigFunction, pi: Reg -> Reg, masked: map<int, MaskMode>, masked': map<int, MaskMode>,
                               a: SigInsn, b: SigInsn, j: nat, x: Operand, y: Operand) {
    y.role == x.role &&
    match x.role
    case RegRole => y.value == pi(x.value)
    case AddrRole => SameTarget(f, a, g, b)
    case NumberRole => (IsMasked(masked, a, j, x) <==> IsMasked(masked', b, j, y)) && (IsMasked(masked, a, j, x) || x.value == y.value)
    case _ => SameValue(f.mod, g.mod, x.role, x.value, y.value)
  }

  /** One opcode; a switch with the same cases and default, any other instruction with the same
      operands but for its cache slots. What a switch tests is not shown. */
  ghost predicate InsnLooks(f: SigFunction, g: SigFunction, pi: Reg -> Reg, masked: map<int, MaskMode>, masked': map<int, MaskMode>, a: SigInsn, b: SigInsn) {
    b.name == a.name && (a.table.Some? <==> b.table.Some?) &&
    if a.table.Some? then SameTable(f, g, a.table.value, b.table.value)
    else OperandsLook(f, g, pi, masked, masked', a, b, WithoutCache(a.operands), WithoutCache(b.operands))
  }

  ghost predicate OperandsLook(f: SigFunction, g: SigFunction, pi: Reg -> Reg, masked: map<int, MaskMode>, masked': map<int, MaskMode>,
                               a: SigInsn, b: SigInsn, xs: seq<Operand>, ys: seq<Operand>) {
    |xs| == |ys| && forall j: nat {:trigger OperandLooks(f, g, pi, masked, masked', a, b, j, xs[j], ys[j])} :: j < |xs| ==>
      OperandLooks(f, g, pi, masked, masked', a, b, j, xs[j], ys[j])
  }

  ghost predicate KeptLooks(f: SigFunction, g: SigFunction, pi: Reg -> Reg, masked: map<int, MaskMode>, masked': map<int, MaskMode>, x: Kept, y: Kept) {
    x.labels == y.labels && InsnLooks(f, g, pi, masked, masked', x.insn, y.insn)
  }

  /** g is f with registers renamed, as far as a reader of the form can see. */
  ghost predicate LooksLike(f: SigFunction, g: SigFunction, pi: Reg -> Reg) {
    && Injective(pi) && g.paramCount == f.paramCount && SameName(f, g)
    && |KeptOf(g)| == |KeptOf(f)|
    && (forall k: nat {:trigger KeptLooks(f, g, pi, MasksOf(f), MasksOf(g), KeptOf(f)[k], KeptOf(g)[k])} :: k < |KeptOf(f)| ==>
          KeptLooks(f, g, pi, MasksOf(f), MasksOf(g), KeptOf(f)[k], KeptOf(g)[k]))
    && |g.handlers| == |f.handlers|
    && forall k: nat {:trigger HandlerLooks(f, g, k)} :: k < |f.handlers| ==> HandlerLooks(f, g, k)
  }

  ghost predicate HandlerLooks(f: SigFunction, g: SigFunction, k: nat)
    requires k < |f.handlers| == |g.handlers|
  {
    var h, h' := f.handlers[k], g.handlers[k];
    SameLabel(f, h.start, g, h'.start) && SameLabel(f, h.end, g, h'.end) && SameLabel(f, h.target, g, h'.target)
  }

  lemma TokenLooks(f: SigFunction, g: SigFunction, pi: Reg -> Reg, masked: map<int, MaskMode>, masked': map<int, MaskMode>,
                   a: SigInsn, b: SigInsn, j: nat, x: Operand, y: Operand, regs: seq<Reg>)
    requires Injective(pi) && OperandLooks(f, g, pi, masked, masked', a, b, j, x, y)
    ensures TokenOf(g, masked', b, j, y, RenamedRegs(pi, regs)) == TokenOf(f, masked, a, j, x, regs)
  {
    if x.role == RegRole { IndexRenamed(pi, regs, x.value); }
  }

  lemma {:induction false} TokensLook(f: SigFunction, g: SigFunction, pi: Reg -> Reg, masked: map<int, MaskMode>, masked': map<int, MaskMode>,
                                      a: SigInsn, b: SigInsn, xs: seq<Operand>, ys: seq<Operand>, n: nat, regs: seq<Reg>)
    requires Injective(pi) && OperandsLook(f, g, pi, masked, masked', a, b, xs, ys) && n <= |xs|
    ensures Tokens(g, masked', b, ys, n, RenamedRegs(pi, regs)) == (Tokens(f, masked, a, xs, n, regs).0, RenamedRegs(pi, Tokens(f, masked, a, xs, n, regs).1))
    decreases n
  {
    if n > 0 {
      TokensLook(f, g, pi, masked, masked', a, b, xs, ys, n - 1, regs);
      var rs := Tokens(f, masked, a, xs, n - 1, regs).1;
      assert OperandLooks(f, g, pi, masked, masked', a, b, n - 1, xs[n - 1], ys[n - 1]);
      TokenLooks(f, g, pi, masked, masked', a, b, n - 1, xs[n - 1], ys[n - 1], rs);
      if xs[n - 1].role == RegRole { NamedRenamed(pi, rs, xs[n - 1].value); }
    }
  }

  lemma LineLooks(f: SigFunction, g: SigFunction, pi: Reg -> Reg, masked: map<int, MaskMode>, masked': map<int, MaskMode>, x: Kept, y: Kept, regs: seq<Reg>)
    requires Injective(pi) && KeptLooks(f, g, pi, masked, masked', x, y)
    ensures LineOf(g, masked', y, RenamedRegs(pi, regs)) == (LineOf(f, masked, x, regs).0, RenamedRegs(pi, LineOf(f, masked, x, regs).1))
  {
    if x.insn.table.Some? {
      var t, t' := x.insn.table.value, y.insn.table.value;
      assert CaseLabels(f, t.ofStrings, t.cases) == CaseLabels(g, t'.ofStrings, t'.cases);
    } else {
      var xs, ys := WithoutCache(x.insn.operands), WithoutCache(y.insn.operands);
      TokensLook(f, g, pi, masked, masked', x.insn, y.insn, xs, ys, |xs|, regs);
    }
  }

  lemma {:induction false} LinesLook(f: SigFunction, g: SigFunction, pi: Reg -> Reg, masked: map<int, MaskMode>, masked': map<int, MaskMode>,
                                     xs: seq<Kept>, ys: seq<Kept>, n: nat)
    requires Injective(pi) && n <= |xs| == |ys|
    requires forall k: nat {:trigger KeptLooks(f, g, pi, masked, masked', xs[k], ys[k])} :: k < |xs| ==> KeptLooks(f, g, pi, masked, masked', xs[k], ys[k])
    ensures Lines(g, masked', ys, n) == (Lines(f, masked, xs, n).0, RenamedRegs(pi, Lines(f, masked, xs, n).1))
    decreases n
  {
    if n > 0 {
      LinesLook(f, g, pi, masked, masked', xs, ys, n - 1);
      assert KeptLooks(f, g, pi, masked, masked', xs[n - 1], ys[n - 1]);
      LineLooks(f, g, pi, masked, masked', xs[n - 1], ys[n - 1], Lines(f, masked, xs, n - 1).1);
    }
  }

  /** Functions that look alike have one form. */
  lemma LooksSameForm(f: SigFunction, g: SigFunction, pi: Reg -> Reg)
    requires LooksLike(f, g, pi)
    ensures Normalised(g) == Normalised(f)
  {
    LinesLook(f, g, pi, MasksOf(f), MasksOf(g), KeptOf(f), KeptOf(g), |KeptOf(f)|);
    forall k: nat | k < |f.handlers| ensures TryLines(g)[k] == TryLines(f)[k] { assert HandlerLooks(f, g, k); }
    assert TryLines(g) == TryLines(f);
  }

  // --- alike functions look alike

  lemma SameLooks(f: SigFunction, g: SigFunction, pi: Reg -> Reg, masked: map<int, MaskMode>, masked': map<int, MaskMode>,
                  a: SigInsn, b: SigInsn, j: nat, x: Operand, y: Operand, free: bool)
    requires SameInsn(f, g, pi, masked, a, b) && MaskedAlike(masked, masked', a, b) && SameOperand(f.mod, g.mod, pi, x, y, free)
    requires free ==> IsMasked(masked, a, j, x)
    ensures OperandLooks(f, g, pi, masked, masked', a, b, j, x, y)
  {
  }

  lemma OperandsAlikeLook(f: SigFunction, g: SigFunction, pi: Reg -> Reg, masked: map<int, MaskMode>, masked': map<int, MaskMode>, a: SigInsn, b: SigInsn)
    requires SameInsn(f, g, pi, masked, a, b) && MaskedAlike(masked, masked', a, b)
    ensures OperandsLook(f, g, pi, masked, masked', a, b, WithoutCache(a.operands), WithoutCache(b.operands))
  {
    if forall k :: 0 <= k < |a.operands| ==> a.operands[k].role != CacheRole {
      assert forall k :: 0 <= k < |b.operands| ==> b.operands[k].role == a.operands[k].role;
      FilterNoCache(a.operands);
      FilterNoCache(b.operands);
      forall j: nat | j < |a.operands| ensures OperandLooks(f, g, pi, masked, masked', a, b, j, a.operands[j], b.operands[j]) {
        SameLooks(f, g, pi, masked, masked', a, b, j, a.operands[j], b.operands[j], Free(masked, a, j));
      }
    } else {
      UnmaskedLook(f, g, pi, masked, masked', a, b);
    }
  }

  /** An instruction with a cache slot has no operand that may differ. */
  lemma UnmaskedLook(f: SigFunction, g: SigFunction, pi: Reg -> Reg, masked: map<int, MaskMode>, masked': map<int, MaskMode>, a: SigInsn, b: SigInsn)
    requires SameInsn(f, g, pi, masked, a, b) && MaskedAlike(masked, masked', a, b) && exists k :: 0 <= k < |a.operands| && a.operands[k].role == CacheRole
    ensures OperandsLook(f, g, pi, masked, masked', a, b, WithoutCache(a.operands), WithoutCache(b.operands))
  {
    forall k | 0 <= k < |a.operands| ensures SameOperand(f.mod, g.mod, pi, a.operands[k], b.operands[k], false) {
      assert SameOperand(f.mod, g.mod, pi, a.operands[k], b.operands[k], Free(masked, a, k));
    }
    FilterSame(f.mod, g.mod, pi, a.operands, b.operands);
    var xs, ys := WithoutCache(a.operands), WithoutCache(b.operands);
    forall j: nat | j < |xs| ensures OperandLooks(f, g, pi, masked, masked', a, b, j, xs[j], ys[j]) {
      SameLooks(f, g, pi, masked, masked', a, b, j, xs[j], ys[j], false);
    }
  }

  /** The canonical form cannot tell alike functions apart: it is blind to register names,
      debug-only instructions, offsets and dependency indices. */
  lemma AlikeSameForm(f: SigFunction, g: SigFunction, pi: Reg -> Reg)
    requires WellFormed(f) && WellFormed(g) && Alike(f, g, pi)
    ensures LooksLike(f, g, pi) && Normalised(g) == Normalised(f)
  {
    forall k: nat | k < |KeptOf(f)| ensures KeptLooks(f, g, pi, MasksOf(f), MasksOf(g), KeptOf(f)[k], KeptOf(g)[k]) {
      MasksAgree(f, g, pi, k);
      var a, b := KeptOf(f)[k].insn, KeptOf(g)[k].insn;
      assert SameInsn(f, g, pi, MasksOf(f), a, b);
      if a.table.None? { OperandsAlikeLook(f, g, pi, MasksOf(f), MasksOf(g), a, b); }
    }
    LooksSameForm(f, g, pi);
  }

  // --- renaming registers, as a transformation

  function RenamedOperands(pi: Reg -> Reg, ops: seq<Operand>): (r: seq<Operand>)
    ensures |r| == |ops|
    ensures forall k {:trigger r[k]} {:trigger ops[k]} :: 0 <= k < |ops| ==> r[k] == if ops[k].role == RegRole then Operand(RegRole, pi(ops[k].value)) else ops[k]
  {
    if ops == [] then []
    else
      var last := ops[|ops| - 1];
      RenamedOperands(pi, ops[..|ops| - 1]) + [if last.role == RegRole then Operand(RegRole, pi(last.value)) else last]
  }

  function RenamedInsn(pi: Reg -> Reg, insn: SigInsn): SigInsn {
    insn.(operands := RenamedOperands(pi, insn.operands))
  }

  function RenamedInsns(pi: Reg -> Reg, insns: seq<SigInsn>): (r: seq<SigInsn>)
    ensures |r| == |insns| && forall k {:trigger r[k]} {:trigger insns[k]} :: 0 <= k < |insns| ==> r[k] == RenamedInsn(pi, insns[k])
  {
    if insns == [] then [] else RenamedInsns(pi, insns[..|insns| - 1]) + [RenamedInsn(pi, insns[|insns| - 1])]
  }

  function RenamedFunction(pi: Reg -> Reg, f: SigFunction): SigFunction {
    f.(insns := RenamedInsns(pi, f.insns))
  }

  ghost predicate KeptRenamed(pi: Reg -> Reg, xs: seq<Kept>, ys: seq<Kept>) {
    |ys| == |xs| && forall k {:trigger ys[k]} {:trigger xs[k]} :: 0 <= k < |xs| ==> ys[k] == Kept(RenamedInsn(pi, xs[k].insn), xs[k].labels)
  }

  ghost predicate KeptAsRenamed(f: SigFunction, g: SigFunction, pi: Reg -> Reg, n: nat)
    requires n <= |f.insns| == |g.insns|
  {
    KeptRenamed(pi, KeptTo(f, n).0, KeptTo(g, n).0) && KeptTo(g, n).1 == KeptTo(f, n).1
  }

  lemma KeptNextRenamed(f: SigFunction, g: SigFunction, pi: Reg -> Reg, n: nat)
    requires n < |f.insns| == |g.insns| && g.labels == f.labels && g.insns[n] == RenamedInsn(pi, f.insns[n]) && KeptAsRenamed(f, g, pi, n)
    ensures KeptAsRenamed(f, g, pi, n + 1)
  {
  }

  lemma {:induction false} KeptOfRenamed(f: SigFunction, pi: Reg -> Reg, n: nat)
    requires n <= |f.insns|
    ensures KeptAsRenamed(f, RenamedFunction(pi, f), pi, n)
    decreases n
  {
    if n > 0 {
      KeptOfRenamed(f, pi, n - 1);
      KeptNextRenamed(f, RenamedFunction(pi, f), pi, n - 1);
    }
  }

  lemma RenamedSameInsn(f: SigFunction, pi: Reg -> Reg, masked: map<int, MaskMode>, a: SigInsn)
    ensures SameInsn(f, RenamedFunction(pi, f), pi, masked, a, RenamedInsn(pi, a))
  {
  }

  /** The same text under any injective renaming of registers. */
  lemma RenamingInvisible(f: SigFunction, pi: Reg -> Reg)
    requires WellFormed(f) && Injective(pi)
    ensures Normalised(RenamedFunction(pi, f)) == Normalised(f)
  {
    var g := RenamedFunction(pi, f);
    KeptOfRenamed(f, pi, |f.insns|);
    forall k | 0 <= k < |KeptOf(f)|
      ensures KeptOf(g)[k].labels == KeptOf(f)[k].labels && SameInsn(f, g, pi, MasksOf(f), KeptOf(f)[k].insn, KeptOf(g)[k].insn)
    {
      RenamedSameInsn(f, pi, MasksOf(f), KeptOf(f)[k].insn);
    }
    AlikeSameForm(f, g, pi);
  }
}
