// Decoding one function (src/disasm/decode.ts:87-389) with its jump tables
// (src/disasm/switchtable.ts): what block building takes for granted is what the decoder
// delivers.
module Decode {
  import opened CfgTypes
  import opened Blocks

  type Byte = x: int | 0 <= x < 256

  datatype OperandType = Reg8 | Reg32 | UInt8 | UInt16 | UInt32 | Addr8 | Addr32 | Imm32 | Double

  datatype Role = AddrRole | StringRole | FunctionRole | BigintRole | RegexpRole | ShapeRole | PlainRole

  /** The name sets that decide an instruction's kind. */
  datatype OpGroup = UintSwitchOp | StringSwitchOp | UnreachableOp | ReturnOp | ThrowOp | CatchOp | JumpOp | PlainOp

  datatype OpcodeDef = OpcodeDef(name: OpName, group: OpGroup, operands: seq<OperandType>, roles: seq<Role>, unverified: bool)

  /** The file, the function's place in it, and the sizes of the tables that ids index. */
  datatype Source = Source(bytes: seq<Byte>, fileLength: int, offset: nat, size: nat, opcodes: map<int, OpcodeDef>,
                           strings: nat, functions: nat, bigInts: nat, regExps: nat, shapes: nat)

  datatype Failure = UnknownOpcode | OperandOverrun | BadId | BadSwitchTable | JumpOutOfRange | JumpMisaligned | ReadOutsideFile

  datatype Result<+T> = Ok(value: T) | Fail(why: Failure)

  predicate IsAddr(t: OperandType) {
    t == Addr8 || t == Addr32
  }

  /** What every generated opcode table provides. */
  ghost predicate TableOk(opcodes: map<int, OpcodeDef>) {
    forall n {:trigger opcodes[n]} :: n in opcodes ==> DefOk(opcodes[n])
  }

  ghost predicate DefOk(d: OpcodeDef) {
    && |d.roles| == |d.operands| && (forall k :: 0 <= k < |d.roles| ==> (d.roles[k] == AddrRole <==> IsAddr(d.operands[k])))
    && (d.group in {UintSwitchOp, StringSwitchOp} ==> |d.operands| >= 5)
    && (d.group == JumpOp ==> AddrRole in d.roles)
    && (d.name in {SaveGenerator, SaveGeneratorLong} ==> d.group == PlainOp && AddrRole in d.roles)
    && (d.name == Catch <==> d.group == CatchOp) && (d.name in {Catch, Ret} ==> d.operands != [])
  }

  // --------------------------------------------------------------------- reading

  function Width(t: OperandType): nat {
    match t
    case Reg8 => 1
    case UInt8 => 1
    case Addr8 => 1
    case UInt16 => 2
    case Double => 8
    case _ => 4
  }

  /** The little-endian value of bytes [at, at + n). */
  function LittleEndian(bytes: seq<Byte>, at: nat, n: nat): (v: nat)
    requires at + n <= |bytes|
    decreases n
  {
    if n == 0 then 0 else bytes[at] + 256 * LittleEndian(bytes, at + 1, n - 1)
  }

  function Signed(v: int, half: int): int {
    if v >= half then v - 2 * half else v
  }

  /** A DataView read; None is its RangeError. A double is kept as its bits. */
  function ReadAt(bytes: seq<Byte>, at: int, t: OperandType): Option<int> {
    if at < 0 || at + Width(t) > |bytes| then None
    else
      var v := LittleEndian(bytes, at, Width(t));
      Some(match t
           case Addr8 => Signed(v, 0x80)
           case Addr32 => Signed(v, 0x8000_0000)
           case Imm32 => Signed(v, 0x8000_0000)
           case _ => v)
  }

  predicate IdInRange(f: Source, role: Role, v: int) {
    match role
    case StringRole => 0 <= v < f.strings
    case FunctionRole => 0 <= v < f.functions
    case BigintRole => 0 <= v < f.bigInts
    case RegexpRole => 0 <= v < f.regExps
    case ShapeRole => 0 <= v < f.shapes
    case _ => true
  }

  /** An id is in range when its table has it; other operands always are. */
  lemma IdTells(f: Source, role: Role, v: int)
    ensures IdInRange(f, role, v) <==>
      && (role == StringRole ==> 0 <= v < f.strings) && (role == FunctionRole ==> 0 <= v < f.functions) && (role == BigintRole ==> 0 <= v < f.bigInts)
      && (role == RegexpRole ==> 0 <= v < f.regExps) && (role == ShapeRole ==> 0 <= v < f.shapes)
  {
  }

  /** Where operand k of an instruction at ip starts. */
  function OperandStart(ts: seq<OperandType>, ip: nat, k: nat): (o: nat)
    requires k <= |ts|
    ensures o >= ip + 1 + k
    decreases k
  {
    if k == 0 then ip + 1 else OperandStart(ts, ip, k - 1) + Width(ts[k - 1])
  }

  ghost predicate OperandRight(f: Source, d: OpcodeDef, ip: nat, k: nat, v: int)
    requires DefOk(d) && k < |d.operands|
  {
    && OperandStart(d.operands, ip, k + 1) <= f.size && IdInRange(f, d.roles[k], v)
    && ReadAt(f.bytes, f.offset + OperandStart(d.operands, ip, k), d.operands[k]) == Some(v)
  }

  ghost predicate OperandsRight(f: Source, d: OpcodeDef, ip: nat, ops: seq<int>)
    requires DefOk(d)
  {
    |ops| == |d.operands| && forall k {:trigger ops[k]} :: 0 <= k < |d.operands| ==> OperandRight(f, d, ip, k, ops[k])
  }

  /** Operand k can be read, and is an id its table has. */
  predicate OperandReads(f: Source, d: OpcodeDef, ip: nat, k: nat)
    requires k < |d.operands| == |d.roles|
  {
    var v := ReadAt(f.bytes, f.offset + OperandStart(d.operands, ip, k), d.operands[k]);
    OperandStart(d.operands, ip, k + 1) <= f.size && v.Some? && IdInRange(f, d.roles[k], v.value)
  }

  lemma NoSuchOperand(f: Source, d: OpcodeDef, ip: nat, k: nat)
    requires DefOk(d) && k < |d.operands|
    ensures !OperandReads(f, d, ip, k) ==> forall ops :: !OperandsRight(f, d, ip, ops)
  {
    forall ops | OperandsRight(f, d, ip, ops) ensures OperandReads(f, d, ip, k) {
      assert OperandRight(f, d, ip, k, ops[k]);
    }
  }

  method ReadOperands(f: Source, d: OpcodeDef, ip: nat) returns (r: Result<seq<int>>, end: nat)
    requires DefOk(d)
    ensures r.Ok? ==> OperandsRight(f, d, ip, r.value) && end == OperandStart(d.operands, ip, |d.operands|)
    ensures r.Ok? && d.operands != [] ==> end <= f.size
    ensures r.Fail? ==> r.why != UnknownOpcode && forall ops :: !OperandsRight(f, d, ip, ops)
  {
    var out: seq<int> := [];
    end := ip + 1;
    for k := 0 to |d.operands|
      invariant |out| == k && end == OperandStart(d.operands, ip, k) && (k > 0 ==> end <= f.size)
      invariant forall j :: 0 <= j < k ==> OperandRight(f, d, ip, j, out[j])
    {
      NoSuchOperand(f, d, ip, k);
      if end + Width(d.operands[k]) > f.size { return Fail(OperandOverrun), end; }
      var v := ReadAt(f.bytes, f.offset + end, d.operands[k]);
      if v.None? { return Fail(ReadOutsideFile), end; }
      if !IdInRange(f, d.roles[k], v.value) { return Fail(BadId), end; }
      out := out + [v.value];
      end := end + Width(d.operands[k]);
    }
    r := Ok(out);
  }

  // ----------------------------------------------------------------- jump tables

  const MAX_CASES := 0x10_0000
  const FOOTER_SIZE := 20

  /** JavaScript's conversion of an integer to a signed 32-bit one. */
  function ToInt32(n: int): int {
    Signed(n % 0x1_0000_0000, 0x8000_0000)
  }

  /** (n + 3) & ~3: clearing the two low bits of a two's-complement number rounds it down to a
      multiple of four. */
  function AlignUp4(n: int): int {
    ToInt32(n + 3) - ToInt32(n + 3) % 4
  }

  ghost predicate LeastMultiple(n: int, r: int) {
    r % 4 == 0 && n <= r < n + 4
  }

  /** Aligning goes wrong exactly at the top of the signed 32-bit range: for an address there
      the result is negative. */
  lemma AlignUp4IsLeastMultiple(n: int)
    requires 0 <= n < 0x1_0000_0000
    ensures LeastMultiple(n, AlignUp4(n)) <==> n + 3 < 0x8000_0000
    ensures n + 3 >= 0x8000_0000 && n < 0x8000_0000 ==> AlignUp4(n) == -0x8000_0000
  {
    if n + 3 < 0x1_0000_0000 {
      assert (n + 3) % 0x1_0000_0000 == n + 3;
    } else {
      assert (n + 3) % 0x1_0000_0000 == n + 3 - 0x1_0000_0000;
    }
  }

  ghost predicate TableAt(f: Source, ip: nat, tableOffset: int, defaultRaw: int, t: SwitchTable, entryWidth: nat) {
    && t.tableOffset == AlignUp4(f.offset + ip + tableOffset) - f.offset
    && t.byteLength == entryWidth * |t.cases| && |t.cases| <= MAX_CASES
    && f.offset + t.tableOffset + t.byteLength <= f.fileLength - FOOTER_SIZE
    && t.defaultTarget == ip + defaultRaw && 0 <= t.defaultTarget < f.size
  }

  ghost predicate UintCase(f: Source, ip: nat, tableAbs: int, min: int, k: nat, c: SwitchCase) {
    && c.value == min + k && 0 <= c.target < f.size
    && ReadAt(f.bytes, tableAbs + 4 * k, Imm32) == Some(c.target - ip)
  }

  /** The cases of a SwitchImm are the integers from min to max, in order. */
  ghost predicate UintTableRight(f: Source, ip: nat, ops: seq<int>, t: SwitchTable)
    requires |ops| >= 5
  {
    && t.kind == UintSwitch && t.min == ops[3] && t.max == ops[4] && ops[3] <= ops[4] && |t.cases| == ops[4] - ops[3] + 1
    && TableAt(f, ip, ops[1], ops[2], t, 4)
    && forall k {:trigger t.cases[k]} :: 0 <= k < |t.cases| ==> UintCase(f, ip, f.offset + t.tableOffset, ops[3], k, t.cases[k])
  }

  ghost predicate StringCase(f: Source, ip: nat, tableAbs: int, k: nat, c: SwitchCase) {
    && 0 <= c.target < f.size && 0 <= c.value < f.strings
    && ReadAt(f.bytes, tableAbs + 8 * k, UInt32) == Some(c.value) && ReadAt(f.bytes, tableAbs + 8 * k + 4, Imm32) == Some(c.target - ip)
  }

  ghost predicate StringTableRight(f: Source, ip: nat, ops: seq<int>, t: SwitchTable)
    requires |ops| >= 5
  {
    && t.kind == StringSwitch && t.min == 0 && t.max == 0 && |t.cases| == ops[4]
    && TableAt(f, ip, ops[2], ops[3], t, 8)
    && forall k {:trigger t.cases[k]} :: 0 <= k < |t.cases| ==> StringCase(f, ip, f.offset + t.tableOffset, k, t.cases[k])
  }

  predicate TableFits(f: Source, ip: nat, tableOffset: int, defaultRaw: int, count: int, entryWidth: nat) {
    0 <= count <= MAX_CASES && AlignUp4(f.offset + ip + tableOffset) + entryWidth * count <= f.fileLength - FOOTER_SIZE && 0 <= ip + defaultRaw < f.size
  }

  /** The checks both kinds of table share: the absolute start, or why not. */
  method ResolveTable(f: Source, ip: nat, tableOffset: int, defaultRaw: int, count: int, entryWidth: nat) returns (r: Result<int>)
    ensures r.Ok? <==> TableFits(f, ip, tableOffset, defaultRaw, count, entryWidth)
    ensures if r.Ok? then r.value == AlignUp4(f.offset + ip + tableOffset) else r.why == BadSwitchTable
  {
    if count < 0 || count > MAX_CASES { return Fail(BadSwitchTable); }
    var tableAbs := AlignUp4(f.offset + ip + tableOffset);
    if tableAbs + entryWidth * count > f.fileLength - FOOTER_SIZE { return Fail(BadSwitchTable); }
    var target := ip + defaultRaw;
    if target < 0 || target >= f.size { return Fail(BadSwitchTable); }
    r := Ok(tableAbs);
  }

  /** A case target can be read and lies in the function. */
  predicate TargetReads(f: Source, ip: nat, at: int) {
    var raw := ReadAt(f.bytes, at, Imm32);
    raw.Some? && 0 <= ip + raw.value < f.size
  }

  lemma NoSuchUintCase(f: Source, ip: nat, ops: seq<int>, k: nat)
    requires |ops| >= 5 && k < ops[4] - ops[3] + 1
    ensures !TargetReads(f, ip, AlignUp4(f.offset + ip + ops[1]) + 4 * k) ==> forall t :: !UintTableRight(f, ip, ops, t)
  {
    forall t | UintTableRight(f, ip, ops, t) ensures TargetReads(f, ip, AlignUp4(f.offset + ip + ops[1]) + 4 * k) {
      assert UintCase(f, ip, f.offset + t.tableOffset, ops[3], k, t.cases[k]);
    }
  }

  lemma NoSuchStringCase(f: Source, ip: nat, ops: seq<int>, k: nat)
    requires |ops| >= 5 && k < ops[4]
    ensures var at := AlignUp4(f.offset + ip + ops[2]) + 8 * k;
      !(ReadAt(f.bytes, at, UInt32).Some? && ReadAt(f.bytes, at, UInt32).value < f.strings && TargetReads(f, ip, at + 4)) ==>
        forall t :: !StringTableRight(f, ip, ops, t)
  {
    var at := AlignUp4(f.offset + ip + ops[2]) + 8 * k;
    forall t | StringTableRight(f, ip, ops, t)
      ensures ReadAt(f.bytes, at, UInt32).Some? && ReadAt(f.bytes, at, UInt32).value < f.strings && TargetReads(f, ip, at + 4)
    {
      assert StringCase(f, ip, f.offset + t.tableOffset, k, t.cases[k]);
    }
  }

  method DecodeUintSwitch(f: Source, ip: nat, ops: seq<int>) returns (r: Result<SwitchTable>)
    requires |ops| >= 5
    ensures r.Ok? ==> UintTableRight(f, ip, ops, r.value)
    ensures r.Fail? ==> r.why != UnknownOpcode && forall t :: !UintTableRight(f, ip, ops, t)
  {
    var min, max := ops[3], ops[4];
    if max < min { return Fail(BadSwitchTable); }
    var count := max - min + 1;
    var at := ResolveTable(f, ip, ops[1], ops[2], count, 4);
    if at.Fail? { return Fail(at.why); }
    var cases: seq<SwitchCase> := [];
    for i := 0 to count
      invariant |cases| == i && forall k {:trigger cases[k]} :: 0 <= k < i ==> UintCase(f, ip, at.value, min, k, cases[k])
    {
      NoSuchUintCase(f, ip, ops, i);
      var raw := ReadAt(f.bytes, at.value + 4 * i, Imm32);
      if raw.None? { return Fail(ReadOutsideFile); }
      var target := ip + raw.value;
      if target < 0 || target >= f.size { return Fail(BadSwitchTable); }
      cases := cases + [SwitchCase(min + i, target)];
    }
    r := Ok(SwitchTable(UintSwitch, at.value - f.offset, 4 * count, ip + ops[2], min, max, cases));
  }

  method DecodeStringSwitch(f: Source, ip: nat, ops: seq<int>) returns (r: Result<SwitchTable>)
    requires |ops| >= 5
    ensures r.Ok? ==> StringTableRight(f, ip, ops, r.value)
    ensures r.Fail? ==> r.why != UnknownOpcode && forall t :: !StringTableRight(f, ip, ops, t)
  {
    var count := ops[4];
    var at := ResolveTable(f, ip, ops[2], ops[3], count, 8);
    if at.Fail? { return Fail(at.why); }
    var cases: seq<SwitchCase> := [];
    for i := 0 to count
      invariant |cases| == i && forall k {:trigger cases[k]} :: 0 <= k < i ==> StringCase(f, ip, at.value, k, cases[k])
    {
      NoSuchStringCase(f, ip, ops, i);
      var id := ReadAt(f.bytes, at.value + 8 * i, UInt32);
      if id.None? { return Fail(ReadOutsideFile); }
      if id.value >= f.strings { return Fail(BadId); }
      var raw := ReadAt(f.bytes, at.value + 8 * i + 4, Imm32);
      if raw.None? { return Fail(ReadOutsideFile); }
      var target := ip + raw.value;
      if target < 0 || target >= f.size { return Fail(BadSwitchTable); }
      ReadIsNatural(f.bytes, at.value + 8 * i);
      cases := cases + [SwitchCase(id.value, target)];
    }
    r := Ok(SwitchTable(StringSwitch, at.value - f.offset, 8 * count, ip + ops[3], 0, 0, cases));
  }

  lemma ReadIsNatural(bytes: seq<Byte>, at: int)
    ensures ReadAt(bytes, at, UInt32).Some? ==> ReadAt(bytes, at, UInt32).value >= 0
  {
  }

  // ------------------------------------------------------------------ instructions

  function KindOf(d: OpcodeDef): InstrKind {
    match d.group
    case UintSwitchOp => Switch
    case StringSwitchOp => Switch
    case UnreachableOp => InstrKind.Unreachable
    case ReturnOp => Return
    case ThrowOp => InstrKind.Throw
    case CatchOp => CatchInstr
    case JumpOp => Jump
    case PlainOp => if exists k :: 0 <= k < |d.operands| && IsAddr(d.operands[k]) then CondJump else Normal
  }

  /** What the kind of an instruction says of its opcode. */
  ghost predicate IsKind(d: OpcodeDef, kind: InstrKind) {
    match kind
    case Switch => d.group in {UintSwitchOp, StringSwitchOp}
    case Return => d.group == ReturnOp
    case Throw => d.group == ThrowOp
    case CatchInstr => d.group == CatchOp
    case Jump => d.group == JumpOp
    case Unreachable => d.group == UnreachableOp
    case CondJump => d.group == PlainOp && !forall t :: t in d.operands ==> t != Addr8 && t != Addr32
    case Normal => d.group == PlainOp && forall t :: t in d.operands ==> t != Addr8 && t != Addr32
  }

  lemma KindTells(d: OpcodeDef, kind: InstrKind)
    ensures KindOf(d) == kind <==> IsKind(d, kind)
  {
    if k :| 0 <= k < |d.operands| && IsAddr(d.operands[k]) { assert d.operands[k] in d.operands; }
  }

  /** The first operand with role addr. */
  function FirstAddr(roles: seq<Role>): (r: Option<nat>)
    ensures r.Some? ==> r.value < |roles| && roles[r.value] == AddrRole && forall j :: 0 <= j < r.value ==> roles[j] != AddrRole
    ensures r.None? ==> AddrRole !in roles
  {
    if roles == [] then None
    else
      var r := FirstAddr(roles[..|roles| - 1]);
      assert roles == roles[..|roles| - 1] + [roles[|roles| - 1]];
      if r.Some? then r else if roles[|roles| - 1] == AddrRole then Some(|roles| - 1) else None
  }

  ghost predicate TableRight(f: Source, d: OpcodeDef, ip: nat, ops: seq<int>, t: SwitchTable)
    requires |ops| >= 5
  {
    if d.group == UintSwitchOp then UintTableRight(f, ip, ops, t) else StringTableRight(f, ip, ops, t)
  }

  ghost predicate TargetsRight(f: Source, d: OpcodeDef, insn: Instruction)
    requires DefOk(d) && |insn.operands| == |d.operands|
  {
    match insn.kind
    case Switch =>
      && |insn.operands| >= 5 && insn.switchTable.Some?
      && insn.targets == [insn.switchTable.value.defaultTarget] + CaseTargets(insn.switchTable.value.cases)
      && TableRight(f, d, insn.offset, insn.operands, insn.switchTable.value)
    case Jump => insn.switchTable.None? && JumpTargets(d, insn)
    case CondJump => insn.switchTable.None? && JumpTargets(d, insn)
    case _ => insn.switchTable.None? && insn.targets == []
  }

  ghost predicate JumpTargets(d: OpcodeDef, insn: Instruction)
    requires DefOk(d) && |insn.operands| == |d.operands|
  {
    FirstAddr(d.roles).Some? && insn.targets == [insn.offset + insn.operands[FirstAddr(d.roles).value]]
  }

  /** insn is what opcode definition d makes of the bytes at its offset. */
  ghost predicate InsnIs(f: Source, d: OpcodeDef, insn: Instruction)
    requires DefOk(d)
  {
    && insn.name == d.name && insn.kind == KindOf(d) && OperandsRight(f, d, insn.offset, insn.operands)
    && insn.End() == OperandStart(d.operands, insn.offset, |d.operands|)
    && TargetsRight(f, d, insn)
  }

  /** The opcode definition the byte at ip selects. */
  function DefAt(f: Source, ip: nat): Option<OpcodeDef> {
    var opcode := ReadAt(f.bytes, f.offset + ip, UInt8);
    if opcode.Some? && opcode.value in f.opcodes && !f.opcodes[opcode.value].unverified then Some(f.opcodes[opcode.value]) else None
  }

  lemma DefAtOk(f: Source, ip: nat)
    requires TableOk(f.opcodes)
    ensures DefAt(f, ip).Some? ==> DefOk(DefAt(f, ip).value)
  {
  }

  /** insn is what the bytes at its offset say. */
  ghost predicate InsnRight(f: Source, insn: Instruction)
    requires TableOk(f.opcodes)
  {
    DefAtOk(f, insn.offset);
    DefAt(f, insn.offset).Some? && InsnIs(f, DefAt(f, insn.offset).value, insn)
  }

  method DecodeSwitch(f: Source, d: OpcodeDef, ip: nat, ops: seq<int>) returns (r: Result<SwitchTable>)
    requires |ops| >= 5
    ensures r.Ok? ==> TableRight(f, d, ip, ops, r.value)
    ensures r.Fail? ==> r.why != UnknownOpcode && forall t :: !TableRight(f, d, ip, ops, t)
  {
    if d.group == UintSwitchOp { r := DecodeUintSwitch(f, ip, ops); } else { r := DecodeStringSwitch(f, ip, ops); }
  }

  /** The body of the decoding loop. */
  method DecodeInsn(f: Source, ip: nat) returns (r: Result<Instruction>)
    requires TableOk(f.opcodes) && ip < f.size
    ensures r.Ok? ==> r.value.offset == ip && r.value.length > 0 && r.value.End() <= f.size && InsnRight(f, r.value)
    ensures r.Fail? ==> forall insn: Instruction {:trigger InsnRight(f, insn)} :: insn.offset == ip ==> !InsnRight(f, insn)
    ensures r.Fail? && r.why == UnknownOpcode ==> DefAt(f, ip).None?
  {
    var opcode := ReadAt(f.bytes, f.offset + ip, UInt8);
    if opcode.None? { return Fail(ReadOutsideFile); }
    if opcode.value !in f.opcodes || f.opcodes[opcode.value].unverified { return Fail(UnknownOpcode); }
    DefAtOk(f, ip);
    r := DecodeAs(f, f.opcodes[opcode.value], ip);
  }

  method DecodeAs(f: Source, d: OpcodeDef, ip: nat) returns (r: Result<Instruction>)
    requires DefOk(d) && ip < f.size
    ensures r.Ok? ==> r.value.offset == ip && r.value.length > 0 && r.value.End() <= f.size && InsnIs(f, d, r.value)
    ensures r.Fail? ==> r.why != UnknownOpcode && forall insn: Instruction {:trigger InsnIs(f, d, insn)} :: insn.offset == ip ==> !InsnIs(f, d, insn)
  {
    var ops, end := ReadOperands(f, d, ip);
    if ops.Fail? { return Fail(ops.why); }
    var kind := KindOf(d);
    if kind == Switch {
      var table := DecodeSwitch(f, d, ip, ops.value);
      if table.Fail? {
        NoSuchSwitch(f, d, ip, ops.value);
        return Fail(table.why);
      }
      return Ok(Instruction(ip, end - ip, d.name, ops.value, kind, [table.value.defaultTarget] + CaseTargets(table.value.cases), Some(table.value)));
    }
    var targets: seq<int> := [];
    if kind == Jump || kind == CondJump {
      AddrPresent(d);
      var a := FirstAddr(d.roles);
      if a.Some? { targets := [ip + ops.value[a.value]]; }
    }
    r := Ok(Instruction(ip, end - ip, d.name, ops.value, kind, targets, None));
  }

  lemma NoSuchSwitch(f: Source, d: OpcodeDef, ip: nat, ops: seq<int>)
    requires DefOk(d) && KindOf(d) == Switch && |ops| >= 5 && OperandsRight(f, d, ip, ops)
    ensures (forall t :: !TableRight(f, d, ip, ops, t)) ==> forall insn: Instruction {:trigger InsnIs(f, d, insn)} :: insn.offset == ip ==> !InsnIs(f, d, insn)
  {
    forall insn: Instruction | insn.offset == ip && InsnIs(f, d, insn) ensures exists t :: TableRight(f, d, ip, ops, t) {
      OperandsUnique(f, d, ip, insn.operands, ops);
      assert TableRight(f, d, ip, ops, insn.switchTable.value);
    }
  }

  lemma AddrPresent(d: OpcodeDef)
    requires DefOk(d) && KindOf(d) in {Jump, CondJump}
    ensures FirstAddr(d.roles).Some?
  {
    if d.group == PlainOp {
      var k :| 0 <= k < |d.operands| && IsAddr(d.operands[k]);
      assert d.roles[k] == AddrRole;
    }
  }

  // ----------------------------------------------------------------- whole functions

  ghost predicate Below(insns: seq<Instruction>, ip: nat) {
    forall i :: 0 <= i < |insns| ==> insns[i].offset < ip
  }

  ghost predicate AllRight(f: Source, insns: seq<Instruction>)
    requires TableOk(f.opcodes)
  {
    forall i {:trigger InsnRight(f, insns[i])} :: 0 <= i < |insns| ==> InsnRight(f, insns[i])
  }

  ghost predicate DecodedTo(f: Source, insns: seq<Instruction>, ip: nat, byOffset: map<int, nat>) {
    TableOk(f.opcodes) && Tiles(insns, ip) && Below(insns, ip) && Inverts(insns, byOffset) && AllRight(f, insns)
  }

  /** The decoding loop: the instructions tile the body, and byOffset inverts their offsets. */
  method DecodeBody(f: Source) returns (r: Result<seq<Instruction>>, byOffset: map<int, nat>)
    requires TableOk(f.opcodes)
    ensures r.Ok? ==> Tiles(r.value, f.size) && Inverts(r.value, byOffset) && AllRight(f, r.value)
    ensures r.Fail? ==> forall b {:trigger Tiles(b, f.size)} :: Tiles(b, f.size) ==> !AllRight(f, b)
  {
    var insns: seq<Instruction> := [];
    byOffset := map[];
    var ip := 0;
    while ip < f.size
      invariant 0 <= ip <= f.size && DecodedTo(f, insns, ip, byOffset)
      decreases f.size - ip
    {
      var next := DecodeInsn(f, ip);
      if next.Fail? {
        forall b | Tiles(b, f.size) ensures !AllRight(f, b) { StuckAt(f, insns, ip, b); }
        return Fail(next.why), byOffset;
      }
      ExtendDecoded(f, insns, ip, next.value, byOffset);
      byOffset := byOffset[ip := |insns|];
      insns := insns + [next.value];
      ip := next.value.End();
    }
    r := Ok(insns);
  }

  lemma ExtendDecoded(f: Source, insns: seq<Instruction>, ip: nat, next: Instruction, byOffset: map<int, nat>)
    requires DecodedTo(f, insns, ip, byOffset) && next.offset == ip && next.length > 0 && InsnRight(f, next)
    ensures DecodedTo(f, insns + [next], next.End(), byOffset[ip := |insns|])
  {
    ExtendTiles(insns, ip, next, byOffset);
  }

  lemma ExtendTiles(insns: seq<Instruction>, ip: nat, next: Instruction, byOffset: map<int, nat>)
    requires Tiles(insns, ip) && Below(insns, ip) && Inverts(insns, byOffset) && next.offset == ip && next.length > 0
    ensures Tiles(insns + [next], next.End()) && Below(insns + [next], next.End()) && Inverts(insns + [next], byOffset[ip := |insns|])
  {
    var longer := insns + [next];
    forall i | 0 < i < |longer| ensures Adjacent(longer, i) {
      if i < |insns| { assert Adjacent(insns, i); }
    }
    assert ip !in byOffset;
  }

  method ValidateTargets(insns: seq<Instruction>, size: nat, byOffset: map<int, nat>) returns (why: Option<Failure>)
    ensures why.None? <==> forall i {:trigger insns[i]} :: 0 <= i < |insns| ==> AllTargets(insns[i].targets, size, byOffset, |insns[i].targets|)
    ensures why.Some? ==> why.value in {JumpOutOfRange, JumpMisaligned}
  {
    for i := 0 to |insns|
      invariant forall j {:trigger insns[j]} :: 0 <= j < i ==> AllTargets(insns[j].targets, size, byOffset, |insns[j].targets|)
    {
      var ts := insns[i].targets;
      for k := 0 to |ts|
        invariant AllTargets(ts, size, byOffset, k)
      {
        if ts[k] < 0 || ts[k] >= size { return Some(JumpOutOfRange); }
        if ts[k] !in byOffset { return Some(JumpMisaligned); }
      }
    }
    return None;
  }

  ghost predicate AllTargets(ts: seq<int>, size: nat, byOffset: map<int, nat>, n: nat)
    requires n <= |ts|
  {
    forall k {:trigger ts[k]} :: 0 <= k < n ==> 0 <= ts[k] < size && ts[k] in byOffset
  }

  /** Every target of a right instruction fits its kind. */
  lemma TargetsFit(f: Source, insn: Instruction, size: nat, byOffset: map<int, nat>)
    requires TableOk(f.opcodes) && InsnRight(f, insn) && AllTargets(insn.targets, size, byOffset, |insn.targets|)
    ensures TargetsOk(insn, byOffset)
    ensures insn.IsSaveGenerator() ==> insn.kind == CondJump
    ensures insn.name in {Catch, Ret} ==> insn.operands != []
  {
    var d := DefAt(f, insn.offset).value;
    DefAtOk(f, insn.offset);
    forall t | t in insn.targets ensures t in byOffset {
      var k :| 0 <= k < |insn.targets| && insn.targets[k] == t;
    }
    if insn.IsSaveGenerator() {
      var k :| 0 <= k < |d.roles| && d.roles[k] == AddrRole;
      assert IsAddr(d.operands[k]);
    }
  }

  ghost predicate StartsAt(insns: seq<Instruction>, o: int) {
    exists j :: 0 <= j < |insns| && insns[j].offset == o
  }

  ghost predicate TargetsStart(insns: seq<Instruction>, size: nat) {
    forall i, k {:trigger insns[i].targets[k]} :: 0 <= i < |insns| && 0 <= k < |insns[i].targets| ==>
      0 <= insns[i].targets[k] < size && StartsAt(insns, insns[i].targets[k])
  }

  /** The body decodes to insns: they tile it, each is what the bytes say, and every target is
      the start of one of them. */
  ghost predicate IsDecoding(f: Source, insns: seq<Instruction>)
    requires TableOk(f.opcodes)
  {
    Tiles(insns, f.size) && AllRight(f, insns) && TargetsStart(insns, f.size)
  }

  lemma TargetsStartIff(insns: seq<Instruction>, size: nat, byOffset: map<int, nat>)
    requires Inverts(insns, byOffset)
    ensures TargetsStart(insns, size) <==> forall i {:trigger insns[i]} :: 0 <= i < |insns| ==> AllTargets(insns[i].targets, size, byOffset, |insns[i].targets|)
  {
    forall o ensures StartsAt(insns, o) <==> o in byOffset {
      if o in byOffset { assert insns[byOffset[o]].offset == o; }
    }
  }

  /** decodeFunction returns the decoding of the body, which is what block building asks for,
      and fails exactly when there is none. */
  method DecodeFunction(f: Source) returns (r: Result<seq<Instruction>>, byOffset: map<int, nat>)
    requires TableOk(f.opcodes)
    ensures r.Ok? ==> IsDecoding(f, r.value) && Decoded(r.value, f.size, byOffset)
    ensures r.Fail? ==> forall insns :: !IsDecoding(f, insns)
  {
    r, byOffset := DecodeBody(f);
    if r.Fail? { return; }
    TargetsStartIff(r.value, f.size, byOffset);
    var why := ValidateTargets(r.value, f.size, byOffset);
    if why.Some? {
      forall insns | IsDecoding(f, insns) ensures insns == r.value { DecodingUnique(f, insns, r.value); }
      return Fail(why.value), byOffset;
    }
    forall i | 0 <= i < |r.value|
      ensures TargetsOk(r.value[i], byOffset) && (r.value[i].IsSaveGenerator() ==> r.value[i].kind == CondJump) && (r.value[i].name in {Catch, Ret} ==> r.value[i].operands != [])
    {
      assert InsnRight(f, r.value[i]);
      TargetsFit(f, r.value[i], f.size, byOffset);
    }
  }

  // ------------------------------------------------------------- only one decoding

  lemma UintTableUnique(f: Source, ip: nat, ops: seq<int>, a: SwitchTable, b: SwitchTable)
    requires |ops| >= 5 && UintTableRight(f, ip, ops, a) && UintTableRight(f, ip, ops, b)
    ensures a == b
  {
    forall k | 0 <= k < |a.cases| ensures a.cases[k] == b.cases[k] {
      assert UintCase(f, ip, f.offset + a.tableOffset, ops[3], k, a.cases[k]) && UintCase(f, ip, f.offset + b.tableOffset, ops[3], k, b.cases[k]);
    }
    assert a.cases == b.cases;
  }

  lemma StringTableUnique(f: Source, ip: nat, ops: seq<int>, a: SwitchTable, b: SwitchTable)
    requires |ops| >= 5 && StringTableRight(f, ip, ops, a) && StringTableRight(f, ip, ops, b)
    ensures a == b
  {
    forall k | 0 <= k < |a.cases| ensures a.cases[k] == b.cases[k] {
      assert StringCase(f, ip, f.offset + a.tableOffset, k, a.cases[k]) && StringCase(f, ip, f.offset + b.tableOffset, k, b.cases[k]);
    }
    assert a.cases == b.cases;
  }

  lemma OperandsUnique(f: Source, d: OpcodeDef, ip: nat, a: seq<int>, b: seq<int>)
    requires DefOk(d) && OperandsRight(f, d, ip, a) && OperandsRight(f, d, ip, b)
    ensures a == b
  {
    forall k | 0 <= k < |d.operands| ensures a[k] == b[k] {
      assert OperandRight(f, d, ip, k, a[k]) && OperandRight(f, d, ip, k, b[k]);
    }
  }

  lemma TargetsUnique(f: Source, d: OpcodeDef, a: Instruction, b: Instruction)
    requires DefOk(d) && a.offset == b.offset && a.kind == b.kind && a.operands == b.operands && |a.operands| == |d.operands|
    requires TargetsRight(f, d, a) && TargetsRight(f, d, b)
    ensures a.targets == b.targets && a.switchTable == b.switchTable
  {
    if a.kind == Switch {
      if d.group == UintSwitchOp { UintTableUnique(f, a.offset, a.operands, a.switchTable.value, b.switchTable.value); }
      else { StringTableUnique(f, a.offset, a.operands, a.switchTable.value, b.switchTable.value); }
    }
  }

  /** The bytes leave no choice: two right instructions at one offset are the same. */
  lemma InsnUnique(f: Source, d: OpcodeDef, a: Instruction, b: Instruction)
    requires DefOk(d) && InsnIs(f, d, a) && InsnIs(f, d, b) && a.offset == b.offset
    ensures a == b
  {
    OperandsUnique(f, d, a.offset, a.operands, b.operands);
    TargetsUnique(f, d, a, b);
  }

  lemma RightsAgree(f: Source, a: seq<Instruction>, b: seq<Instruction>, n: nat)
    requires TableOk(f.opcodes) && AllRight(f, a) && AllRight(f, b) && n < |a| && n < |b| && a[n].offset == b[n].offset
    ensures a[n] == b[n]
  {
    assert InsnRight(f, a[n]) && InsnRight(f, b[n]);
    DefAtOk(f, a[n].offset);
    InsnUnique(f, DefAt(f, a[n].offset).value, a[n], b[n]);
  }

  /** Two tilings by right instructions agree as far as both go. */
  lemma {:induction false} SameAt(f: Source, a: seq<Instruction>, m: nat, b: seq<Instruction>, size: nat, n: nat)
    requires TableOk(f.opcodes) && Tiles(a, m) && Tiles(b, size) && AllRight(f, a) && AllRight(f, b) && n < |a| && n < |b|
    ensures a[n] == b[n]
    decreases n
  {
    if n > 0 {
      SameAt(f, a, m, b, size, n - 1);
      assert Adjacent(a, n) && Adjacent(b, n);
    }
    RightsAgree(f, a, b, n);
  }

  /** Where no right instruction starts, no decoding gets past. */
  lemma StuckAt(f: Source, a: seq<Instruction>, ip: nat, b: seq<Instruction>)
    requires TableOk(f.opcodes) && Tiles(a, ip) && AllRight(f, a) && ip < f.size && Tiles(b, f.size)
    requires forall insn: Instruction {:trigger InsnRight(f, insn)} :: insn.offset == ip ==> !InsnRight(f, insn)
    ensures !AllRight(f, b)
  {
    if AllRight(f, b) { GoesOn(f, a, ip, b); }
  }

  /** A decoding continues, with a right instruction, wherever another one stands. */
  lemma GoesOn(f: Source, a: seq<Instruction>, ip: nat, b: seq<Instruction>)
    requires TableOk(f.opcodes) && Tiles(a, ip) && AllRight(f, a) && ip < f.size && Tiles(b, f.size) && AllRight(f, b)
    ensures |a| < |b| && b[|a|].offset == ip && InsnRight(f, b[|a|])
  {
    forall n: nat | n < |a| && n < |b| ensures a[n] == b[n] { SameAt(f, a, ip, b, f.size, n); }
    NotShorter(a, ip, b, f.size);
  }

  lemma NotShorter(a: seq<Instruction>, ip: nat, b: seq<Instruction>, size: nat)
    requires Tiles(a, ip) && Tiles(b, size) && ip < size && forall n: nat :: n < |a| && n < |b| ==> a[n] == b[n]
    ensures |a| < |b| && b[|a|].offset == ip
  {
    if |b| <= |a| { EndsInside(a, ip, |b| - 1); }
    if |a| > 0 { assert |a| < |b| ==> Adjacent(b, |a|); }
  }

  /** ... and so are two decodings of one body. */
  lemma DecodingUnique(f: Source, a: seq<Instruction>, b: seq<Instruction>)
    requires TableOk(f.opcodes) && Tiles(a, f.size) && Tiles(b, f.size) && AllRight(f, a) && AllRight(f, b)
    ensures a == b
  {
    forall i: nat | i < |a| && i < |b| ensures a[i] == b[i] { SameAt(f, a, f.size, b, f.size, i); }
    NoLonger(a, b, f.size);
    NoLonger(b, a, f.size);
  }

  lemma NoLonger(a: seq<Instruction>, b: seq<Instruction>, size: nat)
    requires Tiles(a, size) && Tiles(b, size) && forall i: nat :: i < |a| && i < |b| ==> a[i] == b[i]
    ensures |b| <= |a|
  {
    if |a| < |b| && |a| > 0 {
      OffsetsIncrease(b, size, |a| - 1, |b| - 1);
    }
  }
}
