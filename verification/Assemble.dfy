// The byte form of an instruction list without jump tables (the layout src/disasm/decode.ts
// reads): a body decodes to such a list if and only if it holds its bytes.
module Assemble {
  import opened CfgTypes
  import opened Blocks
  import opened Decode

  // ------------------------------------------------------------------ one number

  function Limit(n: nat): (r: nat)
    ensures r > 0
  {
    if n == 0 then 1 else 256 * Limit(n - 1)
  }

  lemma Limits()
    ensures Limit(1) == 0x100 && Limit(2) == 0x1_0000 && Limit(4) == 0x1_0000_0000
  {
    assert Limit(3) == 0x100_0000;
  }

  /** v in n bytes, the low one first. */
  function BytesOf(v: nat, n: nat): (r: seq<Byte>)
    ensures |r| == n
    decreases n
  {
    if n == 0 then [] else [v % 256] + BytesOf(v / 256, n - 1)
  }

  /** bytes holds piece at `at`. */
  predicate Stands(bytes: seq<Byte>, at: nat, piece: seq<Byte>) {
    at + |piece| <= |bytes| && bytes[at..at + |piece|] == piece
  }

  lemma {:induction false} ReadsBack(bytes: seq<Byte>, at: nat, v: nat, n: nat)
    requires v < Limit(n) && Stands(bytes, at, BytesOf(v, n))
    ensures LittleEndian(bytes, at, n) == v
    decreases n
  {
    if n > 0 {
      var piece := BytesOf(v, n);
      assert bytes[at] == bytes[at..at + n][0] == piece[0];
      assert bytes[at + 1..at + n] == bytes[at..at + n][1..] == piece[1..] == BytesOf(v / 256, n - 1);
      ReadsBack(bytes, at + 1, v / 256, n - 1);
    }
  }

  lemma Carries(low: Byte, rest: nat, limit: nat)
    requires rest < limit
    ensures low + 256 * rest < 256 * limit && (low + 256 * rest) % 256 == low && (low + 256 * rest) / 256 == rest
  {
  }

  lemma {:induction false} WritesBack(bytes: seq<Byte>, at: nat, n: nat)
    requires at + n <= |bytes|
    ensures LittleEndian(bytes, at, n) < Limit(n) && Stands(bytes, at, BytesOf(LittleEndian(bytes, at, n), n))
    decreases n
  {
    if n > 0 {
      WritesBack(bytes, at + 1, n - 1);
      var rest := LittleEndian(bytes, at + 1, n - 1);
      Carries(bytes[at], rest, Limit(n - 1));
      assert BytesOf(LittleEndian(bytes, at, n), n) == [bytes[at]] + BytesOf(rest, n - 1);
      assert bytes[at..at + n] == [bytes[at]] + bytes[at + 1..at + n];
    }
  }

  // ----------------------------------------------------------------- one operand

  predicate Fits(t: OperandType, v: int) {
    match t
    case Addr8 => -0x80 <= v < 0x80
    case Addr32 => -0x8000_0000 <= v < 0x8000_0000
    case Imm32 => -0x8000_0000 <= v < 0x8000_0000
    case _ => 0 <= v < Limit(Width(t))
  }

  /** The unsigned number that stands for v. */
  function Raw(t: OperandType, v: int): (r: nat)
    requires Fits(t, v)
  {
    if v >= 0 then v else if t == Addr8 then v + 0x100 else v + 0x1_0000_0000
  }

  lemma ReadIsWritten(bytes: seq<Byte>, at: nat, t: OperandType, v: int)
    ensures ReadAt(bytes, at, t) == Some(v) <==> Fits(t, v) && Stands(bytes, at, BytesOf(Raw(t, v), Width(t)))
  {
    Limits();
    if Fits(t, v) && Stands(bytes, at, BytesOf(Raw(t, v), Width(t))) { ReadsBack(bytes, at, Raw(t, v), Width(t)); }
    if ReadAt(bytes, at, t) == Some(v) { WritesBack(bytes, at, Width(t)); }
  }

  // ------------------------------------------------------------- one instruction

  lemma {:induction false} StartShifts(ts: seq<OperandType>, ip: nat, k: nat)
    requires k <= |ts|
    ensures OperandStart(ts, ip, k) == ip + OperandStart(ts, 0, k)
    decreases k
  {
    if k > 0 { StartShifts(ts, ip, k - 1); }
  }

  lemma {:induction false} StartsGrow(ts: seq<OperandType>, ip: nat, j: nat, k: nat)
    requires j <= k <= |ts|
    ensures OperandStart(ts, ip, j) <= OperandStart(ts, ip, k)
    decreases k
  {
    if j < k { StartsGrow(ts, ip, j, k - 1); }
  }

  ghost predicate AllFit(ts: seq<OperandType>, ops: seq<int>) {
    |ts| == |ops| && forall k {:trigger ops[k]} :: 0 <= k < |ts| ==> Fits(ts[k], ops[k])
  }

  ghost function OperandBytes(ts: seq<OperandType>, ops: seq<int>, k: nat): (r: seq<Byte>)
    requires AllFit(ts, ops) && k <= |ts|
    ensures |r| == OperandStart(ts, 0, k) - 1
    decreases k
  {
    if k == 0 then [] else OperandBytes(ts, ops, k - 1) + BytesOf(Raw(ts[k - 1], ops[k - 1]), Width(ts[k - 1]))
  }

  /** The opcode and the operands. */
  ghost function InsnBytes(code: Byte, ts: seq<OperandType>, ops: seq<int>): (r: seq<Byte>)
    requires AllFit(ts, ops)
    ensures |r| == OperandStart(ts, 0, |ts|)
  {
    [code] + OperandBytes(ts, ops, |ts|)
  }

  /** Operand k stands in its place, after an opcode at `at` - 1. */
  ghost predicate OperandStands(bytes: seq<Byte>, at: nat, ts: seq<OperandType>, ops: seq<int>, k: nat)
    requires AllFit(ts, ops) && k < |ts|
  {
    Stands(bytes, at + OperandStart(ts, 0, k) - 1, BytesOf(Raw(ts[k], ops[k]), Width(ts[k])))
  }

  /** The first k operands all do. */
  ghost predicate EachStands(bytes: seq<Byte>, at: nat, ts: seq<OperandType>, ops: seq<int>, k: nat)
    requires AllFit(ts, ops) && k <= |ts|
  {
    forall j: nat {:trigger OperandStands(bytes, at, ts, ops, j)} :: j < k ==> OperandStands(bytes, at, ts, ops, j)
  }

  ghost predicate OperandsStandTo(bytes: seq<Byte>, at: nat, ts: seq<OperandType>, ops: seq<int>, k: nat)
    requires AllFit(ts, ops) && k <= |ts|
  {
    Stands(bytes, at, OperandBytes(ts, ops, k)) <==> EachStands(bytes, at, ts, ops, k)
  }

  lemma EachStandsNext(bytes: seq<Byte>, at: nat, ts: seq<OperandType>, ops: seq<int>, k: nat)
    requires AllFit(ts, ops) && k < |ts|
    ensures EachStands(bytes, at, ts, ops, k + 1) <==> EachStands(bytes, at, ts, ops, k) && OperandStands(bytes, at, ts, ops, k)
  {
  }

  lemma OperandBytesNext(bytes: seq<Byte>, at: nat, ts: seq<OperandType>, ops: seq<int>, k: nat)
    requires AllFit(ts, ops) && k < |ts|
    ensures Stands(bytes, at, OperandBytes(ts, ops, k + 1)) <==> Stands(bytes, at, OperandBytes(ts, ops, k)) && OperandStands(bytes, at, ts, ops, k)
  {
    StandsBoth(bytes, at, OperandBytes(ts, ops, k), BytesOf(Raw(ts[k], ops[k]), Width(ts[k])));
  }

  lemma NextOperandStands(bytes: seq<Byte>, at: nat, ts: seq<OperandType>, ops: seq<int>, k: nat)
    requires AllFit(ts, ops) && k < |ts| && OperandsStandTo(bytes, at, ts, ops, k)
    ensures OperandsStandTo(bytes, at, ts, ops, k + 1)
  {
    EachStandsNext(bytes, at, ts, ops, k);
    OperandBytesNext(bytes, at, ts, ops, k);
  }

  lemma OperandsStand(bytes: seq<Byte>, at: nat, ts: seq<OperandType>, ops: seq<int>)
    requires AllFit(ts, ops) && at <= |bytes|
    ensures Stands(bytes, at, OperandBytes(ts, ops, |ts|)) <==> EachStands(bytes, at, ts, ops, |ts|)
  {
    assert bytes[at..at] == [];
    for k := 0 to |ts|
      invariant OperandsStandTo(bytes, at, ts, ops, k)
    {
      NextOperandStands(bytes, at, ts, ops, k);
    }
  }

  lemma StandsBoth(bytes: seq<Byte>, at: nat, a: seq<Byte>, b: seq<Byte>)
    ensures Stands(bytes, at, a + b) <==> Stands(bytes, at, a) && Stands(bytes, at + |a|, b)
  {
    if at + |a + b| <= |bytes| {
      assert bytes[at..at + |a + b|] == bytes[at..at + |a|] + bytes[at + |a|..at + |a| + |b|];
      assert (a + b)[..|a|] == a && (a + b)[|a|..] == b;
      assert bytes[at..at + |a + b|][..|a|] == bytes[at..at + |a|];
      assert bytes[at..at + |a + b|][|a|..] == bytes[at + |a|..at + |a| + |b|];
    }
  }

  /** insn is an instruction with this opcode; its bytes are not looked at. */
  ghost predicate IsInsn(f: Source, code: Byte, insn: Instruction)
    requires TableOk(f.opcodes)
  {
    code in f.opcodes && !f.opcodes[code].unverified && InsnOf(f, f.opcodes[code], insn)
  }

  ghost predicate InsnOf(f: Source, d: OpcodeDef, insn: Instruction) {
    && DefOk(d) && insn.kind != Switch && insn.kind == KindOf(d) && insn.name == d.name && AllFit(d.operands, insn.operands)
    && IdsOk(f, d, insn.operands) && insn.length == OperandStart(d.operands, 0, |d.operands|) && TargetsRight(f, d, insn)
  }

  ghost function BytesIn(f: Source, code: Byte, insn: Instruction): (r: seq<Byte>)
    requires TableOk(f.opcodes) && IsInsn(f, code, insn)
    ensures |r| == insn.length
  {
    InsnBytes(code, f.opcodes[code].operands, insn.operands)
  }

  /** v is operand k, and its bytes stand in their place. */
  ghost predicate OperandIn(f: Source, d: OpcodeDef, ip: nat, k: nat, v: int)
    requires k < |d.operands| == |d.roles|
  {
    && IdInRange(f, d.roles[k], v) && Fits(d.operands[k], v)
    && Stands(f.bytes, f.offset + ip + OperandStart(d.operands, 0, k), BytesOf(Raw(d.operands[k], v), Width(d.operands[k])))
  }

  /** The value read is the one written. */
  lemma OperandIsRead(f: Source, d: OpcodeDef, ip: nat, k: nat, v: int)
    requires DefOk(d) && k < |d.operands| && ip + OperandStart(d.operands, 0, |d.operands|) <= f.size
    ensures OperandRight(f, d, ip, k, v) <==> OperandIn(f, d, ip, k, v)
  {
    StartShifts(d.operands, ip, k);
    StartShifts(d.operands, ip, k + 1);
    StartsGrow(d.operands, 0, k + 1, |d.operands|);
    ReadIsWritten(f.bytes, f.offset + ip + OperandStart(d.operands, 0, k), d.operands[k], v);
  }

  ghost predicate OperandsIn(f: Source, d: OpcodeDef, ip: nat, ops: seq<int>)
    requires DefOk(d) && |ops| == |d.operands|
  {
    forall k {:trigger ops[k]} :: 0 <= k < |ops| ==> OperandIn(f, d, ip, k, ops[k])
  }

  lemma OperandsAreRead(f: Source, d: OpcodeDef, ip: nat, ops: seq<int>)
    requires DefOk(d) && |ops| == |d.operands| && ip + OperandStart(d.operands, 0, |d.operands|) <= f.size
    ensures OperandsRight(f, d, ip, ops) <==> OperandsIn(f, d, ip, ops)
  {
    forall k | 0 <= k < |ops| ensures OperandRight(f, d, ip, k, ops[k]) <==> OperandIn(f, d, ip, k, ops[k]) { OperandIsRead(f, d, ip, k, ops[k]); }
  }

  ghost predicate IdsOk(f: Source, d: OpcodeDef, ops: seq<int>)
    requires DefOk(d) && |ops| == |d.operands|
  {
    forall k {:trigger ops[k]} :: 0 <= k < |ops| ==> IdInRange(f, d.roles[k], ops[k])
  }

  lemma OperandIsPlaced(f: Source, d: OpcodeDef, ip: nat, ops: seq<int>, k: nat)
    requires DefOk(d) && |ops| == |d.operands| && AllFit(d.operands, ops) && k < |ops|
    ensures OperandIn(f, d, ip, k, ops[k]) <==> IdInRange(f, d.roles[k], ops[k]) && OperandStands(f.bytes, f.offset + ip + 1, d.operands, ops, k)
  {
  }

  lemma InGivesIds(f: Source, d: OpcodeDef, ip: nat, ops: seq<int>)
    requires DefOk(d) && |ops| == |d.operands| && OperandsIn(f, d, ip, ops)
    ensures IdsOk(f, d, ops)
  {
    forall k | 0 <= k < |ops| ensures IdInRange(f, d.roles[k], ops[k]) { assert OperandIn(f, d, ip, k, ops[k]); }
  }

  lemma InGivesFit(f: Source, d: OpcodeDef, ip: nat, ops: seq<int>)
    requires DefOk(d) && |ops| == |d.operands| && OperandsIn(f, d, ip, ops)
    ensures AllFit(d.operands, ops)
  {
    forall k | 0 <= k < |ops| ensures Fits(d.operands[k], ops[k]) { assert OperandIn(f, d, ip, k, ops[k]); }
  }

  lemma InGivesPlaces(f: Source, d: OpcodeDef, ip: nat, ops: seq<int>, at: nat)
    requires DefOk(d) && AllFit(d.operands, ops) && OperandsIn(f, d, ip, ops) && at == f.offset + ip + 1
    ensures EachStands(f.bytes, at, d.operands, ops, |ops|)
  {
    forall k: nat | k < |ops| ensures OperandStands(f.bytes, at, d.operands, ops, k) { OperandIsPlaced(f, d, ip, ops, k); }
  }

  lemma PlacesGiveIn(f: Source, d: OpcodeDef, ip: nat, ops: seq<int>)
    requires DefOk(d) && AllFit(d.operands, ops) && IdsOk(f, d, ops) && EachStands(f.bytes, f.offset + ip + 1, d.operands, ops, |ops|)
    ensures OperandsIn(f, d, ip, ops)
  {
    forall k | 0 <= k < |ops| ensures OperandIn(f, d, ip, k, ops[k]) { OperandIsPlaced(f, d, ip, ops, k); }
  }

  ghost predicate OperandsStandAt(f: Source, d: OpcodeDef, ip: nat, ops: seq<int>) {
    |ops| == |d.operands| && AllFit(d.operands, ops) && Stands(f.bytes, f.offset + ip + 1, OperandBytes(d.operands, ops, |ops|))
  }

  lemma InGivesStand(f: Source, d: OpcodeDef, ip: nat, ops: seq<int>)
    requires DefOk(d) && |ops| == |d.operands| && f.offset + ip + 1 <= |f.bytes| && OperandsIn(f, d, ip, ops)
    ensures OperandsStandAt(f, d, ip, ops)
  {
    InGivesFit(f, d, ip, ops);
    InGivesPlaces(f, d, ip, ops, f.offset + ip + 1);
    OperandsStand(f.bytes, f.offset + ip + 1, d.operands, ops);
  }

  lemma StandGivesIn(f: Source, d: OpcodeDef, ip: nat, ops: seq<int>)
    requires DefOk(d) && |ops| == |d.operands| && f.offset + ip + 1 <= |f.bytes| && IdsOk(f, d, ops) && OperandsStandAt(f, d, ip, ops)
    ensures OperandsIn(f, d, ip, ops)
  {
    OperandsStand(f.bytes, f.offset + ip + 1, d.operands, ops);
    PlacesGiveIn(f, d, ip, ops);
  }

  lemma OperandsIffWritten(f: Source, d: OpcodeDef, ip: nat, ops: seq<int>)
    requires DefOk(d) && |ops| == |d.operands|
    requires ip + OperandStart(d.operands, 0, |d.operands|) <= f.size && f.offset + f.size <= |f.bytes|
    ensures OperandsRight(f, d, ip, ops) <==> IdsOk(f, d, ops) && OperandsStandAt(f, d, ip, ops)
  {
    OperandsAreRead(f, d, ip, ops);
    StartsGrow(d.operands, 0, 0, |d.operands|);
    if OperandsIn(f, d, ip, ops) {
      InGivesIds(f, d, ip, ops);
      InGivesStand(f, d, ip, ops);
    }
    if IdsOk(f, d, ops) && OperandsStandAt(f, d, ip, ops) { StandGivesIn(f, d, ip, ops); }
  }

  lemma OpcodeIsRead(f: Source, ip: nat, code: Byte)
    requires f.offset + ip < |f.bytes|
    ensures ReadAt(f.bytes, f.offset + ip, UInt8) == Some(code) <==> f.bytes[f.offset + ip] == code
  {
    assert LittleEndian(f.bytes, f.offset + ip, 1) == f.bytes[f.offset + ip];
  }

  /** Everything but the operands is as the definition asks. */
  ghost predicate Shaped(f: Source, d: OpcodeDef, insn: Instruction)
    requires DefOk(d)
  {
    && |insn.operands| == |d.operands| && insn.length == OperandStart(d.operands, 0, |d.operands|)
    && insn.name == d.name && insn.kind == KindOf(d) && TargetsRight(f, d, insn)
  }

  lemma IsIffShaped(f: Source, d: OpcodeDef, insn: Instruction)
    requires DefOk(d)
    ensures InsnIs(f, d, insn) <==> Shaped(f, d, insn) && OperandsRight(f, d, insn.offset, insn.operands)
  {
    StartShifts(d.operands, insn.offset, |d.operands|);
  }

  lemma OfIffShaped(f: Source, d: OpcodeDef, insn: Instruction)
    requires DefOk(d) && insn.kind != Switch
    ensures InsnOf(f, d, insn) <==> Shaped(f, d, insn) && AllFit(d.operands, insn.operands) && IdsOk(f, d, insn.operands)
  {
  }

  /** What a definition makes of the bytes after the opcode. */
  lemma IsIffWritten(f: Source, d: OpcodeDef, insn: Instruction)
    requires DefOk(d) && insn.kind != Switch && insn.End() <= f.size && f.offset + f.size <= |f.bytes|
    ensures InsnIs(f, d, insn) <==> InsnOf(f, d, insn) && OperandsStandAt(f, d, insn.offset, insn.operands)
  {
    IsIffShaped(f, d, insn);
    OfIffShaped(f, d, insn);
    if Shaped(f, d, insn) { OperandsIffWritten(f, d, insn.offset, insn.operands); }
  }

  lemma CodeFirst(bytes: seq<Byte>, at: nat, code: Byte, rest: seq<Byte>)
    requires at < |bytes|
    ensures Stands(bytes, at, [code] + rest) <==> (bytes[at] == code && Stands(bytes, at + 1, rest))
  {
    StandsBoth(bytes, at, [code], rest);
    assert bytes[at..at + 1] == [bytes[at]];
  }

  /** An instruction is what the bytes at its offset say if and only if they are its bytes. */
  lemma RightIffWritten(f: Source, code: Byte, insn: Instruction)
    requires TableOk(f.opcodes) && insn.kind != Switch && insn.length > 0 && insn.End() <= f.size && f.offset + f.size <= |f.bytes|
    ensures (InsnRight(f, insn) && f.bytes[f.offset + insn.offset] == code) <==>
              (IsInsn(f, code, insn) && Stands(f.bytes, f.offset + insn.offset, BytesIn(f, code, insn)))
  {
    OpcodeIsRead(f, insn.offset, code);
    if code in f.opcodes && !f.opcodes[code].unverified {
      var d := f.opcodes[code];
      IsIffWritten(f, d, insn);
      if InsnOf(f, d, insn) { CodeFirst(f.bytes, f.offset + insn.offset, code, OperandBytes(d.operands, insn.operands, |d.operands|)); }
    }
  }

  // -------------------------------------------------------------------- one body

  ghost predicate AllInsns(f: Source, codes: seq<Byte>, insns: seq<Instruction>)
    requires TableOk(f.opcodes)
  {
    |codes| == |insns| && forall i {:trigger IsInsn(f, codes[i], insns[i])} :: 0 <= i < |insns| ==> IsInsn(f, codes[i], insns[i])
  }

  /** The bytes of the first n instructions. */
  ghost function BodyBytes(f: Source, codes: seq<Byte>, insns: seq<Instruction>, n: nat): (r: seq<Byte>)
    requires TableOk(f.opcodes) && AllInsns(f, codes, insns) && Tiles(insns, f.size) && n <= |insns|
    ensures |r| == if n == 0 then 0 else insns[n - 1].End()
    decreases n
  {
    if n == 0 then [] else
      assert n > 1 ==> Adjacent(insns, n - 1);
      BodyBytes(f, codes, insns, n - 1) + BytesIn(f, codes[n - 1], insns[n - 1])
  }

  ghost predicate InsnStands(f: Source, codes: seq<Byte>, insns: seq<Instruction>, i: nat)
    requires TableOk(f.opcodes) && AllInsns(f, codes, insns) && i < |insns|
  {
    assert IsInsn(f, codes[i], insns[i]);
    Stands(f.bytes, f.offset + insns[i].offset, BytesIn(f, codes[i], insns[i]))
  }

  ghost predicate FirstStand(f: Source, codes: seq<Byte>, insns: seq<Instruction>, n: nat)
    requires TableOk(f.opcodes) && AllInsns(f, codes, insns) && n <= |insns|
  {
    forall i: nat {:trigger InsnStands(f, codes, insns, i)} :: i < n ==> InsnStands(f, codes, insns, i)
  }

  lemma FirstStandNext(f: Source, codes: seq<Byte>, insns: seq<Instruction>, n: nat)
    requires TableOk(f.opcodes) && AllInsns(f, codes, insns) && n < |insns|
    ensures FirstStand(f, codes, insns, n + 1) <==> FirstStand(f, codes, insns, n) && InsnStands(f, codes, insns, n)
  {
  }

  ghost predicate StandsSoFar(f: Source, codes: seq<Byte>, insns: seq<Instruction>, n: nat)
    requires TableOk(f.opcodes) && AllInsns(f, codes, insns) && Tiles(insns, f.size) && n <= |insns|
  {
    Stands(f.bytes, f.offset, BodyBytes(f, codes, insns, n)) <==> FirstStand(f, codes, insns, n)
  }

  lemma NothingStands(f: Source, codes: seq<Byte>, insns: seq<Instruction>)
    requires TableOk(f.opcodes) && AllInsns(f, codes, insns) && Tiles(insns, f.size) && f.offset + f.size <= |f.bytes|
    ensures StandsSoFar(f, codes, insns, 0)
  {
    assert f.bytes[f.offset..f.offset] == [];
  }

  lemma NextStands(f: Source, codes: seq<Byte>, insns: seq<Instruction>, n: nat)
    requires TableOk(f.opcodes) && AllInsns(f, codes, insns) && Tiles(insns, f.size) && n < |insns| && StandsSoFar(f, codes, insns, n)
    ensures StandsSoFar(f, codes, insns, n + 1)
  {
    FirstStandNext(f, codes, insns, n);
    BodyExtends(f, codes, insns, n);
  }

  lemma BodyStands(f: Source, codes: seq<Byte>, insns: seq<Instruction>, n: nat)
    requires TableOk(f.opcodes) && AllInsns(f, codes, insns) && Tiles(insns, f.size) && n <= |insns| && f.offset + f.size <= |f.bytes|
    ensures Stands(f.bytes, f.offset, BodyBytes(f, codes, insns, n)) <==> FirstStand(f, codes, insns, n)
  {
    NothingStands(f, codes, insns);
    for i := 0 to n
      invariant StandsSoFar(f, codes, insns, i)
    {
      NextStands(f, codes, insns, i);
    }
  }

  lemma BodyExtends(f: Source, codes: seq<Byte>, insns: seq<Instruction>, n: nat)
    requires TableOk(f.opcodes) && AllInsns(f, codes, insns) && Tiles(insns, f.size) && n < |insns|
    ensures Stands(f.bytes, f.offset, BodyBytes(f, codes, insns, n + 1)) <==>
              (Stands(f.bytes, f.offset, BodyBytes(f, codes, insns, n)) && InsnStands(f, codes, insns, n))
  {
    assert n > 0 ==> Adjacent(insns, n);
    assert IsInsn(f, codes[n], insns[n]);
    StandsBoth(f.bytes, f.offset, BodyBytes(f, codes, insns, n), BytesIn(f, codes[n], insns[n]));
  }

  /** The function's bytes are those of insns, written with these opcodes. */
  ghost predicate Written(f: Source, codes: seq<Byte>, insns: seq<Instruction>)
    requires TableOk(f.opcodes) && Tiles(insns, f.size)
  {
    AllInsns(f, codes, insns) && Stands(f.bytes, f.offset, BodyBytes(f, codes, insns, |insns|))
  }

  /** The opcodes the bytes select. */
  ghost function CodesAt(f: Source, insns: seq<Instruction>, n: nat): (r: seq<Byte>)
    requires n <= |insns| && forall i :: 0 <= i < |insns| ==> f.offset + insns[i].offset < |f.bytes|
    ensures |r| == n && forall i :: 0 <= i < n ==> r[i] == f.bytes[f.offset + insns[i].offset]
  {
    if n == 0 then [] else CodesAt(f, insns, n - 1) + [f.bytes[f.offset + insns[n - 1].offset]]
  }

  /** A list of instructions without jump tables that tiles the body is its decoding if and only
      if the body holds its bytes. */
  lemma DecodesIffWritten(f: Source, insns: seq<Instruction>)
    requires TableOk(f.opcodes) && Tiles(insns, f.size) && f.offset + f.size <= |f.bytes|
    requires forall i :: 0 <= i < |insns| ==> insns[i].kind != Switch
    ensures AllRight(f, insns) <==> exists codes: seq<Byte> :: Written(f, codes, insns)
  {
    if AllRight(f, insns) {
      forall i: nat | i < |insns| ensures insns[i].End() <= f.size { EndsInside(insns, f.size, i); }
      RightIsWritten(f, CodesAt(f, insns, |insns|), insns);
    }
    if codes: seq<Byte> :| Written(f, codes, insns) { WrittenIsRight(f, codes, insns); }
  }

  lemma RightInsnIsWritten(f: Source, codes: seq<Byte>, insns: seq<Instruction>, i: nat)
    requires TableOk(f.opcodes) && Tiles(insns, f.size) && f.offset + f.size <= |f.bytes| && |codes| == |insns|
    requires i < |insns| && insns[i].kind != Switch && InsnRight(f, insns[i])
    requires f.offset + insns[i].offset < |f.bytes| && codes[i] == f.bytes[f.offset + insns[i].offset]
    ensures IsInsn(f, codes[i], insns[i]) && Stands(f.bytes, f.offset + insns[i].offset, BytesIn(f, codes[i], insns[i]))
  {
    EndsInside(insns, f.size, i);
    RightIffWritten(f, codes[i], insns[i]);
  }

  lemma RightIsWritten(f: Source, codes: seq<Byte>, insns: seq<Instruction>)
    requires TableOk(f.opcodes) && Tiles(insns, f.size) && f.offset + f.size <= |f.bytes| && |codes| == |insns|
    requires AllRight(f, insns) && forall i :: 0 <= i < |insns| ==> insns[i].kind != Switch
    requires forall i :: 0 <= i < |insns| ==> f.offset + insns[i].offset < |f.bytes| && codes[i] == f.bytes[f.offset + insns[i].offset]
    ensures Written(f, codes, insns)
  {
    forall i: nat | i < |insns| ensures IsInsn(f, codes[i], insns[i]) { RightInsnIsWritten(f, codes, insns, i); }
    assert AllInsns(f, codes, insns);
    forall i: nat | i < |insns| ensures InsnStands(f, codes, insns, i) { RightInsnIsWritten(f, codes, insns, i); }
    BodyStands(f, codes, insns, |insns|);
  }

  lemma WrittenIsRight(f: Source, codes: seq<Byte>, insns: seq<Instruction>)
    requires TableOk(f.opcodes) && Tiles(insns, f.size) && f.offset + f.size <= |f.bytes|
    requires (forall i :: 0 <= i < |insns| ==> insns[i].kind != Switch) && Written(f, codes, insns)
    ensures AllRight(f, insns)
  {
    BodyStands(f, codes, insns, |insns|);
    forall i | 0 <= i < |insns| ensures InsnRight(f, insns[i]) {
      assert InsnStands(f, codes, insns, i);
      WrittenInsnIsRight(f, codes, insns, i);
    }
  }

  lemma WrittenInsnIsRight(f: Source, codes: seq<Byte>, insns: seq<Instruction>, i: nat)
    requires TableOk(f.opcodes) && Tiles(insns, f.size) && f.offset + f.size <= |f.bytes|
    requires AllInsns(f, codes, insns) && i < |insns| && insns[i].kind != Switch && InsnStands(f, codes, insns, i)
    ensures InsnRight(f, insns[i])
  {
    EndsInside(insns, f.size, i);
    RightIffWritten(f, codes[i], insns[i]);
  }

  // ------------------------------------------------------- a file for a body

  lemma InsnsOnly(f: Source, g: Source, codes: seq<Byte>, insns: seq<Instruction>)
    requires TableOk(f.opcodes) && g == f.(bytes := g.bytes) && AllInsns(f, codes, insns)
    ensures AllInsns(g, codes, insns)
  {
    forall i | 0 <= i < |insns| ensures IsInsn(g, codes[i], insns[i]) { assert IsInsn(f, codes[i], insns[i]); }
  }

  lemma {:induction false} BytesOnly(f: Source, g: Source, codes: seq<Byte>, insns: seq<Instruction>, n: nat)
    requires TableOk(f.opcodes) && g == f.(bytes := g.bytes) && AllInsns(f, codes, insns) && Tiles(insns, f.size) && n <= |insns|
    ensures AllInsns(g, codes, insns) && BodyBytes(g, codes, insns, n) == BodyBytes(f, codes, insns, n)
    decreases n
  {
    InsnsOnly(f, g, codes, insns);
    if n > 0 { BytesOnly(f, g, codes, insns, n - 1); }
  }

  /** Instructions whose operands fit are the decoding of a file that holds their bytes. */
  lemma FileFor(f: Source, codes: seq<Byte>, insns: seq<Instruction>) returns (g: Source)
    requires TableOk(f.opcodes) && f.offset == 0 && AllInsns(f, codes, insns) && Tiles(insns, f.size) && TargetsStart(insns, f.size)
    ensures g == f.(bytes := g.bytes) && |g.bytes| == g.size && IsDecoding(g, insns)
  {
    var bytes := BodyBytes(f, codes, insns, |insns|);
    g := f.(bytes := bytes);
    BytesOnly(f, g, codes, insns, |insns|);
    assert g.bytes[0..|bytes|] == bytes;
    forall i | 0 <= i < |insns| ensures insns[i].kind != Switch { assert IsInsn(f, codes[i], insns[i]); }
    WrittenIsRight(g, codes, insns);
  }
}
