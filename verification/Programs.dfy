// Concrete function bodies: which are decodings of bytes, and what is known of the layout that
// block building makes of one. The opcodes are those of two of the generated tables,
// src/tables/generated/opcodes-hbc96.ts and opcodes-hbc98-late.ts.
module Programs {
  import opened CfgTypes
  import opened SetOrder
  import opened Blocks
  import opened BlockFlow
  import opened Regions
  import opened Exceptions
  import opened CheckedCfg
  import opened EnvOps
  import opened Decode
  import opened Assemble

  function Insn(offset: nat, length: nat, name: OpName, operands: seq<int>): Instruction {
    Instruction(offset, length, name, operands, Normal, [], None)
  }

  // ------------------------------------------------------------------ the opcodes

  function Plain(name: OpName, operands: seq<OperandType>, roles: seq<Role>): OpcodeDef {
    OpcodeDef(name, PlainOp, operands, roles, false)
  }

  const RET := OpcodeDef(OpName.Ret, ReturnOp, [Reg8], [PlainRole], false)

  /** Generators in bytecode, before version 97. */
  const HBC96: map<int, OpcodeDef> := map[
    92 := RET,
    134 := Plain(StartGenerator, [], []),
    150 := Plain(SaveGenerator, [Addr8], [AddrRole])
  ]

  const HBC98: map<int, OpcodeDef> := map[
    16 := Plain(MOV, [Reg8, Reg8], [PlainRole, PlainRole]),
    53 := Plain(GET_ENVIRONMENT, [Reg8, Reg8, UInt8], [PlainRole, PlainRole, PlainRole]),
    59 := Plain(LOAD_FROM_ENVIRONMENT, [Reg8, Reg8, UInt8], [PlainRole, PlainRole, PlainRole]),
    65 := Plain(CREATE_TOP_LEVEL_ENVIRONMENT, [Reg8, UInt32], [PlainRole, PlainRole]),
    66 := Plain(CREATE_ENVIRONMENT, [Reg8, Reg8, UInt32], [PlainRole, PlainRole, PlainRole]),
    75 := Plain(PUT_BY_ID, [Reg8, Reg8, UInt8, UInt16], [PlainRole, PlainRole, PlainRole, StringRole]),
    118 := RET,
    119 := OpcodeDef(OpName.Catch, CatchOp, [Reg8], [PlainRole], false),
    147 := Plain(LOAD_CONST_UNDEFINED, [Reg8], [PlainRole]),
    174 := OpcodeDef(JMP, JumpOp, [Addr8], [AddrRole], false)
  ]

  lemma FirstTableOk()
    ensures TableOk(HBC96)
  {
    forall n | n in HBC96 ensures DefOk(HBC96[n]) {}
  }

  /** An opcode without addresses, of a name and group with no rule of its own. */
  lemma PlainOk(name: OpName, operands: seq<OperandType>, roles: seq<Role>)
    requires |operands| == |roles| && forall k :: 0 <= k < |roles| ==> roles[k] != AddrRole && !IsAddr(operands[k])
    requires name.Other?
    ensures DefOk(Plain(name, operands, roles))
  {
  }

  lemma SecondTableOk()
    ensures TableOk(HBC98)
  {
    PlainOk(MOV, [Reg8, Reg8], [PlainRole, PlainRole]);
    PlainOk(GET_ENVIRONMENT, [Reg8, Reg8, UInt8], [PlainRole, PlainRole, PlainRole]);
    PlainOk(LOAD_FROM_ENVIRONMENT, [Reg8, Reg8, UInt8], [PlainRole, PlainRole, PlainRole]);
    PlainOk(CREATE_TOP_LEVEL_ENVIRONMENT, [Reg8, UInt32], [PlainRole, PlainRole]);
    PlainOk(CREATE_ENVIRONMENT, [Reg8, Reg8, UInt32], [PlainRole, PlainRole, PlainRole]);
    PlainOk(PUT_BY_ID, [Reg8, Reg8, UInt8, UInt16], [PlainRole, PlainRole, PlainRole, StringRole]);
    PlainOk(LOAD_CONST_UNDEFINED, [Reg8], [PlainRole]);
  }

  lemma TablesOk()
    ensures TableOk(HBC96) && TableOk(HBC98)
  {
    FirstTableOk();
    SecondTableOk();
  }

  /** A file with one name, before its bytes are filled in. */
  function FileOf(opcodes: map<int, OpcodeDef>, size: nat): Source {
    Source([], size, 0, size, opcodes, 1, 0, 0, 0, 0)
  }

  /** Some file decodes to this body. */
  ghost predicate IsDecoded(p: Body) {
    Inverts(p.insns, p.at) && exists f: Source :: TableOk(f.opcodes) && f.size == p.size && IsDecoding(f, p.insns)
  }

  lemma DecodedFits(p: Body)
    requires IsDecoded(p)
    ensures Decoded(p.insns, p.size, p.at)
  {
    var f: Source :| TableOk(f.opcodes) && f.size == p.size && IsDecoding(f, p.insns);
    TargetsStartIff(p.insns, p.size, p.at);
    forall i | 0 <= i < |p.insns|
      ensures TargetsOk(p.insns[i], p.at) && (p.insns[i].IsSaveGenerator() ==> p.insns[i].kind == CondJump)
      ensures p.insns[i].name in {OpName.Catch, OpName.Ret} ==> p.insns[i].operands != []
    {
      assert InsnRight(f, p.insns[i]);
      TargetsFit(f, p.insns[i], p.size, p.at);
    }
  }

  /** insn is this opcode with these operands, at its place. */
  ghost predicate Spelled(opcodes: map<int, OpcodeDef>, code: Byte, insn: Instruction) {
    TableOk(opcodes) && IsInsn(FileOf(opcodes, 0), code, insn)
  }

  lemma SpelledIsDecoded(p: Body, opcodes: map<int, OpcodeDef>, codes: seq<Byte>)
    requires TableOk(opcodes) && Tiles(p.insns, p.size) && Inverts(p.insns, p.at) && TargetsStart(p.insns, p.size) && |codes| == |p.insns|
    requires forall i {:trigger codes[i]} :: 0 <= i < |codes| ==> Spelled(opcodes, codes[i], p.insns[i])
    ensures IsDecoded(p)
  {
    var f := FileOf(opcodes, p.size);
    forall i | 0 <= i < |codes| ensures IsInsn(f, codes[i], p.insns[i]) { assert Spelled(opcodes, codes[i], p.insns[i]); }
    var g := FileFor(f, codes, p.insns);
  }

  lemma Starts(ts: seq<OperandType>)
    ensures OperandStart(ts, 0, 0) == 1
    ensures |ts| > 0 ==> OperandStart(ts, 0, 1) == 1 + Width(ts[0])
    ensures |ts| > 1 ==> OperandStart(ts, 0, 2) == 1 + Width(ts[0]) + Width(ts[1])
    ensures |ts| > 2 ==> OperandStart(ts, 0, 3) == 1 + Width(ts[0]) + Width(ts[1]) + Width(ts[2])
    ensures |ts| > 3 ==> OperandStart(ts, 0, 4) == 1 + Width(ts[0]) + Width(ts[1]) + Width(ts[2]) + Width(ts[3])
  {
  }

  /** An instruction without targets. */
  lemma PlainIsSpelled(opcodes: map<int, OpcodeDef>, code: Byte, insn: Instruction)
    requires TableOk(opcodes) && code in opcodes && !opcodes[code].unverified
    requires var d := opcodes[code];
      && insn.name == d.name && insn.kind == KindOf(d) && insn.kind in {Normal, CatchInstr, Return} && insn.targets == [] && insn.switchTable == None
      && |insn.operands| == |d.operands| && insn.length == OperandStart(d.operands, 0, |d.operands|)
      && forall k {:trigger insn.operands[k]} :: 0 <= k < |d.operands| ==> 0 <= insn.operands[k] < (if d.roles[k] == StringRole then 1 else 100) && d.roles[k] in {PlainRole, StringRole}
    ensures Spelled(opcodes, code, insn)
  {
    Limits();
  }

  /** An instruction whose one operand is its target. */
  lemma JumpIsSpelled(opcodes: map<int, OpcodeDef>, code: Byte, insn: Instruction)
    requires TableOk(opcodes) && code in opcodes && !opcodes[code].unverified
    requires var d := opcodes[code];
      && insn.name == d.name && insn.kind == KindOf(d) && insn.kind in {Jump, CondJump} && d.operands == [Addr8] && insn.switchTable == None
      && |insn.operands| == 1 && -0x80 <= insn.operands[0] < 0x80 && insn.targets == [insn.offset + insn.operands[0]] && insn.length == 2
    ensures Spelled(opcodes, code, insn)
  {
    var d := opcodes[code];
    assert d.roles == [AddrRole];
    assert [AddrRole][..0] == [];
    assert FirstAddr(d.roles) == Some(0);
    Starts(d.operands);
  }

  /** The layout is that of body p. */
  ghost predicate LayoutOf(l: Layout, p: Body) {
    Built(l) && l.insns == p.insns && l.handlers == p.handlers && l.size == p.size && l.at == p.at
  }

  lemma LeadersAre(l: Layout, p: Body, leaders: seq<int>)
    requires LayoutOf(l, p) && p.insns != [] && Ascends(leaders)
    requires forall o :: Leader(p.insns, p.handlers, p.size, p.at, o) <==> o in leaders
    ensures l.leaders == leaders && |l.cut| == |leaders| + 1 && l.cut[|leaders|] == |p.insns| && |l.blocks| == |leaders|
    ensures forall k :: 0 <= k < |leaders| ==> leaders[k] in p.at && l.cut[k] == p.at[leaders[k]]
  {
    AscendingUnique(l.leaders, leaders);
  }

  lemma FewLeaders(p: Body, found: seq<int>, leaders: seq<int>)
    requires LeadersOf(p.insns, p.handlers, p.size, p.at, found) && Ascends(leaders)
    requires forall o :: Leader(p.insns, p.handlers, p.size, p.at, o) <==> o in leaders
    ensures found == leaders
  {
    AscendingUnique(found, leaders);
  }

  lemma BlockIs(l: Layout, k: nat)
    requires Built(l) && l.insns != [] && k < |l.leaders|
    ensures l.cut[k] < l.cut[k + 1] <= |l.insns| && l.blocks[k].instructions == l.insns[l.cut[k]..l.cut[k + 1]]
    ensures l.blocks[k].start == l.leaders[k] && l.blocks[k].end == l.insns[l.cut[k + 1] - 1].End()
  {
    BlockBody(l, k);
  }

  lemma OneEntry(S: seq<Entry>, handlers: seq<ExceptionHandler>, b: BasicBlock)
    requires TableOf(S, handlers) && |handlers| == 1
    ensures NestingOrder(S, b) == if Covers(handlers[0], b) then [0] else []
  {
    assert S[0].handler == handlers[0];
    assert Covering(S, b, 0) == [];
    assert Covering(S, b, 1) == if Covers(handlers[0], b) then [0] else [];
    assert [0][..0] == [];
  }

  /** The exception successors a one-entry table gives a block. */
  lemma OneHandler(S: seq<Entry>, handlers: seq<ExceptionHandler>, blocks: seq<BasicBlock>, byOffset: map<int, BlockId>,
                   succs: map<BlockId, seq<BlockId>>, b: nat)
    requires SuccsRight(S, handlers, blocks, byOffset, |blocks|, succs) && |handlers| == 1 && b < |blocks|
    ensures Lookup(succs, b) == if Covers(handlers[0], blocks[b]) then Some([byOffset[handlers[0].target]]) else None
  {
    OneEntry(S, handlers, blocks[b]);
    assert SuccsAt(S, handlers, blocks[b], byOffset, Lookup(succs, b));
    if Covers(handlers[0], blocks[b]) { assert succs[b] == [succs[b][0]]; }
  }

  lemma BlockNumber(l: Layout, k: nat)
    requires Built(l) && k < |l.leaders|
    ensures l.leaders[k] in l.byOffset && l.byOffset[l.leaders[k]] == k
  {
  }
}
