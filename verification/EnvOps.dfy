// From decoded instructions to what the environment tracker sees in them: the opcode groups
// and operand positions of src/cfg/env-graph.ts:29-46, 224-353 and the destination rule of
// src/cfg/reg-effects.ts:94-103.
module EnvOps {
  import opened CfgTypes
  import opened EnvState

  // ------------------------------------------------------------- opcode names

  const CREATE_ENVIRONMENT := OpName.Other(0)
  const CREATE_FUNCTION_ENVIRONMENT := OpName.Other(2)
  const CREATE_TOP_LEVEL_ENVIRONMENT := OpName.Other(3)
  const GET_ENVIRONMENT := OpName.Other(4)
  const GET_PARENT_ENVIRONMENT := OpName.Other(5)
  const GET_CLOSURE_ENVIRONMENT := OpName.Other(6)
  const LOAD_CONST_UNDEFINED := OpName.Other(7)
  const MOV := OpName.Other(8)
  const MOV_LONG := OpName.Other(9)
  const LOAD_FROM_ENVIRONMENT := OpName.Other(22)
  const PUT_BY_ID := OpName.Other(28)
  const JMP := OpName.Other(29)

  predicate IdWithin(name: OpName, lo: nat, hi: nat) {
    name.Other? && lo <= name.id < hi
  }

  /** The three above and CreateInnerEnvironment, which is number 1. */
  predicate IsEnvCreate(name: OpName) {
    IdWithin(name, 0, 4)
  }

  /** The Create*Closure and CreateGenerator family. */
  predicate IsClosureCreate(name: OpName) {
    IdWithin(name, 10, 18)
  }

  predicate IsClassCreate(name: OpName) {
    IdWithin(name, 18, 22)
  }

  predicate IsEnvLoad(name: OpName) {
    IdWithin(name, 22, 24)
  }

  predicate IsEnvStore(name: OpName) {
    IdWithin(name, 24, 28)
  }

  /** The names applyTransfer has a case for. */
  predicate IsTracked(name: OpName) {
    IdWithin(name, 0, 28)
  }

  // ------------------------------------------------------------- instructions

  predicate Operand(insn: Instruction, k: nat, v: nat) {
    k < |insn.operands| && insn.operands[k] == v
  }

  predicate LastOperand(insn: Instruction, v: nat) {
    insn.operands != [] && insn.operands[|insn.operands| - 1] == v
  }

  /** Whether the parent is nothing, the function's own environment, or an operand. */
  predicate SourceOf(insn: Instruction, source: ParentSource) {
    if insn.name == CREATE_TOP_LEVEL_ENVIRONMENT then source == Root
    else if insn.name == CREATE_FUNCTION_ENVIRONMENT || (insn.name == CREATE_ENVIRONMENT && |insn.operands| == 1) then source == OwnEnv
    else source.InReg? && Operand(insn, 1, source.reg)
  }

  /** Branches, returns, throws and stores have no destination; a catch has one. */
  predicate WritesRight(insn: Instruction, writes: seq<Reg>) {
    && ((insn.kind in {Jump, CondJump, Switch, Return, Throw, Unreachable} || insn.name == PUT_BY_ID) ==> writes == [])
    && (insn.name == Catch ==> |writes| == 1 && Operand(insn, 0, writes[0]))
  }

  /** e is what the tracker sees in the instruction. */
  predicate Tracks(insn: Instruction, e: EnvInsn) {
    match e
    case CreateEnv(dst, _, source) => IsEnvCreate(insn.name) && Operand(insn, 0, dst) && SourceOf(insn, source)
    case GetOwnEnv(dst, levels) =>
      (insn.name == GET_PARENT_ENVIRONMENT || (insn.name == GET_ENVIRONMENT && |insn.operands| == 2)) && Operand(insn, 0, dst) && Operand(insn, 1, levels)
    case GetEnvAbove(dst, src, levels) =>
      insn.name == GET_ENVIRONMENT && |insn.operands| != 2 && Operand(insn, 0, dst) && Operand(insn, 1, src) && Operand(insn, 2, levels)
    case GetClosureEnv(dst, src) => insn.name == GET_CLOSURE_ENVIRONMENT && Operand(insn, 0, dst) && Operand(insn, 1, src)
    case LoadUndefined(dst) => insn.name == LOAD_CONST_UNDEFINED && Operand(insn, 0, dst)
    case Move(dst, src) => (insn.name == MOV || insn.name == MOV_LONG) && Operand(insn, 0, dst) && Operand(insn, 1, src)
    case MakeClosure(dst, clobbered, env, fn) =>
      if IsClosureCreate(insn.name) then clobbered == [] && Operand(insn, 0, dst) && Operand(insn, 1, env) && LastOperand(insn, fn)
      else IsClassCreate(insn.name) && |clobbered| == 2 && clobbered[0] == dst && Operand(insn, 0, dst) && Operand(insn, 1, clobbered[1])
           && Operand(insn, 2, env) && LastOperand(insn, fn)
    case LoadSlot(dst, env, slot) => IsEnvLoad(insn.name) && Operand(insn, 0, dst) && Operand(insn, 1, env) && Operand(insn, 2, slot)
    case StoreSlot(env, slot, val) => IsEnvStore(insn.name) && Operand(insn, 0, env) && Operand(insn, 1, slot) && Operand(insn, 2, val)
    case Other(writes) => !IsTracked(insn.name) && WritesRight(insn, writes)
  }

  /** An instruction is seen as one thing, up to the number its creation site gets and the
      registers an untracked one writes. */
  lemma TracksOne(insn: Instruction, a: EnvInsn, b: EnvInsn)
    requires Tracks(insn, a) && Tracks(insn, b)
    ensures a == b || (a.CreateEnv? && b.CreateEnv? && a.dst == b.dst && a.source == b.source) || (a.Other? && b.Other?)
  {
    if a.MakeClosure? && b.MakeClosure? && |a.clobbered| == 2 { assert a.clobbered == [a.dst, a.clobbered[1]] && b.clobbered == [b.dst, b.clobbered[1]]; }
  }

  /** Instruction by instruction, code is what the tracker sees in the blocks. */
  ghost predicate CodeOf(blocks: seq<BasicBlock>, code: seq<seq<EnvInsn>>) {
    |code| == |blocks| && forall b {:trigger code[b]} :: 0 <= b < |blocks| ==> BodyOf(blocks[b].instructions, code[b])
  }

  ghost predicate BodyOf(insns: seq<Instruction>, code: seq<EnvInsn>) {
    |code| == |insns| && forall k {:trigger code[k]} :: 0 <= k < |insns| ==> Tracks(insns[k], code[k])
  }
}
