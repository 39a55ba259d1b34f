// What the tracked instructions do: a machine with a heap of environments, closures and any
// number of frames, free to take every branch, raise at every instruction boundary and resume
// a generator after every save. The environment graph of src/cfg/env-graph.ts describes its runs.
module EnvMachine {
  import opened CfgTypes
  import opened EnvState
  import opened EnvFlow

  /** Unwritten is a register or slot before its first store. */
  datatype Value = Unwritten | Undefined | EnvRef(at: nat) | Fun(fn: Fn, env: Option<nat>) | Else(id: int)

  type Regs = map<Reg, Value>

  /** An environment: the creation site it was made at, its parent and its slots. */
  datatype Instance = Instance(node: Node, parent: Option<nat>, slots: map<Slot, Value>)

  type Heap = seq<Instance>

  /** A call in progress, about to run instruction pc of its block. */
  datatype Frame = Frame(fn: Fn, self: Option<nat>, regs: Regs, block: nat, pc: nat)

  datatype Machine = Machine(heap: Heap, closures: set<(Fn, Option<nat>)>, frames: seq<Frame>)

  function Read(regs: Regs, r: Reg): Value {
    if r in regs then regs[r] else Unwritten
  }

  /** The environment `levels` parents above `from`; None is "no such environment". */
  function Climb(heap: Heap, from: Option<nat>, levels: nat): (r: Option<nat>)
    ensures r.Some? ==> r.value < |heap|
    decreases levels
  {
    if from.None? || from.value >= |heap| then None
    else if levels == 0 then from
    else Climb(heap, heap[from.value].parent, levels - 1)
  }

  /** The environment operand of a creation: undefined is "no environment", anything that is
      neither undefined nor an environment stops the machine. */
  function EnvOperand(heap: Heap, v: Value): Option<Option<nat>> {
    match v
    case Undefined => Some(None)
    case EnvRef(a) => if a < |heap| then Some(Some(a)) else None
    case _ => None
  }

  function ParentOperand(heap: Heap, self: Option<nat>, regs: Regs, source: ParentSource): Option<Option<nat>> {
    match source
    case Root => Some(None)
    case OwnEnv => if self.None? || self.value < |heap| then Some(self) else None
    case InReg(r) => EnvOperand(heap, Read(regs, r))
  }

  /** Outside rs nothing changed. */
  ghost predicate SameOutside(a: Regs, b: Regs, rs: seq<Reg>) {
    forall r {:trigger Read(b, r)} :: r !in rs ==> Read(b, r) == Read(a, r)
  }

  function Address(v: Value, heap: Heap): Option<nat> {
    if v.EnvRef? && v.at < |heap| then Some(v.at) else None
  }

  /** One instruction of a frame: heap, closures and registers before and after. */
  ghost predicate Executes(insn: EnvInsn, self: Option<nat>, heap: Heap, closures: set<(Fn, Option<nat>)>, regs: Regs,
                           heap': Heap, closures': set<(Fn, Option<nat>)>, regs': Regs) {
    match insn
    case CreateEnv(dst, node, source) =>
      var p := ParentOperand(heap, self, regs, source);
      p.Some? && heap' == heap + [Instance(node, p.value, map[])] && closures' == closures && regs' == regs[dst := EnvRef(|heap|)]
    case GetOwnEnv(dst, levels) =>
      var a := Climb(heap, self, levels);
      a.Some? && heap' == heap && closures' == closures && regs' == regs[dst := EnvRef(a.value)]
    case GetEnvAbove(dst, src, levels) =>
      var a := Climb(heap, Address(Read(regs, src), heap), levels);
      a.Some? && heap' == heap && closures' == closures && regs' == regs[dst := EnvRef(a.value)]
    case GetClosureEnv(dst, src) =>
      var c := Read(regs, src);
      c.Fun? && heap' == heap && closures' == closures && regs' == regs[dst := if c.env.Some? then EnvRef(c.env.value) else Undefined]
    case LoadUndefined(dst) =>
      heap' == heap && closures' == closures && regs' == regs[dst := Undefined]
    case Move(dst, src) =>
      heap' == heap && closures' == closures && regs' == regs[dst := Read(regs, src)]
    case MakeClosure(dst, clobbered, env, fn) =>
      var e := EnvOperand(heap, Read(regs, env));
      e.Some? && heap' == heap && closures' == closures + {(fn, e.value)}
      && SameOutside(regs, regs', clobbered + [dst]) && Read(regs', dst) == Fun(fn, e.value)
    case LoadSlot(dst, env, slot) =>
      var a := Address(Read(regs, env), heap);
      a.Some? && heap' == heap && closures' == closures
      && regs' == regs[dst := if slot in heap[a.value].slots then heap[a.value].slots[slot] else Unwritten]
    case StoreSlot(env, slot, val) =>
      var a := Address(Read(regs, env), heap);
      a.Some? && closures' == closures && regs' == regs
      && heap' == heap[a.value := heap[a.value].(slots := heap[a.value].slots[slot := Read(regs, val)])]
    case Other(writes) =>
      heap' == heap && closures' == closures && SameOutside(regs, regs', writes)
  }

  ghost predicate At(flows: seq<Flow>, fr: Frame) {
    fr.fn < |flows| && fr.block < |flows[fr.fn].code| && fr.pc <= |flows[fr.fn].code[fr.block]| && WellFormed(flows[fr.fn])
  }

  /** A closure is called. */
  ghost predicate Calls(flows: seq<Flow>, m: Machine, m': Machine, fn: Fn, env: Option<nat>) {
    && fn < |flows| && (fn, env) in m.closures
    && m' == m.(frames := m.frames + [Frame(fn, env, map[], flows[fn].entry, 0)])
  }

  /** Frame i runs its next instruction. */
  ghost predicate Runs(flows: seq<Flow>, m: Machine, m': Machine, i: nat) {
    && i < |m.frames| && At(flows, m.frames[i]) && |m'.frames| == |m.frames|
    && var fr, fr' := m.frames[i], m'.frames[i];
    var code := flows[fr.fn].code[fr.block];
    && fr.pc < |code| && fr' == fr.(regs := fr'.regs, pc := fr.pc + 1)
    && Executes(code[fr.pc], fr.self, m.heap, m.closures, fr.regs, m'.heap, m'.closures, fr'.regs)
    && m'.frames == m.frames[i := fr']
  }

  /** Control leaves frame i's block for block t: to a handler from any instruction boundary,
      to a successor or to the resume block of a save from the end. */
  ghost predicate Jumps(flows: seq<Flow>, m: Machine, m': Machine, i: nat, t: nat) {
    && i < |m.frames| && At(flows, m.frames[i])
    && var fr := m.frames[i];
    var g := flows[fr.fn];
    && (t in g.handlers[fr.block] || (fr.pc == |g.code[fr.block]| && (t in g.succs[fr.block] || t in g.resumes[fr.block])))
    && m' == m.(frames := m.frames[i := fr.(block := t, pc := 0)])
  }

  ghost predicate Step(flows: seq<Flow>, m: Machine, m': Machine) {
    || (exists fn, env :: Calls(flows, m, m', fn, env))
    || (exists i :: Runs(flows, m, m', i))
    || (exists i, t :: Jumps(flows, m, m', i, t))
  }

  /** The loader has only the global code. */
  ghost predicate Initial(m: Machine, globalCode: Fn) {
    m == Machine([], {(globalCode, None)}, [])
  }

  ghost predicate StepAt(flows: seq<Flow>, run: seq<Machine>, k: nat)
    requires 0 < k < |run|
  {
    Step(flows, run[k - 1], run[k])
  }

  ghost predicate IsRun(flows: seq<Flow>, globalCode: Fn, run: seq<Machine>) {
    && |run| > 0 && Initial(run[0], globalCode)
    && forall k {:trigger StepAt(flows, run, k)} :: 0 < k < |run| ==> StepAt(flows, run, k)
  }
}
