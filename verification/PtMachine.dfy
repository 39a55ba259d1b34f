// The instructions the points-to pass (src/artifact/points-to.ts) tells apart, and a machine
// that runs them: frames, environments and the history of property reads and puts.
module PtMachine {
  import opened CfgTypes

  type Reg = nat
  type Fn = nat
  type Node = nat
  type Slot = nat
  type ModuleId = nat

  /** A literal index, or the register holding it. */
  datatype IndexSource = Literal(value: int) | InReg(reg: Reg)

  /** Every instruction writes at most `dst`; names the source treats as stores and
      terminators (points-to.ts:110) write nothing. A name is None when its string id is out
      of range. `arg` is the argument of a call with exactly four operands. */
  datatype PtInsn =
    | Mov(dst: Reg, src: Reg)
    | LoadParam(dst: Reg, slot: nat)
    | LoadUndefined(dst: Reg)
    | ConstInt(dst: Reg, value: int)
    | MakeClosure(dst: Reg, fn: Fn)
    | GetIndexed(dst: Reg, base: Reg, index: IndexSource)
    | LoadEnv(dst: Reg, slot: Slot)
    | StoreEnv(slot: Slot, val: Reg)
    | GetById(dst: Reg, base: Reg, name: Option<string>)
    | Put(obj: Reg, val: Reg, name: Option<string>)
    | CallOp(dst: Reg, callee: Reg, arg: Option<Reg>)
    | Def(dst: Reg)
    | Effect

  /** An instruction in its place: its offset, whether a label is there, and the registers it
      reads. */
  datatype PtSite = PtSite(offset: nat, target: bool, insn: PtInsn, sources: seq<Reg>)

  function Written(insn: PtInsn): Option<Reg> {
    match insn
    case StoreEnv(_, _) => None
    case Put(_, _, _) => None
    case Effect => None
    case _ => Some(insn.dst)
  }

  /** A module factory: its module, its dependency list and the slots of its parameters. */
  datatype Factory = Factory(id: ModuleId, deps: seq<ModuleId>, requireSlot: nat, depMapSlot: nat, exportsSlot: nat, moduleSlot: nat)

  type SiteKey = (Fn, nat)
  type SlotKey = (Node, Slot)

  /** The bundle: code per function, factories, and what the environment graph says: the node
      of a resolved access, and which sites can run at all. */
  datatype Bundle = Bundle(code: seq<seq<PtSite>>, factories: map<Fn, Factory>, resolvedAt: map<SiteKey, Node>, live: set<SiteKey>)

  // ------------------------------------------------------------------ the machine

  /** Unwritten: a register or slot before its first store. RequireFn, DepMap and DepId are
      Metro's require function, a factory's dependency map and its i-th entry. */
  datatype PVal =
    | Unwritten | Undef | IntVal(n: int) | RequireFn | DepMap(f: Fn) | DepId(f: Fn, i: nat)
    | Exports(m: ModuleId) | ClosureVal(fn: Fn) | Opaque(id: int)

  type Regs = map<Reg, PVal>
  type Params = map<nat, PVal>
  type History = set<(PVal, string, PVal)>

  datatype PEnv = PEnv(node: Node, slots: map<Slot, PVal>)

  datatype PFrame = PFrame(fn: Fn, params: Params, regs: Regs, pc: nat)

  datatype PMachine = PMachine(heap: seq<PEnv>, frames: seq<PFrame>, gets: History, puts: History)

  function Read(regs: Regs, r: Reg): PVal {
    if r in regs then regs[r] else Unwritten
  }

  function ParamVal(params: Params, slot: nat): PVal {
    if slot in params then params[slot] else Undef
  }

  ghost predicate InCode(b: Bundle, fr: PFrame) {
    fr.fn < |b.code| && fr.pc <= |b.code[fr.fn]|
  }

  ghost predicate AtSite(b: Bundle, fr: PFrame) {
    fr.fn < |b.code| && fr.pc < |b.code[fr.fn]|
  }

  /** A factory is called with require and its own dependency map in their slots. */
  ghost predicate ParamsFit(b: Bundle, fn: Fn, params: Params) {
    fn in b.factories ==>
      ParamVal(params, b.factories[fn].requireSlot) == RequireFn && ParamVal(params, b.factories[fn].depMapSlot) == DepMap(fn)
  }

  function IndexValue(regs: Regs, index: IndexSource): PVal {
    match index
    case Literal(v) => IntVal(v)
    case InReg(r) => Read(regs, r)
  }

  /** require(dependencyMap[i]) is the exports of the i-th dependency. */
  ghost predicate RequireGives(b: Bundle, arg: PVal, v: PVal) {
    arg.DepId? && arg.f in b.factories && arg.i < |b.factories[arg.f].deps| ==> v == Exports(b.factories[arg.f].deps[arg.i])
  }

  /** The value an instruction may leave in its destination. */
  ghost predicate Yields(b: Bundle, params: Params, regs: Regs, insn: PtInsn, v: PVal) {
    match insn
    case Mov(_, src) => v == Read(regs, src)
    case LoadParam(_, slot) => v == ParamVal(params, slot)
    case LoadUndefined(_) => v == Undef
    case ConstInt(_, n) => v == IntVal(n)
    case MakeClosure(_, fn) => v == ClosureVal(fn)
    case GetIndexed(_, base, index) =>
      var x, i := Read(regs, base), IndexValue(regs, index);
      x != Unwritten && i != Unwritten && (x.DepMap? && i.IntVal? && i.n >= 0 ==> v == DepId(x.f, i.n))
    case GetById(_, base, _) => Read(regs, base) != Unwritten
    case CallOp(_, callee, arg) =>
      Read(regs, callee) != Unwritten && (arg.Some? ==> Read(regs, arg.value) != Unwritten)
      && (Read(regs, callee) == RequireFn && arg.Some? ==> RequireGives(b, Read(regs, arg.value), v))
    case _ => true
  }

  /** A frame executes the instruction it is at and falls through. */
  ghost predicate Executes(b: Bundle, m: PMachine, m': PMachine, i: nat) {
    && i < |m.frames| && AtSite(b, m.frames[i]) && |m'.frames| == |m.frames|
    && var fr, fr' := m.frames[i], m'.frames[i];
    var insn, site := b.code[fr.fn][fr.pc].insn, (fr.fn, fr.pc);
    && site in b.live && fr' == fr.(regs := fr'.regs, pc := fr.pc + 1) && m'.frames == m.frames[i := fr']
    && match insn
       case LoadEnv(dst, slot) =>
         m'.heap == m.heap && m'.gets == m.gets && m'.puts == m.puts && Loads(b, m.heap, site, slot, fr.regs, dst, fr'.regs)
       case StoreEnv(slot, val) =>
         m'.gets == m.gets && m'.puts == m.puts && fr'.regs == fr.regs && Stores(b, m.heap, m'.heap, site, slot, Read(fr.regs, val))
       case Put(obj, val, name) =>
         Read(fr.regs, obj) != Unwritten && m'.heap == m.heap && m'.gets == m.gets && fr'.regs == fr.regs
         && m'.puts == m.puts + (if name.Some? then {(Read(fr.regs, obj), name.value, Read(fr.regs, val))} else {})
       case Effect => m'.heap == m.heap && m'.gets == m.gets && m'.puts == m.puts && fr'.regs == fr.regs
       case _ =>
         && m'.heap == m.heap && m'.puts == m.puts
         && Yields(b, fr.params, fr.regs, insn, Read(fr'.regs, insn.dst)) && fr'.regs == fr.regs[insn.dst := Read(fr'.regs, insn.dst)]
         && m'.gets == m.gets + (if insn.GetById? && insn.name.Some? then {(Read(fr.regs, insn.base), insn.name.value, Read(fr'.regs, insn.dst))} else {})
  }

  /** A slot access touches some environment, made at the resolved node if there is one. */
  ghost predicate Touches(b: Bundle, heap: seq<PEnv>, site: SiteKey, a: nat) {
    a < |heap| && (site in b.resolvedAt ==> heap[a].node == b.resolvedAt[site])
  }

  ghost predicate Loads(b: Bundle, heap: seq<PEnv>, site: SiteKey, slot: Slot, regs: Regs, dst: Reg, regs': Regs) {
    exists a: nat :: Touches(b, heap, site, a) && regs' == regs[dst := if slot in heap[a].slots then heap[a].slots[slot] else Unwritten]
  }

  ghost predicate Stores(b: Bundle, heap: seq<PEnv>, heap': seq<PEnv>, site: SiteKey, slot: Slot, v: PVal) {
    exists a: nat :: Touches(b, heap, site, a) && heap' == heap[a := heap[a].(slots := heap[a].slots[slot := v])]
  }

  /** Control may reach a label from anywhere: a jump, a throw or a resume. */
  ghost predicate Jumps(b: Bundle, m: PMachine, m': PMachine, i: nat, pc: nat) {
    && i < |m.frames| && m.frames[i].fn < |b.code| && pc < |b.code[m.frames[i].fn]| && b.code[m.frames[i].fn][pc].target
    && m' == m.(frames := m.frames[i := m.frames[i].(pc := pc)])
  }

  /** A call: registers unwritten, any parameters the callee's kind allows. */
  ghost predicate Enters(b: Bundle, m: PMachine, m': PMachine, fr: PFrame) {
    && fr.fn < |b.code| && fr.pc == 0 && fr.regs == map[] && ParamsFit(b, fr.fn, fr.params)
    && m' == m.(frames := m.frames + [fr])
  }

  ghost predicate Allocates(m: PMachine, m': PMachine, node: Node) {
    m' == m.(heap := m.heap + [PEnv(node, map[])])
  }

  ghost predicate Step(b: Bundle, m: PMachine, m': PMachine) {
    || (exists i :: Executes(b, m, m', i))
    || (exists i, pc :: Jumps(b, m, m', i, pc))
    || (exists fr :: Enters(b, m, m', fr))
    || (exists node :: Allocates(m, m', node))
  }

  /** m is reached in n steps from the empty machine. */
  ghost predicate ReachedIn(b: Bundle, m: PMachine, n: nat)
    decreases n
  {
    if n == 0 then m == PMachine([], [], {}, {})
    else exists m0 :: ReachedIn(b, m0, n - 1) && Step(b, m0, m)
  }

  ghost predicate Reached(b: Bundle, m: PMachine) {
    exists n: nat :: ReachedIn(b, m, n)
  }

  // --------------------------------------------------- registers with one writer

  /** The two instructions whose destinations are followed function-wide. */
  datatype Maker = ParamMaker | ClosureMaker

  /** What the instruction makes, when it is of that kind. */
  function Made(k: Maker, insn: PtInsn): Option<nat> {
    match k
    case ParamMaker => if insn.LoadParam? then Some(insn.slot) else None
    case ClosureMaker => if insn.MakeClosure? then Some(insn.fn) else None
  }

  ghost predicate Makes(k: Maker, code: seq<PtSite>, r: Reg, s: nat) {
    exists i :: 0 <= i < |code| && Written(code[i].insn) == Some(r) && Made(k, code[i].insn) == Some(s)
  }

  /** Nothing but makers of s writes r. */
  ghost predicate OnlyMakes(k: Maker, code: seq<PtSite>, r: Reg, s: nat) {
    forall i {:trigger code[i]} :: 0 <= i < |code| && Written(code[i].insn) == Some(r) ==> Made(k, code[i].insn) == Some(s)
  }

  ghost predicate WrittenOtherwise(k: Maker, code: seq<PtSite>, r: Reg, n: nat)
    requires n <= |code|
  {
    exists j {:trigger code[j]} :: 0 <= j < n && Written(code[j].insn) == Some(r) && Made(k, code[j].insn).None?
  }

  /** paramRegs and uniqueClosureRegs: exactly the registers that one parameter is loaded to,
      or one closure is created in, and that nothing else writes. */
  method UniqueWriters(k: Maker, code: seq<PtSite>) returns (r: map<Reg, nat>)
    ensures forall x: Reg, s: nat :: (x in r && r[x] == s) <==> Makes(k, code, x, s) && OnlyMakes(k, code, x, s)
  {
    var made: map<Reg, set<nat>> := map[];
    var other: set<Reg> := {};
    for i := 0 to |code|
      invariant forall x: Reg, s: nat :: (x in made && s in made[x]) <==> Makes(k, code[..i], x, s)
      invariant forall x: Reg :: x in other <==> WrittenOtherwise(k, code, x, i)
    {
      MakesNext(k, code, i);
      var insn := code[i].insn;
      if Written(insn).None? { continue; }
      var dst := Written(insn).value;
      var m := Made(k, insn);
      if m.Some? {
        made := made[dst := (if dst in made then made[dst] else {}) + {m.value}];
      } else {
        other := other + {dst};
      }
    }
    assert code[..|code|] == code;
    r := map x | x in made && |made[x]| == 1 && x !in other :: Only(made[x]);
    forall x: Reg, s: nat ensures (x in r && r[x] == s) <==> Makes(k, code, x, s) && OnlyMakes(k, code, x, s) {
      UniqueIff(k, code, x, s, if x in made then made[x] else {}, x in other);
    }
  }

  function Only(s: set<nat>): (x: nat)
    requires |s| == 1
    ensures s == {x}
  {
    OneMember(s);
    var x :| x in s && s == {x};
    x
  }

  lemma OneMember(s: set<nat>)
    requires |s| == 1
    ensures exists x :: x in s && s == {x}
  {
    var x :| x in s;
    assert s - {x} == {} by { assert |s - {x}| == 0; }
    assert s == {x};
  }

  lemma MakesNext(k: Maker, code: seq<PtSite>, i: nat)
    requires i < |code|
    ensures forall x: Reg, s: nat :: Makes(k, code[..i + 1], x, s) <==>
      Makes(k, code[..i], x, s) || (Written(code[i].insn) == Some(x) && Made(k, code[i].insn) == Some(s))
  {
    forall x: Reg, s: nat ensures Makes(k, code[..i + 1], x, s) <==>
      Makes(k, code[..i], x, s) || (Written(code[i].insn) == Some(x) && Made(k, code[i].insn) == Some(s))
    {
      if Makes(k, code[..i], x, s) {
        var j :| 0 <= j < i && Written(code[..i][j].insn) == Some(x) && Made(k, code[..i][j].insn) == Some(s);
        assert code[..i + 1][j] == code[j];
      }
      if Makes(k, code[..i + 1], x, s) {
        var j :| 0 <= j < i + 1 && Written(code[..i + 1][j].insn) == Some(x) && Made(k, code[..i + 1][j].insn) == Some(s);
        assert j < i ==> code[..i][j] == code[j];
      }
      assert code[..i + 1][i] == code[i];
    }
  }

  lemma UniqueIff(k: Maker, code: seq<PtSite>, x: Reg, s: nat, made: set<nat>, elsewhere: bool)
    requires forall t: nat :: t in made <==> Makes(k, code, x, t)
    requires elsewhere <==> WrittenOtherwise(k, code, x, |code|)
    ensures made == {s} && !elsewhere <==> Makes(k, code, x, s) && OnlyMakes(k, code, x, s)
  {
    if made == {s} && !elsewhere {
      forall i | 0 <= i < |code| && Written(code[i].insn) == Some(x) ensures Made(k, code[i].insn) == Some(s) {
        assert Made(k, code[i].insn).Some? ==> Makes(k, code, x, Made(k, code[i].insn).value);
      }
    }
    if Makes(k, code, x, s) && OnlyMakes(k, code, x, s) {
      forall t: nat ensures t in made <==> t == s {
        if t in made {
          var i :| 0 <= i < |code| && Written(code[i].insn) == Some(x) && Made(k, code[i].insn) == Some(t);
        }
      }
    }
  }

  ghost predicate IsUnique(k: Maker, b: Bundle, fn: Fn, params: map<Reg, nat>)
    requires fn < |b.code|
  {
    forall x: Reg, s: nat :: (x in params && params[x] == s) <==> Makes(k, b.code[fn], x, s) && OnlyMakes(k, b.code[fn], x, s)
  }

  lemma UniqueIsUnique(k: Maker, b: Bundle, fn: Fn, p: map<Reg, nat>, q: map<Reg, nat>)
    requires fn < |b.code| && IsUnique(k, b, fn, p) && IsUnique(k, b, fn, q)
    ensures p == q
  {
    forall x | x in p ensures x in q && q[x] == p[x] { assert Makes(k, b.code[fn], x, p[x]); }
    forall x | x in q ensures x in p { assert Makes(k, b.code[fn], x, q[x]); }
  }
}
