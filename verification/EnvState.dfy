// The register tracker of the environment graph (src/cfg/env-graph.ts:48-93, 174-360):
// its lattice, the facts it learns and what one instruction does to both.
module EnvState {
  import opened CfgTypes

  type Reg = nat
  type Fn = nat
  type Node = nat
  type Slot = nat

  /** What a register is known to hold. Absent from a state: never written. */
  datatype EnvValue = Env(node: Node) | Closure(fn: Fn, env: Option<Node>) | NoEnv | Unknown

  type State = map<Reg, EnvValue>

  function Get(s: State, r: Reg): EnvValue {
    if r in s then s[r] else Unknown
  }

  // ------------------------------------------------------------- the lattice

  /** s claims no more than t: registers of s are in t, equal or given up. */
  ghost predicate Below(s: State, t: State) {
    forall r {:trigger r in s} :: r in s ==> r in t && (t[r] == s[r] || t[r] == Unknown)
  }

  /** mergeState as a function of its two arguments. */
  function Merge(into: State, from: State): State {
    map r | r in into.Keys + from.Keys ::
      if r !in into then from[r] else if r !in from || from[r] == into[r] then into[r] else Unknown
  }

  lemma MergeIsUpper(into: State, from: State)
    ensures Below(into, Merge(into, from)) && Below(from, Merge(into, from))
  {
  }

  /** ... and the least one: nothing is given up without need. */
  lemma MergeIsLeast(into: State, from: State, t: State)
    requires Below(into, t) && Below(from, t)
    ensures Below(Merge(into, from), t)
  {
  }

  lemma BelowTransitive(a: State, b: State, c: State)
    requires Below(a, b) && Below(b, c)
    ensures Below(a, c)
  {
    forall r | r in a ensures r in c && (c[r] == a[r] || c[r] == Unknown) {
      assert r in b;
    }
  }

  /** The merge loop: one register of `from` at a time. */
  method MergeState(into: State, from: State) returns (r: State, changed: bool)
    ensures r == Merge(into, from) && (changed <==> r != into)
  {
    r, changed := into, false;
    var left := from.Keys;
    while left != {}
      invariant left <= from.Keys
      invariant r.Keys == into.Keys + (from.Keys - left)
      invariant forall x :: x in r ==> r[x] == if x in left then into[x] else Merge(into, from)[x]
      invariant changed <==> r != into
      decreases left
    {
      var reg :| reg in left;
      left := left - {reg};
      if reg !in r {
        r := r[reg := from[reg]];
        changed := true;
      } else if r[reg] != from[reg] && r[reg] != Unknown {
        r := r[reg := Unknown];
        changed := true;
      }
    }
  }

  // ---------------------------------------------------------------- the facts

  datatype Held = Holds(node: Node) | Conflict

  /** The three mutually dependent facts. A node missing from `parent` has no known parent;
      a function missing from `closureEnv` has no known creation site. */
  datatype Facts = Facts(parent: map<Node, Option<Node>>, closureEnv: map<Fn, Option<Node>>, noEnv: set<Fn>,
                         conflict: set<Fn>, slotEnv: map<(Node, Slot), Held>)

  /** selfEnv of f: Some(None) is "captures nothing", None is "not known". */
  function SelfEnv(facts: Facts, f: Fn): Option<Option<Node>> {
    if f in facts.closureEnv then Some(facts.closureEnv[f])
    else if f in facts.noEnv then Some(None)
    else None
  }

  /** walkUp: `levels` parents above start. */
  function WalkUp(facts: Facts, start: Option<Node>, levels: nat): EnvValue
    decreases levels
  {
    if start.None? then Unknown
    else if levels == 0 then Env(start.value)
    else WalkUp(facts, if start.value in facts.parent then facts.parent[start.value] else None, levels - 1)
  }

  function Flat(self: Option<Option<Node>>): Option<Node> {
    if self.Some? then self.value else None
  }

  // ---------------------------------------------------------- instructions

  /** Where a created environment's parent comes from. */
  datatype ParentSource = Root | OwnEnv | InReg(reg: Reg)

  /** The opcode groups the tracker tells apart, with the node of each creation site. */
  datatype EnvInsn =
    | CreateEnv(dst: Reg, node: Node, source: ParentSource)
    | GetOwnEnv(dst: Reg, levels: nat)
    | GetEnvAbove(dst: Reg, src: Reg, levels: nat)
    | GetClosureEnv(dst: Reg, src: Reg)
    | LoadUndefined(dst: Reg)
    | Move(dst: Reg, src: Reg)
    | MakeClosure(dst: Reg, clobbered: seq<Reg>, env: Reg, fn: Fn)
    | LoadSlot(dst: Reg, env: Reg, slot: Slot)
    | StoreSlot(env: Reg, slot: Slot, val: Reg)
    | Other(writes: seq<Reg>)

  function Clobber(s: State, rs: seq<Reg>): State {
    if rs == [] then s else Clobber(s, rs[..|rs| - 1])[rs[|rs| - 1] := Unknown]
  }

  /** The parent a creation site supplies: None is "not known". */
  function SuppliedParent(self: Option<Option<Node>>, source: ParentSource, s: State): Option<Option<Node>> {
    match source
    case Root => Some(None)
    case OwnEnv => self
    case InReg(r) =>
      match Get(s, r)
      case Env(n) => Some(Some(n))
      case NoEnv => Some(None)
      case _ => None
  }

  /** The register state after one instruction. */
  function Transfer(facts: Facts, self: Option<Option<Node>>, insn: EnvInsn, s: State): State {
    match insn
    case CreateEnv(dst, node, _) => s[dst := Env(node)]
    case GetOwnEnv(dst, levels) => s[dst := WalkUp(facts, Flat(self), levels)]
    case GetEnvAbove(dst, src, levels) => s[dst := if Get(s, src).Env? then WalkUp(facts, Some(Get(s, src).node), levels) else Unknown]
    case GetClosureEnv(dst, src) =>
      var c := Get(s, src);
      s[dst := if c.Closure? && c.env.Some? then Env(c.env.value) else Unknown]
    case LoadUndefined(dst) => s[dst := NoEnv]
    case Move(dst, src) => s[dst := Get(s, src)]
    case MakeClosure(dst, clobbered, env, fn) =>
      Clobber(s, clobbered)[dst := Closure(fn, if Get(s, env).Env? then Some(Get(s, env).node) else None)]
    case LoadSlot(dst, env, slot) =>
      var e := Get(s, env);
      var known := e.Env? && (e.node, slot) in facts.slotEnv && facts.slotEnv[(e.node, slot)].Holds?;
      s[dst := if known then Env(facts.slotEnv[(e.node, slot)].node) else Unknown]
    case StoreSlot(_, _, _) => s
    case Other(writes) => Clobber(s, writes)
  }

  /** The facts after one instruction. */
  function Learn(facts: Facts, self: Option<Option<Node>>, insn: EnvInsn, s: State): Facts {
    match insn
    case CreateEnv(_, node, source) =>
      var p := SuppliedParent(self, source, s);
      if p.Some? && node !in facts.parent then facts.(parent := facts.parent[node := p.value]) else facts
    case MakeClosure(_, _, env, fn) =>
      var e := Get(s, env);
      if e.Env? then
        if fn !in facts.closureEnv then facts.(closureEnv := facts.closureEnv[fn := Some(e.node)])
        else if facts.closureEnv[fn] != Some(e.node) && fn !in facts.conflict then facts.(conflict := facts.conflict + {fn})
        else facts
      else if e.NoEnv? && fn !in facts.noEnv then facts.(noEnv := facts.noEnv + {fn})
      else facts
    case StoreSlot(env, slot, val) =>
      var e, v := Get(s, env), Get(s, val);
      if !e.Env? then facts
      else
        var key := (e.node, slot);
        if v.Env? then
          if key !in facts.slotEnv then facts.(slotEnv := facts.slotEnv[key := Holds(v.node)])
          else if facts.slotEnv[key].Holds? && facts.slotEnv[key] != Holds(v.node) then facts.(slotEnv := facts.slotEnv[key := Conflict])
          else facts
        else if key in facts.slotEnv && facts.slotEnv[key].Holds? then facts.(slotEnv := facts.slotEnv[key := Conflict])
        else facts
    case _ => facts
  }

  // ------------------------------------------------------- facts only ascend

  predicate HeldLe(a: Held, b: Held) {
    a == b || b == Conflict
  }

  /** g knows everything f knows: parents and environments are kept, sets grow, slots
      go from a node to conflict only. */
  ghost predicate FactsLe(f: Facts, g: Facts) {
    && (forall n {:trigger n in f.parent} :: n in f.parent ==> n in g.parent && g.parent[n] == f.parent[n])
    && (forall n {:trigger n in f.closureEnv} :: n in f.closureEnv ==> n in g.closureEnv && g.closureEnv[n] == f.closureEnv[n])
    && f.noEnv <= g.noEnv && f.conflict <= g.conflict
    && forall k {:trigger k in f.slotEnv} :: k in f.slotEnv ==> k in g.slotEnv && HeldLe(f.slotEnv[k], g.slotEnv[k])
  }

  lemma LearnAscends(facts: Facts, self: Option<Option<Node>>, insn: EnvInsn, s: State)
    ensures FactsLe(facts, Learn(facts, self, insn, s))
  {
  }

  lemma FactsLeTransitive(a: Facts, b: Facts, c: Facts)
    requires FactsLe(a, b) && FactsLe(b, c)
    ensures FactsLe(a, c)
  {
    forall n | n in a.parent ensures n in c.parent && c.parent[n] == a.parent[n] { assert n in b.parent; }
    forall n | n in a.closureEnv ensures n in c.closureEnv && c.closureEnv[n] == a.closureEnv[n] { assert n in b.closureEnv; }
    forall k | k in a.slotEnv ensures k in c.slotEnv && HeldLe(a.slotEnv[k], c.slotEnv[k]) { assert k in b.slotEnv; }
  }
}
