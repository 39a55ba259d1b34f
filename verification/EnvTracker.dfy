// buildEnvGraph's mutable state (src/cfg/env-graph.ts:153-451): the instruction tracker, the
// worklist of one function, the rounds over all functions and the collecting pass.
module EnvTracker {
  import opened CfgTypes
  import opened EnvState
  import opened EnvFlow

  const MAX_ROUNDS := 12

  ghost predicate NoDup(s: seq<nat>) {
    forall i, j :: 0 <= i < j < |s| ==> s[i] != s[j]
  }

  class Tracker {
    var facts: Facts
    var learned: bool
    var state: State
    var entryState: seq<State>
    var exitState: seq<State>
    var worklist: seq<nat>
    var inWorklist: seq<bool>
    var guard: nat

    constructor (globalCode: Fn)
      ensures facts == Facts(map[], map[globalCode := None], {}, {}, map[])
    {
      facts := Facts(map[], map[globalCode := None], {}, {}, map[]);
      learned, state, entryState, exitState, worklist, inWorklist, guard := false, map[], [], [], [], [], 0;
    }

    ghost predicate Valid(n: nat)
      reads this
    {
      && |entryState| == n && |exitState| == n && |inWorklist| == n && Within(worklist, n) && NoDup(worklist)
      && forall b :: 0 <= b < n ==> (inWorklist[b] <==> b in worklist)
    }

    ghost function View(): Work
      reads this
    {
      Work(facts, entryState, exitState, worklist, guard)
    }

    // ------------------------------------------------------- one instruction

    function Tracked(reg: Reg): EnvValue
      reads this
    {
      if reg in state then state[reg] else Unknown
    }

    method Set(reg: Reg, v: EnvValue)
      modifies this`state
      ensures state == old(state)[reg := v]
    {
      state := state[reg := v];
    }

    method ClobberAll(regs: seq<Reg>)
      modifies this`state
      ensures state == Clobber(old(state), regs)
    {
      for k := 0 to |regs|
        invariant state == Clobber(old(state), regs[..k])
      {
        assert regs[..k + 1][..k] == regs[..k];
        Set(regs[k], Unknown);
      }
      assert regs[..|regs|] == regs;
    }

    method Up(start: Option<Node>, levels: nat) returns (v: EnvValue)
      ensures v == WalkUp(facts, start, levels)
    {
      var cur := start;
      var left: nat := levels;
      while left > 0
        invariant left <= levels && WalkUp(facts, start, levels) == WalkUp(facts, cur, left)
      {
        if cur.None? { return Unknown; }
        cur := if cur.value in facts.parent then facts.parent[cur.value] else None;
        left := left - 1;
      }
      v := if cur.None? then Unknown else Env(cur.value);
    }

    method NoteClosure(fn: Fn, env: EnvValue)
      modifies this`facts, this`learned
      ensures facts == Learn(old(facts), None, MakeClosure(0, [], 0, fn), map[0 := env])
      ensures learned <==> old(learned) || facts != old(facts)
    {
      if env.Env? {
        if fn !in facts.closureEnv {
          facts := facts.(closureEnv := facts.closureEnv[fn := Some(env.node)]);
          learned := true;
        } else if facts.closureEnv[fn] != Some(env.node) && fn !in facts.conflict {
          facts := facts.(conflict := facts.conflict + {fn});
          learned := true;
        }
      } else if env.NoEnv? && fn !in facts.noEnv {
        facts := facts.(noEnv := facts.noEnv + {fn});
        learned := true;
      }
    }

    method NoteParent(node: Node, parent: Option<Option<Node>>)
      modifies this`facts, this`learned
      ensures facts == if parent.Some? && node !in old(facts).parent then old(facts).(parent := old(facts).parent[node := parent.value]) else old(facts)
      ensures learned <==> old(learned) || facts != old(facts)
    {
      if parent.Some? && node !in facts.parent {
        facts := facts.(parent := facts.parent[node := parent.value]);
        learned := true;
      }
    }

    method NoteStore(env: Node, slot: Slot, val: EnvValue)
      modifies this`facts, this`learned
      ensures facts == Learn(old(facts), None, StoreSlot(0, slot, 1), map[0 := Env(env), 1 := val])
      ensures learned <==> old(learned) || facts != old(facts)
    {
      var key := (env, slot);
      if val.Env? {
        if key !in facts.slotEnv {
          facts := facts.(slotEnv := facts.slotEnv[key := Holds(val.node)]);
          learned := true;
        } else if facts.slotEnv[key] != Holds(val.node) && facts.slotEnv[key] != Conflict {
          facts := facts.(slotEnv := facts.slotEnv[key := Conflict]);
          learned := true;
        }
      } else if key in facts.slotEnv && facts.slotEnv[key] != Conflict {
        facts := facts.(slotEnv := facts.slotEnv[key := Conflict]);
        learned := true;
      }
    }

    /** applyTransfer: the register state and the facts move as Transfer and Learn say, and
        `learned` is set exactly when the facts moved. */
    method ApplyTransfer(self: Option<Option<Node>>, insn: EnvInsn)
      modifies this`facts, this`learned, this`state
      ensures facts == Learn(old(facts), self, insn, old(state))
      ensures state == Transfer(old(facts), self, insn, old(state))
      ensures learned <==> old(learned) || facts != old(facts)
    {
      match insn
      case CreateEnv(dst, node, source) =>
        var parent := None;
        match source {
          case Root => parent := Some(None);
          case OwnEnv => parent := self;
          case InReg(reg) =>
            var pv := Tracked(reg);
            parent := if pv.Env? then Some(Some(pv.node)) else if pv.NoEnv? then Some(None) else None;
        }
        NoteParent(node, parent);
        Set(dst, Env(node));
      case GetOwnEnv(dst, levels) =>
        var v := Up(Flat(self), levels);
        Set(dst, v);
      case GetEnvAbove(dst, src, levels) =>
        var start := Tracked(src);
        var v := Unknown;
        if start.Env? { v := Up(Some(start.node), levels); }
        Set(dst, v);
      case GetClosureEnv(dst, src) =>
        var c := Tracked(src);
        Set(dst, if c.Closure? && c.env.Some? then Env(c.env.value) else Unknown);
      case LoadUndefined(dst) => Set(dst, NoEnv);
      case Move(dst, src) => Set(dst, Tracked(src));
      case MakeClosure(dst, clobbered, env, fn) =>
        var ev := Tracked(env);
        NoteClosure(fn, ev);
        ClobberAll(clobbered);
        Set(dst, Closure(fn, if ev.Env? then Some(ev.node) else None));
      case LoadSlot(dst, env, slot) =>
        var ev := Tracked(env);
        if ev.Env? && (ev.node, slot) in facts.slotEnv && facts.slotEnv[(ev.node, slot)] != Conflict {
          Set(dst, Env(facts.slotEnv[(ev.node, slot)].node));
        } else {
          Set(dst, Unknown);
        }
      case StoreSlot(env, slot, val) =>
        var ev := Tracked(env);
        if ev.Env? { NoteStore(ev.node, slot, Tracked(val)); }
      case Other(writes) => ClobberAll(writes);
    }

    // ---------------------------------------------------------- the worklist

    method Enqueue(ghost n: nat, b: nat)
      requires Valid(n) && b < n
      modifies this`worklist, this`inWorklist
      ensures Valid(n) && worklist == Push(old(worklist), b)
    {
      if inWorklist[b] { return; }
      inWorklist := inWorklist[b := true];
      worklist := worklist + [b];
    }

    method Dequeue(ghost n: nat) returns (b: nat)
      requires Valid(n) && worklist != []
      modifies this`worklist, this`inWorklist
      ensures Valid(n) && b == old(worklist)[0] && worklist == old(worklist)[1..]
    {
      b := worklist[0];
      worklist := worklist[1..];
      inWorklist := inWorklist[b := false];
      assert old(worklist) == [b] + worklist;
    }

    method AbsorbInto(ghost n: nat, t: nat, s: State)
      requires Valid(n) && t < n
      modifies this`entryState, this`worklist, this`inWorklist
      ensures Valid(n) && View() == Absorb(old(View()), t, s)
    {
      var merged, changed := MergeState(entryState[t], s);
      assert !changed ==> entryState[t := merged] == entryState;
      entryState := entryState[t := merged];
      if changed { Enqueue(n, t); }
    }

    method AbsorbEach(ghost n: nat, ts: seq<nat>, s: State)
      requires Valid(n) && Within(ts, n)
      modifies this`entryState, this`worklist, this`inWorklist
      ensures Valid(n) && View() == AbsorbAll(old(View()), ts, s)
    {
      for k := 0 to |ts|
        invariant Valid(n) && View() == AbsorbAll(old(View()), ts[..k], s)
      {
        assert ts[..k + 1][..k] == ts[..k];
        AbsorbInto(n, ts[k], s);
      }
      assert ts[..|ts|] == ts;
    }

    /** One instruction of a visit to b, and what its handlers are owed after it. */
    method StepOver(g: Flow, self: Option<Option<Node>>, ghost w: Work, b: nat, k: nat)
      requires WellFormed(g) && Valid(|g.code|) && Fits(w, |g.code|) && b < |g.code| && k < |g.code[b]|
      requires (View(), state) == Walk(g, self, w, b, k)
      modifies this`facts, this`learned, this`state, this`entryState, this`worklist, this`inWorklist
      ensures Valid(|g.code|) && (View(), state) == Walk(g, self, w, b, k + 1)
      ensures FactsLe(old(facts), facts) && (learned <==> old(learned) || facts != old(facts))
    {
      ghost var view := View();
      LearnAscends(facts, self, g.code[b][k], state);
      ApplyTransfer(self, g.code[b][k]);
      assert View() == view.(facts := facts);
      AbsorbEach(|g.code|, g.handlers[b], state);
    }

    /** The instructions of b, with the handlers of b kept up to date at every boundary. */
    method WalkBlock(g: Flow, self: Option<Option<Node>>, b: nat)
      requires WellFormed(g) && Valid(|g.code|) && b < |g.code|
      modifies this`facts, this`learned, this`state, this`entryState, this`worklist, this`inWorklist
      ensures Valid(|g.code|) && (View(), state) == Walk(g, self, old(View()), b, |g.code[b]|)
      ensures FactsLe(old(facts), facts) && (learned <==> old(learned) || facts != old(facts))
    {
      ghost var w, start := View(), facts;
      state := entryState[b];
      AbsorbEach(|g.code|, g.handlers[b], state);
      for k := 0 to |g.code[b]|
        invariant Valid(|g.code|) && (View(), state) == Walk(g, self, w, b, k)
        invariant FactsLe(start, facts) && (learned <==> old(learned) || facts != start)
      {
        ghost var before := facts;
        StepOver(g, self, w, b, k);
        MovedOn(start, before, facts);
      }
    }

    /** One turn of the worklist. */
    method VisitNext(g: Flow, self: Option<Option<Node>>)
      requires WellFormed(g) && Valid(|g.code|) && worklist != []
      modifies this
      ensures Valid(|g.code|) && View() == Visit(g, self, old(View()))
      ensures learned <==> old(learned) || facts != old(facts)
    {
      guard := guard + 1;
      var b := Dequeue(|g.code|);
      assert b == old(View()).queue[0];
      assert View() == old(View()).(queue := old(View()).queue[1..], visits := old(View()).visits + 1);
      WalkBlock(g, self, b);
      Finish(g, b);
    }

    /** The exit of a visit. */
    method Finish(g: Flow, b: nat)
      requires WellFormed(g) && Valid(|g.code|) && b < |g.code|
      modifies this`exitState, this`entryState, this`worklist, this`inWorklist
      ensures Valid(|g.code|) && View() == Leave(g, old(View()), b, state)
    {
      var changed := state != exitState[b];
      if !changed && guard > |g.code| { return; }
      exitState := exitState[b := state];
      AbsorbEach(|g.code|, g.succs[b], state);
      AbsorbEach(|g.code|, g.resumes[b], state);
    }

    /** runFunction without its collection: the tables end as RunFlow says. */
    method RunFunction(g: Flow, f: Fn) returns (drained: bool)
      requires WellFormed(g)
      modifies this
      ensures View() == RunFlow(g, f, old(facts)) && (drained <==> worklist == [])
      ensures FactsLe(old(facts), facts) && (learned <==> facts != old(facts))
    {
      var self := SelfEnv(facts, f);
      ghost var n := |g.code|;
      ghost var start := facts;
      learned, state, guard := false, map[], 0;
      entryState, exitState := Blank(|g.code|), Blank(|g.code|);
      worklist, inWorklist := [], Unmarked(|g.code|);
      EnqueueOrder(g);
      StartIsRight(g, self, start);
      while worklist != []
        invariant Going(g, self, start) && Drain(g, self, start, View()) == RunFlow(g, f, start)
        decreases Budget(g) - guard
      {
        if guard >= Budget(g) { break; }
        Turn(g, self, start);
      }
      drained := worklist == [];
    }

    /** Between two turns of a run that started with `start`. */
    ghost predicate Going(g: Flow, self: Option<Option<Node>>, start: Facts)
      reads this
    {
      Valid(|g.code|) && Inv(g, self, start, View()) && (learned <==> facts != start)
    }

    method Turn(g: Flow, self: Option<Option<Node>>, ghost start: Facts)
      requires Going(g, self, start) && worklist != [] && guard < Budget(g)
      modifies this
      ensures Going(g, self, start) && guard == old(guard) + 1
      ensures Drain(g, self, start, View()) == Drain(g, self, start, old(View()))
    {
      ghost var before := View();
      VisitKeepsInv(g, self, start, before);
      DrainStep(g, self, start, before);
      VisitNext(g, self);
      MovedOn(start, before.facts, facts);
    }

    method EnqueueOrder(g: Flow)
      requires WellFormed(g) && Valid(|g.code|) && worklist == []
      modifies this`worklist, this`inWorklist
      ensures Valid(|g.code|) && worklist == PushAll([], g.rpo)
    {
      for k := 0 to |g.rpo|
        invariant Valid(|g.code|) && worklist == PushAll([], g.rpo[..k])
      {
        assert g.rpo[..k + 1][..k] == g.rpo[..k];
        Enqueue(|g.code|, g.rpo[k]);
      }
      assert g.rpo[..|g.rpo|] == g.rpo;
    }
  }

  function Unmarked(n: nat): (r: seq<bool>)
    ensures |r| == n && forall b :: 0 <= b < n ==> !r[b]
  {
    if n == 0 then [] else Unmarked(n - 1) + [false]
  }

  lemma DrainStep(g: Flow, self: Option<Option<Node>>, start: Facts, w: Work)
    requires Inv(g, self, start, w) && w.queue != [] && w.visits < Budget(g)
    ensures w.queue[0] < |g.code| && Inv(g, self, start, Visit(g, self, w))
    ensures Drain(g, self, start, w) == Drain(g, self, start, Visit(g, self, w))
  {
    VisitKeepsInv(g, self, start, w);
  }

  /** Facts that moved once do not come back. */
  lemma MovedOn(a: Facts, b: Facts, c: Facts)
    requires FactsLe(a, b) && FactsLe(b, c)
    ensures FactsLe(a, c) && (a == c ==> a == b)
  {
    FactsLeTransitive(a, b, c);
    if a == c { FactsLeAntisymmetric(a, b); }
  }
}
