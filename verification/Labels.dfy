// The label set (src/disasm/labels.ts): which offsets get a label, how labels are numbered,
// and why the straight-line analyses may keep their facts between two labels.
module Labels {
  import opened CfgTypes
  import opened SetOrder
  import opened Blocks
  import opened BlockFlow

  /** o is a target of one of the first n instructions. */
  ghost predicate FromInsns(insns: seq<Instruction>, n: nat, o: int)
    requires n <= |insns|
  {
    exists i :: 0 <= i < n && o in insns[i].targets
  }

  ghost predicate FromHandlers(handlers: seq<ExceptionHandler>, n: nat, o: int)
    requires n <= |handlers|
  {
    exists k :: 0 <= k < n && handlers[k].target == o
  }

  ghost predicate IsTarget(insns: seq<Instruction>, handlers: seq<ExceptionHandler>, o: int) {
    FromInsns(insns, |insns|, o) || FromHandlers(handlers, |handlers|, o)
  }

  lemma FromNextInsn(insns: seq<Instruction>, n: nat, o: int)
    requires n < |insns|
    ensures FromInsns(insns, n + 1, o) <==> FromInsns(insns, n, o) || o in insns[n].targets
  {
  }

  lemma FromNextHandler(handlers: seq<ExceptionHandler>, n: nat, o: int)
    requires n < |handlers|
    ensures FromHandlers(handlers, n + 1, o) <==> FromHandlers(handlers, n, o) || o == handlers[n].target
  {
  }

  method Targets(insns: seq<Instruction>, handlers: seq<ExceptionHandler>) returns (targets: set<int>)
    ensures forall o :: o in targets <==> IsTarget(insns, handlers, o)
  {
    targets := {};
    for i := 0 to |insns|
      invariant forall o :: o in targets <==> FromInsns(insns, i, o)
    {
      targets := targets + set t | t in insns[i].targets;
      forall o { FromNextInsn(insns, i, o); }
    }
    for k := 0 to |handlers|
      invariant forall o :: o in targets <==> FromInsns(insns, |insns|, o) || FromHandlers(handlers, k, o)
    {
      targets := targets + {handlers[k].target};
      forall o { FromNextHandler(handlers, k, o); }
    }
  }

  /** assignLabels: the n-th target in offset order is L<n>, counted from one; labels are
      modelled by their number. */
  method AssignLabels(insns: seq<Instruction>, handlers: seq<ExceptionHandler>) returns (labels: map<int, nat>)
    ensures forall o :: o in labels <==> IsTarget(insns, handlers, o)
    ensures forall o, p :: o in labels && p in labels ==> (o < p <==> labels[o] < labels[p])
    ensures forall n: nat {:trigger HasNumber(labels, n)} :: HasNumber(labels, n) <==> 1 <= n <= |labels|
  {
    var targets := Targets(insns, handlers);
    var sorted := Ascending(targets);
    labels := Numbered(sorted, |sorted|);
    NumberedRight(sorted, |sorted|);
    NumbersUsed(sorted, labels);
    NumberedInOrder(sorted, labels);
  }

  ghost predicate HasNumber(labels: map<int, nat>, n: nat) {
    exists o :: o in labels && labels[o] == n
  }

  function Numbered(sorted: seq<int>, n: nat): map<int, nat>
    requires n <= |sorted|
  {
    if n == 0 then map[] else Numbered(sorted, n - 1)[sorted[n - 1] := n]
  }

  ghost predicate NumberAt(sorted: seq<int>, m: map<int, nat>, k: nat)
    requires k < |sorted|
  {
    sorted[k] in m && m[sorted[k]] == k + 1
  }

  ghost predicate NumberedTo(sorted: seq<int>, n: nat, m: map<int, nat>)
    requires n <= |sorted|
  {
    && |m| == n && (forall k: nat {:trigger NumberAt(sorted, m, k)} :: k < n ==> NumberAt(sorted, m, k))
    && forall o {:trigger m[o]} :: o in m ==> 1 <= m[o] <= n && sorted[m[o] - 1] == o
  }

  lemma {:induction false} NumberedRight(sorted: seq<int>, n: nat)
    requires Ascends(sorted) && n <= |sorted|
    ensures NumberedTo(sorted, n, Numbered(sorted, n))
    decreases n
  {
    if n > 0 {
      NumberedRight(sorted, n - 1);
      NumberedNext(sorted, n - 1, Numbered(sorted, n - 1));
    }
  }

  lemma NotYetNumbered(sorted: seq<int>, n: nat, before: map<int, nat>)
    requires Ascends(sorted) && n < |sorted| && NumberedTo(sorted, n, before)
    ensures sorted[n] !in before
  {
    forall o | o in before ensures o < sorted[n] { assert sorted[before[o] - 1] == o; }
  }

  lemma NumberedNext(sorted: seq<int>, n: nat, before: map<int, nat>)
    requires Ascends(sorted) && n < |sorted| && NumberedTo(sorted, n, before)
    ensures NumberedTo(sorted, n + 1, before[sorted[n] := n + 1])
  {
    var m := before[sorted[n] := n + 1];
    NotYetNumbered(sorted, n, before);
    assert m.Keys == before.Keys + {sorted[n]};
    forall k: nat | k < n + 1 ensures NumberAt(sorted, m, k) {
      if k < n { assert NumberAt(sorted, before, k); }
    }
  }

  lemma NumbersUsed(sorted: seq<int>, m: map<int, nat>)
    requires NumberedTo(sorted, |sorted|, m)
    ensures forall x: nat {:trigger HasNumber(m, x)} :: HasNumber(m, x) <==> 1 <= x <= |m|
  {
    forall x: nat ensures HasNumber(m, x) <==> 1 <= x <= |m| {
      if 1 <= x <= |m| {
        var o := sorted[x - 1];
        assert NumberAt(sorted, m, x - 1);
        assert o in m && m[o] == x;
      }
      if o :| o in m && m[o] == x { assert 1 <= m[o] <= |m|; }
    }
  }

  lemma NumberedInOrder(sorted: seq<int>, m: map<int, nat>)
    requires Ascends(sorted) && NumberedTo(sorted, |sorted|, m)
    ensures forall o :: o in m <==> o in sorted
    ensures forall o, p :: o in m && p in m ==> (o < p <==> m[o] < m[p])
  {
    forall o ensures o in m <==> o in sorted {
      if o in m { assert sorted[m[o] - 1] == o; }
      if o in sorted {
        var k :| 0 <= k < |sorted| && sorted[k] == o;
        assert NumberAt(sorted, m, k);
      }
    }
  }

  /** A step that is not a fall-through lands on a target. */
  lemma StepLands(insns: seq<Instruction>, size: nat, at: map<int, nat>, i: nat, j: nat)
    requires Decoded(insns, size, at) && CanStep(insns, i, j) && (j != i + 1 || !insns[i].FallsThrough())
    ensures insns[j].offset in insns[i].targets
  {
    var a := insns[i];
    assert TargetsOk(a, at);
    if a.kind == Switch && insns[j].offset != a.switchTable.value.defaultTarget {
      var cases := a.switchTable.value.cases;
      var k :| 0 <= k < |cases| && cases[k].target == insns[j].offset;
      assert CaseTargets(cases)[k] == insns[j].offset;
      assert a.targets[k + 1] == insns[j].offset;
    }
  }

  /** Control only enters an instruction without a label by falling through from the one
      before it: every jump, every handler entry and every generator resume lands on a label. */
  lemma UnlabelledIsFallenInto(insns: seq<Instruction>, handlers: seq<ExceptionHandler>, size: nat, at: map<int, nat>, i: nat, j: nat)
    requires Decoded(insns, size, at) && CanStep(insns, i, j) && !IsTarget(insns, handlers, insns[j].offset)
    ensures j == i + 1 && insns[i].FallsThrough()
  {
    if j != i + 1 || !insns[i].FallsThrough() { StepLands(insns, size, at, i, j); }
  }
}
