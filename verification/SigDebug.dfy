// Debug-only instructions and the canonical signature form (src/deps/sig-normalise.ts:38-70):
// taking them out, with their labels moved to the next instruction and every offset that
// named one re-pointed, and exactly when the form stays the same.
module SigDebug {
  import opened CfgTypes
  import opened SigNormalise

  // ------------------------------------------------------------ where offsets land

  /** The instruction at an offset; past the end when there is none. */
  function IndexOf(insns: seq<SigInsn>, o: int): (r: nat)
    ensures r <= |insns| && (r < |insns| ==> insns[r].offset == o)
    ensures forall j {:trigger insns[j]} :: 0 <= j < r ==> insns[j].offset != o
    decreases |insns|
  {
    if insns == [] then 0
    else if insns[0].offset == o then 0
    else
      var r := IndexOf(insns[1..], o);
      assert forall j {:trigger insns[j]} :: 1 <= j < r + 1 ==> insns[j] == insns[1..][j - 1];
      r + 1
  }

  /** The first instruction from i on that is not debug-only. */
  function NextKept(insns: seq<SigInsn>, i: nat): (r: nat)
    requires i <= |insns|
    ensures i <= r <= |insns| && (r < |insns| ==> insns[r].class_ != DebugOp)
    ensures forall j {:trigger insns[j]} :: i <= j < r ==> insns[j].class_ == DebugOp
    decreases |insns| - i
  {
    if i == |insns| || insns[i].class_ != DebugOp then i else NextKept(insns, i + 1)
  }

  /** An offset moves to the next kept instruction, if there is one. */
  function Land(insns: seq<SigInsn>, o: int): int {
    var i := IndexOf(insns, o);
    if i < |insns| && NextKept(insns, i) < |insns| then insns[NextKept(insns, i)].offset else o
  }

  /** The labels that reach instruction i: its own, after those of the debug-only run before it. */
  function Carried(f: SigFunction, i: nat): seq<string>
    requires i < |f.insns|
    decreases i
  {
    (if i > 0 && f.insns[i - 1].class_ == DebugOp then Carried(f, i - 1) else []) + OwnLabel(f, f.insns[i])
  }

  /** The label of an offset once labels have moved. */
  function LabelAfter(f: SigFunction, o: int): Option<string> {
    var i := IndexOf(f.insns, o);
    if i == |f.insns| then LabelAt(f, o)
    else if f.insns[i].class_ != DebugOp then (if Carried(f, i) == [] then None else Some(Carried(f, i)[0]))
    else if NextKept(f.insns, i) < |f.insns| then None
    else LabelAt(f, o)
  }

  // ------------------------------------------------------------ the transformation

  function MovedLabels(f: SigFunction): map<int, string> {
    map o | o in f.labels.Keys + (set i | 0 <= i < |f.insns| :: f.insns[i].offset) && LabelAfter(f, o).Some? :: LabelAfter(f, o).value
  }

  function MoveTargets(insns: seq<SigInsn>, ts: seq<int>): (r: seq<int>)
    ensures |r| == |ts| && forall k :: 0 <= k < |r| ==> r[k] == Land(insns, ts[k])
  {
    if ts == [] then [] else MoveTargets(insns, ts[..|ts| - 1]) + [Land(insns, ts[|ts| - 1])]
  }

  function MoveCases(insns: seq<SigInsn>, cases: seq<SigCase>): (r: seq<SigCase>)
    ensures |r| == |cases| && forall k :: 0 <= k < |r| ==> r[k] == SigCase(cases[k].value, Land(insns, cases[k].target))
  {
    if cases == [] then [] else MoveCases(insns, cases[..|cases| - 1]) + [SigCase(cases[|cases| - 1].value, Land(insns, cases[|cases| - 1].target))]
  }

  function MoveTable(insns: seq<SigInsn>, t: Option<SigTable>): Option<SigTable> {
    if t.None? then None else Some(SigTable(t.value.ofStrings, Land(insns, t.value.defaultTarget), MoveCases(insns, t.value.cases)))
  }

  function Move(insns: seq<SigInsn>, x: SigInsn): SigInsn {
    x.(targets := MoveTargets(insns, x.targets), table := MoveTable(insns, x.table))
  }

  function MoveAll(insns: seq<SigInsn>, xs: seq<SigInsn>): (r: seq<SigInsn>)
    ensures |r| == |xs| && forall k {:trigger r[k]} {:trigger xs[k]} :: 0 <= k < |xs| ==> r[k] == Move(insns, xs[k])
  {
    if xs == [] then [] else MoveAll(insns, xs[..|xs| - 1]) + [Move(insns, xs[|xs| - 1])]
  }

  function MoveHandlers(insns: seq<SigInsn>, hs: seq<SigHandler>): (r: seq<SigHandler>)
    ensures |r| == |hs|
    ensures forall k {:trigger r[k]} {:trigger hs[k]} :: 0 <= k < |hs| ==>
              r[k] == SigHandler(Land(insns, hs[k].start), Land(insns, hs[k].end), Land(insns, hs[k].target))
  {
    if hs == [] then []
    else
      var h := hs[|hs| - 1];
      MoveHandlers(insns, hs[..|hs| - 1]) + [SigHandler(Land(insns, h.start), Land(insns, h.end), Land(insns, h.target))]
  }

  /** The function without its debug-only instructions: labels on them go to the next kept
      instruction, and so does every target, table entry and handler offset that names one. */
  function Dropped(f: SigFunction): SigFunction {
    f.(insns := MoveAll(f.insns, WithoutDebug(f.insns)), labels := MovedLabels(f), handlers := MoveHandlers(f.insns, f.handlers))
  }

  // -------------------------------------------------------------- labels, before and after

  lemma LabelMoved(f: SigFunction, o: int)
    ensures LabelAt(Dropped(f), o) == LabelAfter(f, o)
  {
    if LabelAfter(f, o).Some? && IndexOf(f.insns, o) < |f.insns| {
      assert f.insns[IndexOf(f.insns, o)].offset == o;
    }
  }

  lemma OwnIndex(f: SigFunction, i: nat)
    requires WellFormed(f) && i < |f.insns|
    ensures IndexOf(f.insns, f.insns[i].offset) == i
  {
  }

  /** A label is carried across the debug-only run behind it. */
  lemma {:induction false} CarriedAcross(f: SigFunction, i: nat, j: nat)
    requires i <= j < |f.insns| && forall k {:trigger f.insns[k]} :: i <= k < j ==> f.insns[k].class_ == DebugOp
    ensures |Carried(f, i)| <= |Carried(f, j)| && forall x :: x in Carried(f, i) ==> x in Carried(f, j)
    decreases j - i
  {
    if i < j { CarriedAcross(f, i, j - 1); }
  }

  /** No kept instruction is reached by two labels. */
  ghost predicate OneLabelEach(f: SigFunction) {
    forall i: nat {:trigger Carried(f, i)} :: i < |f.insns| && f.insns[i].class_ != DebugOp ==> |Carried(f, i)| <= 1
  }

  lemma OwnIsCarried(f: SigFunction, i: nat)
    requires i < |f.insns| && f.insns[i].offset in f.labels
    ensures f.labels[f.insns[i].offset] in Carried(f, i)
  {
    assert f.labels[f.insns[i].offset] in OwnLabel(f, f.insns[i]);
  }

  /** The one label that reaches j is the one of the offset that lands there. */
  lemma LandedLabel(f: SigFunction, i: nat, j: nat)
    requires WellFormed(f) && OneLabelEach(f) && i <= j < |f.insns| && f.insns[i].offset in f.labels && f.insns[j].class_ != DebugOp
    requires forall k {:trigger f.insns[k]} :: i <= k < j ==> f.insns[k].class_ == DebugOp
    ensures LabelAfter(f, f.insns[j].offset) == Some(f.labels[f.insns[i].offset])
  {
    OnlyLabel(f, i, j);
    OwnIndex(f, j);
  }

  lemma OnlyLabel(f: SigFunction, i: nat, j: nat)
    requires OneLabelEach(f) && i <= j < |f.insns| && f.insns[i].offset in f.labels && f.insns[j].class_ != DebugOp
    requires forall k {:trigger f.insns[k]} :: i <= k < j ==> f.insns[k].class_ == DebugOp
    ensures Carried(f, j) == [f.labels[f.insns[i].offset]]
  {
    OwnIsCarried(f, i);
    CarriedAcross(f, i, j);
    OneOf(Carried(f, j), f.labels[f.insns[i].offset]);
  }

  lemma OneOf(s: seq<string>, x: string)
    requires |s| <= 1 && x in s
    ensures s == [x]
  {
  }

  /** With one label each, a labelled offset lands where its label goes. */
  lemma LandKeepsLabel(f: SigFunction, o: int)
    requires WellFormed(f) && OneLabelEach(f) && o in f.labels
    ensures LabelAt(Dropped(f), Land(f.insns, o)) == LabelAt(f, o)
  {
    var i := IndexOf(f.insns, o);
    LabelMoved(f, Land(f.insns, o));
    if i < |f.insns| && NextKept(f.insns, i) < |f.insns| { LandedLabel(f, i, NextKept(f.insns, i)); }
  }

  // ---------------------------------------------------------- what is kept, before and after

  lemma {:induction false} PendingIsCarried(f: SigFunction, n: nat)
    requires n <= |f.insns|
    ensures KeptTo(f, n).1 == if n > 0 && f.insns[n - 1].class_ == DebugOp then Carried(f, n - 1) else []
    decreases n
  {
    if n > 0 { PendingIsCarried(f, n - 1); }
  }

  /** Kept instruction k is one of f's, with the labels carried to it. */
  lemma {:induction false} KeptAt(f: SigFunction, n: nat, k: nat) returns (i: nat)
    requires n <= |f.insns| && k < |KeptTo(f, n).0|
    ensures i < n && f.insns[i].class_ != DebugOp && KeptTo(f, n).0[k] == Kept(f.insns[i], Carried(f, i))
    decreases n
  {
    if k < |KeptTo(f, n - 1).0| {
      i := KeptAt(f, n - 1, k);
    } else {
      i := n - 1;
      PendingIsCarried(f, n - 1);
    }
  }

  /** ... and each of f's that is not debug-only is kept. */
  lemma {:induction false} KeptHas(f: SigFunction, n: nat, i: nat) returns (k: nat)
    requires i < n <= |f.insns| && f.insns[i].class_ != DebugOp
    ensures k < |KeptTo(f, n).0| && KeptTo(f, n).0[k] == Kept(f.insns[i], Carried(f, i))
    decreases n
  {
    if i < n - 1 {
      k := KeptHas(f, n - 1, i);
    } else {
      k := |KeptTo(f, n - 1).0|;
      PendingIsCarried(f, n - 1);
    }
  }

  /** Without debug-only instructions each is kept with its own label. */
  lemma {:induction false} AllKept(g: SigFunction, n: nat)
    requires n <= |g.insns| && forall i {:trigger g.insns[i]} :: 0 <= i < |g.insns| ==> g.insns[i].class_ != DebugOp
    ensures |KeptTo(g, n).0| == n && KeptTo(g, n).1 == []
    ensures forall k {:trigger KeptTo(g, n).0[k]} :: 0 <= k < n ==> KeptTo(g, n).0[k] == Kept(g.insns[k], OwnLabel(g, g.insns[k]))
    decreases n
  {
    if n > 0 { AllKept(g, n - 1); }
  }

  lemma DroppedHasNoDebug(f: SigFunction)
    ensures forall i {:trigger Dropped(f).insns[i]} :: 0 <= i < |Dropped(f).insns| ==> Dropped(f).insns[i].class_ != DebugOp
  {
    forall i | 0 <= i < |Dropped(f).insns| ensures Dropped(f).insns[i].class_ != DebugOp {
      assert WithoutDebug(f.insns)[i] in WithoutDebug(f.insns);
    }
  }

  lemma SameCount(f: SigFunction)
    ensures |KeptOf(Dropped(f))| == |KeptOf(f)|
  {
    DroppedHasNoDebug(f);
    AllKept(Dropped(f), |Dropped(f).insns|);
    KeptAreOthers(f, |f.insns|);
    assert f.insns[..|f.insns|] == f.insns;
  }

  lemma DroppedInsn(f: SigFunction, k: nat)
    requires k < |KeptOf(f)|
    ensures |KeptOf(Dropped(f))| == |KeptOf(f)| && k < |Dropped(f).insns| && Dropped(f).insns[k] == Move(f.insns, KeptOf(f)[k].insn)
    ensures KeptOf(Dropped(f))[k] == Kept(Dropped(f).insns[k], OwnLabel(Dropped(f), Dropped(f).insns[k]))
  {
    SameCount(f);
    DroppedHasNoDebug(f);
    AllKept(Dropped(f), |Dropped(f).insns|);
    KeptAreOthers(f, |f.insns|);
    assert f.insns[..|f.insns|] == f.insns;
    assert WithoutDebug(f.insns)[k] == InsnsOf(KeptOf(f))[k];
  }

  lemma DroppedLabel(f: SigFunction, i: nat, x: SigInsn)
    requires WellFormed(f) && i < |f.insns| && f.insns[i].class_ != DebugOp && x.offset == f.insns[i].offset
    ensures OwnLabel(Dropped(f), x) == if Carried(f, i) == [] then [] else [Carried(f, i)[0]]
  {
    OwnIndex(f, i);
    LabelMoved(f, x.offset);
  }

  /** Instruction by instruction: moved, with the first of the labels that reached it. */
  lemma KeptOfDropped(f: SigFunction, k: nat)
    requires WellFormed(f) && k < |KeptOf(f)|
    ensures |KeptOf(Dropped(f))| == |KeptOf(f)| && KeptOf(Dropped(f))[k].insn == Move(f.insns, KeptOf(f)[k].insn)
    ensures KeptOf(Dropped(f))[k].labels == if KeptOf(f)[k].labels == [] then [] else [KeptOf(f)[k].labels[0]]
  {
    DroppedInsn(f, k);
    var i := KeptAt(f, |f.insns|, k);
    DroppedLabel(f, i, Dropped(f).insns[k]);
  }

  lemma OthersOwnOffsets(f: SigFunction)
    requires WellFormed(f)
    ensures OwnOffsets(WithoutDebug(f.insns))
  {
    KeptAreOthers(f, |f.insns|);
    KeptOwnOffsets(f);
    assert f.insns[..|f.insns|] == f.insns;
  }

  lemma DroppedWellFormed(f: SigFunction)
    requires WellFormed(f)
    ensures WellFormed(Dropped(f))
  {
    var g := Dropped(f);
    DroppedHasNoDebug(f);
    OthersOwnOffsets(f);
    forall i | 0 <= i < |g.insns| && g.insns[i].class_ == LoadParamOp && |g.insns[i].operands| >= 2 ensures g.insns[i].operands[1].role == NumberRole {
      var x := WithoutDebug(f.insns)[i];
      assert x in f.insns;
      var k :| 0 <= k < |f.insns| && f.insns[k] == x;
    }
  }

  // ------------------------------------------------------------------------ the theorem

  /** The decoder labels every target: of jumps, of tables and of handlers. */
  ghost predicate TargetsLabelled(f: SigFunction) {
    && (forall i {:trigger f.insns[i]} :: 0 <= i < |f.insns| ==> InsnLabelled(f, f.insns[i]))
    && forall k {:trigger f.handlers[k]} :: 0 <= k < |f.handlers| ==> f.handlers[k].target in f.labels
  }

  predicate InsnLabelled(f: SigFunction, x: SigInsn) {
    && (x.targets != [] ==> x.targets[0] in f.labels)
    && (x.table.Some? ==> x.table.value.defaultTarget in f.labels && forall k :: 0 <= k < |x.table.value.cases| ==> x.table.value.cases[k].target in f.labels)
  }

  /** An unlabelled try boundary does not land on a label. */
  ghost predicate BoundariesLand(f: SigFunction) {
    forall k {:trigger f.handlers[k]} :: 0 <= k < |f.handlers| ==> LandsBare(f, f.handlers[k].start) && LandsBare(f, f.handlers[k].end)
  }

  predicate LandsBare(f: SigFunction, o: int) {
    o in f.labels || LabelAfter(f, Land(f.insns, o)) == None
  }

  lemma MovedSame(f: SigFunction, masked: map<int, MaskMode>, x: SigInsn)
    requires WellFormed(f) && OneLabelEach(f) && InsnLabelled(f, x)
    ensures SameInsn(f, Dropped(f), r => r, masked, x, Move(f.insns, x))
  {
    var y, g := Move(f.insns, x), Dropped(f);
    if x.targets != [] { LandSame(f, x.targets[0]); }
    if x.table.Some? { TableMoved(f, x.table.value); }
    forall k | 0 <= k < |x.operands| ensures SameOperand(f.mod, g.mod, r => r, x.operands[k], y.operands[k], Free(masked, x, k)) {}
  }

  lemma LandSame(f: SigFunction, o: int)
    requires WellFormed(f) && OneLabelEach(f) && o in f.labels
    ensures SameLabel(f, o, Dropped(f), Land(f.insns, o))
  {
    LandKeepsLabel(f, o);
  }

  lemma TableMoved(f: SigFunction, t: SigTable)
    requires WellFormed(f) && OneLabelEach(f) && t.defaultTarget in f.labels && forall k :: 0 <= k < |t.cases| ==> t.cases[k].target in f.labels
    ensures SameTable(f, Dropped(f), t, MoveTable(f.insns, Some(t)).value)
  {
    LandSame(f, t.defaultTarget);
    forall k | 0 <= k < |t.cases| ensures SameLabel(f, t.cases[k].target, Dropped(f), Land(f.insns, t.cases[k].target)) {
      LandSame(f, t.cases[k].target);
    }
  }

  lemma BoundarySame(f: SigFunction, o: int)
    requires WellFormed(f) && OneLabelEach(f) && LandsBare(f, o)
    ensures LabelAt(Dropped(f), Land(f.insns, o)) == LabelAt(f, o)
  {
    if o in f.labels { LandKeepsLabel(f, o); } else { LabelMoved(f, Land(f.insns, o)); }
  }

  lemma KeptLabels(f: SigFunction, k: nat)
    requires WellFormed(f) && OneLabelEach(f) && k < |KeptOf(f)|
    ensures |KeptOf(Dropped(f))| == |KeptOf(f)| && KeptOf(Dropped(f))[k].labels == KeptOf(f)[k].labels
  {
    KeptOfDropped(f, k);
    var i := KeptAt(f, |f.insns|, k);
    assert |Carried(f, i)| <= 1;
  }

  lemma KeptAlike(f: SigFunction, k: nat)
    requires WellFormed(f) && TargetsLabelled(f) && OneLabelEach(f) && k < |KeptOf(f)|
    ensures |KeptOf(Dropped(f))| == |KeptOf(f)| && KeptOf(Dropped(f))[k].labels == KeptOf(f)[k].labels
    ensures SameInsn(f, Dropped(f), r => r, MasksOf(f), KeptOf(f)[k].insn, KeptOf(Dropped(f))[k].insn)
  {
    KeptLabels(f, k);
    DroppedInsn(f, k);
    var x := KeptInsn(f, k);
    MovedSame(f, MasksOf(f), x);
  }

  lemma KeptInsn(f: SigFunction, k: nat) returns (x: SigInsn)
    requires TargetsLabelled(f) && k < |KeptOf(f)|
    ensures x == KeptOf(f)[k].insn && InsnLabelled(f, x)
  {
    var i := KeptAt(f, |f.insns|, k);
    x := f.insns[i];
  }

  lemma DroppedAlike(f: SigFunction)
    requires WellFormed(f) && TargetsLabelled(f) && OneLabelEach(f) && BoundariesLand(f)
    ensures Alike(f, Dropped(f), r => r)
  {
    var g := Dropped(f);
    SameCount(f);
    forall k | 0 <= k < |KeptOf(f)|
      ensures KeptOf(g)[k].labels == KeptOf(f)[k].labels && SameInsn(f, g, r => r, MasksOf(f), KeptOf(f)[k].insn, KeptOf(g)[k].insn)
    {
      KeptAlike(f, k);
    }
    forall k: nat | k < |f.handlers| ensures HandlerLooks(f, g, k) { HandlerAlike(f, k); }
  }

  lemma HandlerAlike(f: SigFunction, k: nat)
    requires WellFormed(f) && TargetsLabelled(f) && OneLabelEach(f) && BoundariesLand(f) && k < |f.handlers|
    ensures |Dropped(f).handlers| == |f.handlers| && HandlerLooks(f, Dropped(f), k)
  {
    BoundarySame(f, f.handlers[k].start);
    BoundarySame(f, f.handlers[k].end);
    LandKeepsLabel(f, f.handlers[k].target);
  }

  /** Line k shows the labels of kept instruction k. */
  lemma {:induction false} LineLabels(f: SigFunction, masked: map<int, MaskMode>, xs: seq<Kept>, n: nat, k: nat)
    requires k < n <= |xs|
    ensures |Lines(f, masked, xs, n).0| == n
    ensures var line := Lines(f, masked, xs, n).0[k]; (line.InsnLine? || line.SwitchLine?) && line.labels == xs[k].labels
    decreases n
  {
    if k < n - 1 { LineLabels(f, masked, xs, n - 1, k); } else if n > 1 { LineLabels(f, masked, xs, n - 1, 0); }
  }

  lemma LineCount(f: SigFunction, masked: map<int, MaskMode>, xs: seq<Kept>)
    ensures |Lines(f, masked, xs, |xs|).0| == |xs|
  {
    if xs != [] { LineLabels(f, masked, xs, |xs|, 0); }
  }

  /** One form means one set of lines: those of the instructions, and those of the handlers. */
  lemma FormParts(f: SigFunction, g: SigFunction)
    requires Normalised(g) == Normalised(f) && |KeptOf(g)| == |KeptOf(f)|
    ensures Lines(g, MasksOf(g), KeptOf(g), |KeptOf(g)|).0 == Lines(f, MasksOf(f), KeptOf(f), |KeptOf(f)|).0 && TryLines(g) == TryLines(f)
  {
    LineCount(f, MasksOf(f), KeptOf(f));
    LineCount(g, MasksOf(g), KeptOf(g));
    var a, b := Lines(f, MasksOf(f), KeptOf(f), |KeptOf(f)|).0, Lines(g, MasksOf(g), KeptOf(g), |KeptOf(g)|).0;
    assert Normalised(f)[1..1 + |a|] == a && Normalised(g)[1..1 + |b|] == b;
    assert Normalised(f)[1 + |a|..] == TryLines(f) && Normalised(g)[1 + |b|..] == TryLines(g);
  }

  lemma SameFormOneLabel(f: SigFunction)
    requires WellFormed(f) && Normalised(Dropped(f)) == Normalised(f)
    ensures OneLabelEach(f)
  {
    var g := Dropped(f);
    SameCount(f);
    FormParts(f, g);
    forall i: nat | i < |f.insns| && f.insns[i].class_ != DebugOp ensures |Carried(f, i)| <= 1 {
      var k := KeptHas(f, |f.insns|, i);
      KeptOfDropped(f, k);
      LineLabels(f, MasksOf(f), KeptOf(f), |KeptOf(f)|, k);
      LineLabels(g, MasksOf(g), KeptOf(g), |KeptOf(g)|, k);
    }
  }

  lemma SameFormBare(f: SigFunction)
    requires Normalised(Dropped(f)) == Normalised(f)
    ensures BoundariesLand(f)
  {
    var g := Dropped(f);
    SameCount(f);
    FormParts(f, g);
    forall k | 0 <= k < |f.handlers| ensures LandsBare(f, f.handlers[k].start) && LandsBare(f, f.handlers[k].end) {
      assert TryLines(g)[k] == TryLines(f)[k];
      LabelMoved(f, Land(f.insns, f.handlers[k].start));
      LabelMoved(f, Land(f.insns, f.handlers[k].end));
    }
  }

  /** Debug-only instructions are invisible, labelled or not, exactly when no instruction is
      left with two labels and no unlabelled try boundary with one. */
  lemma DebugInvisible(f: SigFunction)
    requires WellFormed(f) && TargetsLabelled(f)
    ensures Normalised(Dropped(f)) == Normalised(f) <==> OneLabelEach(f) && BoundariesLand(f)
  {
    if OneLabelEach(f) && BoundariesLand(f) {
      DroppedAlike(f);
      DroppedWellFormed(f);
      AlikeSameForm(f, Dropped(f), r => r);
    }
    if Normalised(Dropped(f)) == Normalised(f) {
      SameFormOneLabel(f);
      SameFormBare(f);
    }
  }

  // ------------------------------------------------------------------ two that show

  function Jumping(offset: int, target: int): SigInsn {
    SigInsn(offset, OtherOp, 0, [Operand(AddrRole, target)], [target], None)
  }

  function Pausing(offset: int): SigInsn {
    SigInsn(offset, DebugOp, 1, [], [], None)
  }

  function Plain(offset: int): SigInsn {
    SigInsn(offset, OtherOp, 2, [], [], None)
  }

  const NO_NAMES := SigModule(map[], map[], map[], map[], map[])

  /** A debug-only instruction that is jumped to, before one that is jumped to as well. */
  function TwiceLabelled(): SigFunction {
    SigFunction(0, "", [Jumping(0, 4), Jumping(2, 5), Pausing(4), Plain(5)], map[4 := "L1", 5 := "L2"], [], NO_NAMES)
  }

  /** A try range that starts behind a debug-only instruction that is jumped to. */
  function BareBoundary(): SigFunction {
    SigFunction(0, "", [Jumping(0, 2), Pausing(2), Plain(3), Plain(4)], map[2 := "L1", 4 := "L2"], [SigHandler(3, 4, 4)], NO_NAMES)
  }

  lemma TwiceFormed()
    ensures WellFormed(TwiceLabelled()) && TargetsLabelled(TwiceLabelled())
  {
    assert forall i {:trigger TwiceLabelled().insns[i]} :: 0 <= i < 4 ==> TwiceLabelled().insns[i].class_ != LoadParamOp;
  }

  lemma BareFormed()
    ensures WellFormed(BareBoundary()) && TargetsLabelled(BareBoundary())
  {
    assert forall i {:trigger BareBoundary().insns[i]} :: 0 <= i < 4 ==> BareBoundary().insns[i].class_ != LoadParamOp;
  }

  lemma TwiceCarried()
    ensures !OneLabelEach(TwiceLabelled())
  {
    var f := TwiceLabelled();
    assert Carried(f, 2) == ["L1"];
    assert Carried(f, 3) == ["L1", "L2"];
  }

  /** Two labels reach one instruction: the form shows both, and one after dropping. */
  lemma TwiceLabelledShows()
    ensures Normalised(Dropped(TwiceLabelled())) != Normalised(TwiceLabelled())
  {
    TwiceFormed();
    TwiceCarried();
    DebugInvisible(TwiceLabelled());
  }

  lemma BareLabel()
    ensures var f := BareBoundary(); LabelAfter(f, Land(f.insns, 3)) == Some("L1")
  {
    var f := BareBoundary();
    BareFormed();
    OwnIndex(f, 2);
    BareCarried();
  }

  lemma BareCarried()
    ensures Carried(BareBoundary(), 2) == ["L1"] && NextKept(BareBoundary().insns, 2) == 2
  {
    var f := BareBoundary();
    assert Carried(f, 1) == ["L1"];
    assert Carried(f, 2) == ["L1"] + [];
  }

  lemma BareLands()
    ensures !BoundariesLand(BareBoundary())
  {
    BareLabel();
    assert !LandsBare(BareBoundary(), BareBoundary().handlers[0].start);
  }

  /** A try boundary without a label lands on one: the form shows it only after dropping. */
  lemma BareBoundaryShows()
    ensures Normalised(Dropped(BareBoundary())) != Normalised(BareBoundary())
  {
    BareFormed();
    BareLands();
    DebugInvisible(BareBoundary());
  }
}
