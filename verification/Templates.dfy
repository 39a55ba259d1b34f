// The string-chain scanner (src/artifact/template-injections.ts:120-332): reaching
// definitions, flattening a chain into text and holes, and the quote pair around the holes.
module Templates {
  import opened CfgTypes

  type Reg = nat

  datatype RegDef =
    | StringDef(text: string)
    | PropDef(prop: string, base: Option<RegDef>)
    | AddDef(lhs: Option<RegDef>, rhs: Option<RegDef>)

  datatype Piece = Text(text: string) | Hole

  const MAX_PIECES := 64
  const MAX_CONTEXT_CHARS := 120
  const HOLE_CHAR: char := '\0'

  // ---------------------------------------------------------------------- flattening

  /** The leaves of a definition, left to right: text for a string, a hole for anything the
      scan cannot see through. */
  function Leaves(d: Option<RegDef>): (r: seq<Piece>)
    ensures |r| > 0
    decreases d
  {
    match d
    case None => [Hole]
    case Some(StringDef(t)) => [Text(t)]
    case Some(AddDef(l, r)) => Leaves(l) + Leaves(r)
    case Some(PropDef(_, _)) => [Hole]
  }

  /** flatten: appends the leaves, or gives up when there would be more than MAX_PIECES + 1. */
  method Flatten(d: Option<RegDef>, out0: seq<Piece>) returns (ok: bool, out: seq<Piece>)
    ensures ok <==> |out0| + |Leaves(d)| <= MAX_PIECES + 1
    ensures ok ==> out == out0 + Leaves(d)
    decreases d
  {
    out := out0;
    if |out| > MAX_PIECES { return false, out; }
    match d
    case None => return true, out + [Hole];
    case Some(StringDef(t)) => return true, out + [Text(t)];
    case Some(PropDef(_, _)) => return true, out + [Hole];
    case Some(AddDef(l, r)) =>
      ok, out := Flatten(l, out);
      if !ok { return; }
      ok, out := Flatten(r, out);
      assert out0 + Leaves(l) + Leaves(r) == out0 + (Leaves(l) + Leaves(r));
  }

  // ----------------------------------------------------------------------- the machine

  /** CallOp's `args` are this and the arguments when the call has a shape the scan decodes.
      Every other instruction writes its destination or, for stores and terminators, nothing. */
  datatype Insn =
    | LoadString(dst: Reg, text: Option<string>)
    | GetById(dst: Reg, base: Reg, prop: Option<string>)
    | Add(dst: Reg, lhs: Reg, rhs: Reg)
    | Mov(dst: Reg, src: Reg)
    | CallOp(dst: Reg, callee: Reg, args: Option<seq<Reg>>)
    | Def(dst: Reg)
    | Effect

  datatype Site = Site(offset: nat, target: bool, insn: Insn)

  /** NotString stands for every other JavaScript value. */
  datatype Val = Str(text: string) | NotString(id: int)

  type Regs = Reg -> Val

  function Written(insn: Insn): Option<Reg> {
    if insn.Effect? then None else Some(insn.dst)
  }

  /** What an instruction may leave in its destination: + on two strings concatenates, on
      anything else it may do whatever it likes. */
  ghost predicate Yields(insn: Insn, regs: Regs, v: Val) {
    match insn
    case LoadString(_, text) => text.Some? ==> v == Str(text.value)
    case Add(_, l, r) => Sum(regs(l), regs(r), v)
    case Mov(_, src) => v == regs(src)
    case _ => true
  }

  ghost predicate Executes(insn: Insn, regs: Regs, regs': Regs) {
    && (forall r: Reg {:trigger regs'(r)} :: Written(insn) != Some(r) ==> regs'(r) == regs(r))
    && (Written(insn).Some? ==> Yields(insn, regs, regs'(Written(insn).value)))
  }

  /** A frame: the next instruction and the registers. */
  datatype Frame = Frame(pc: nat, regs: Regs)

  /** An instruction falls through, or control reaches a label from anywhere. */
  ghost predicate Step(code: seq<Site>, a: Frame, b: Frame) {
    || (a.pc < |code| && b.pc == a.pc + 1 && Executes(code[a.pc].insn, a.regs, b.regs))
    || (b.pc < |code| && code[b.pc].target && b.regs == a.regs)
  }

  ghost predicate StepAt(code: seq<Site>, run: seq<Frame>, k: nat)
    requires 0 < k < |run|
  {
    Step(code, run[k - 1], run[k])
  }

  ghost predicate IsRun(code: seq<Site>, run: seq<Frame>) {
    |run| > 0 && run[0].pc == 0 && forall k: nat {:trigger StepAt(code, run, k)} :: 0 < k < |run| ==> StepAt(code, run, k)
  }

  // ----------------------------------------------------------------------- hole values

  /** The value register reg held before step `step` of a run. */
  datatype Origin = Origin(step: nat, reg: Reg)

  ghost predicate Earlier(origins: seq<Origin>, k: nat) {
    forall j :: 0 <= j < |origins| ==> origins[j].step <= k
  }

  /** The opaque leaves of what register r holds before step k, left to right: where each of
      them was written, or where the scan lost sight of it. A concatenation has the leaves of
      its operands and a copy those of its source; a known string has none. */
  ghost function Origins(code: seq<Site>, run: seq<Frame>, k: nat, r: Reg): (os: seq<Origin>)
    requires k < |run|
    ensures Earlier(os, k)
    decreases k
  {
    if k == 0 || (run[k].pc < |code| && code[run[k].pc].target) || run[k - 1].pc >= |code| then [Origin(k, r)]
    else
      var insn := code[run[k - 1].pc].insn;
      if Written(insn) != Some(r) then Origins(code, run, k - 1, r)
      else
        match insn
        case LoadString(_, text) => if text.Some? then [] else [Origin(k, r)]
        case Add(_, lhs, rhs) => Origins(code, run, k - 1, lhs) + Origins(code, run, k - 1, rhs)
        case Mov(_, src) => Origins(code, run, k - 1, src)
        case _ => [Origin(k, r)]
  }

  /** The run-time values at the origins. */
  ghost function ValuesAt(run: seq<Frame>, origins: seq<Origin>): (vs: seq<Val>)
    requires forall j :: 0 <= j < |origins| ==> origins[j].step < |run|
    ensures |vs| == |origins| && forall j :: 0 <= j < |vs| ==> vs[j] == run[origins[j].step].regs(origins[j].reg)
  {
    if origins == [] then []
    else
      var last := origins[|origins| - 1];
      ValuesAt(run, origins[..|origins| - 1]) + [run[last.step].regs(last.reg)]
  }

  ghost function HoleValues(code: seq<Site>, run: seq<Frame>, k: nat, r: Reg): seq<Val>
    requires k < |run|
  {
    ValuesAt(run, Origins(code, run, k, r))
  }

  // ------------------------------------------------------------- reaching definitions

  type Defs = map<Reg, RegDef>

  function DefOf(defs: Defs, r: Reg): Option<RegDef> {
    if r in defs then Some(defs[r]) else None
  }

  /** The definition an instruction leaves in its destination. */
  function NewDef(defs: Defs, insn: Insn): Option<RegDef> {
    match insn
    case LoadString(_, text) => if text.Some? then Some(StringDef(text.value)) else None
    case GetById(_, base, prop) => if prop.Some? then Some(PropDef(prop.value, DefOf(defs, base))) else None
    case Add(_, l, r) => Some(AddDef(DefOf(defs, l), DefOf(defs, r)))
    case Mov(_, src) => DefOf(defs, src)
    case _ => None
  }

  function Update(defs: Defs, insn: Insn): Defs {
    if Written(insn).None? then defs
    else if NewDef(defs, insn).Some? then defs[Written(insn).value := NewDef(defs, insn).value] else defs - {Written(insn).value}
  }

  function DefsAt(code: seq<Site>, i: nat): Defs
    requires i <= |code|
    decreases i
  {
    if i < |code| && code[i].target then map[] else if i == 0 then map[] else Update(DefsAt(code, i - 1), code[i - 1].insn)
  }

  /** v may be a + b: on two strings it is their concatenation. */
  ghost predicate Sum(a: Val, b: Val, v: Val) {
    a.Str? && b.Str? ==> v == Str(a.text + b.text)
  }

  /** v is what definition d computes when the leaves the scan cannot see through had the
      values `holes`, left to right. */
  ghost predicate Denotes(d: Option<RegDef>, v: Val, holes: seq<Val>)
    decreases d
  {
    match d
    case Some(StringDef(t)) => v == Str(t) && holes == []
    case Some(AddDef(l, r)) =>
      exists a, b, g, h :: Denotes(l, a, g) && Denotes(r, b, h) && holes == g + h && Sum(a, b, v)
    case _ => holes == [v]
  }

  /** The definition that reaches step k describes register r, with the values its leaves had. */
  ghost predicate DefHolds(code: seq<Site>, run: seq<Frame>, k: nat, r: Reg)
    requires k < |run| && run[k].pc <= |code|
  {
    Denotes(DefOf(DefsAt(code, run[k].pc), r), run[k].regs(r), HoleValues(code, run, k, r))
  }

  lemma OpaqueHolds(run: seq<Frame>, k: nat, r: Reg, d: Option<RegDef>)
    requires k < |run| && (d.None? || d.value.PropDef?)
    ensures Denotes(d, run[k].regs(r), ValuesAt(run, [Origin(k, r)]))
  {
    assert ValuesAt(run, [Origin(k, r)]) == [run[k].regs(r)];
  }

  lemma ValuesOfSum(run: seq<Frame>, a: seq<Origin>, b: seq<Origin>)
    requires forall j :: 0 <= j < |a| ==> a[j].step < |run|
    requires forall j :: 0 <= j < |b| ==> b[j].step < |run|
    ensures (forall j :: 0 <= j < |a + b| ==> (a + b)[j].step < |run|) && ValuesAt(run, a + b) == ValuesAt(run, a) + ValuesAt(run, b)
  {
  }

  lemma AddHolds(l: Option<RegDef>, r: Option<RegDef>, a: Val, b: Val, v: Val, g: seq<Val>, h: seq<Val>)
    requires Denotes(l, a, g) && Denotes(r, b, h) && Sum(a, b, v)
    ensures Denotes(Some(AddDef(l, r)), v, g + h)
  {
  }

  /** One instruction: the definition it leaves describes what it wrote. */
  lemma WrittenHolds(code: seq<Site>, run: seq<Frame>, j: nat, r: Reg)
    requires j + 1 < |run| && run[j].pc < |code| && run[j + 1].pc == run[j].pc + 1 && !(run[j + 1].pc < |code| && code[run[j + 1].pc].target)
    requires Executes(code[run[j].pc].insn, run[j].regs, run[j + 1].regs) && Written(code[run[j].pc].insn) == Some(r)
    requires forall q: Reg {:trigger DefHolds(code, run, j, q)} :: DefHolds(code, run, j, q)
    ensures DefHolds(code, run, j + 1, r)
  {
    var k, insn, defs := j + 1, code[run[j].pc].insn, DefsAt(code, run[j].pc);
    match insn
    case LoadString(_, text) => if text.None? { OpaqueHolds(run, k, r, None); }
    case GetById(_, base, prop) => OpaqueHolds(run, k, r, NewDef(defs, insn));
    case Add(_, lhs, rhs) =>
      assert DefHolds(code, run, j, lhs) && DefHolds(code, run, j, rhs);
      ValuesOfSum(run, Origins(code, run, j, lhs), Origins(code, run, j, rhs));
      AddHolds(DefOf(defs, lhs), DefOf(defs, rhs), run[j].regs(lhs), run[j].regs(rhs), run[k].regs(r),
               HoleValues(code, run, j, lhs), HoleValues(code, run, j, rhs));
    case Mov(_, src) => assert DefHolds(code, run, j, src);
    case CallOp(_, _, _) => OpaqueHolds(run, k, r, None);
    case Def(_) => OpaqueHolds(run, k, r, None);
    case Effect =>
  }

  /** In every run, every register is what its reaching definition says, computed from the
      values its opaque leaves had when they were written. */
  lemma {:induction false} DefsHold(code: seq<Site>, run: seq<Frame>, k: nat, r: Reg)
    requires IsRun(code, run) && k < |run| && run[k].pc <= |code|
    ensures DefHolds(code, run, k, r)
    decreases k
  {
    if k == 0 || (run[k].pc < |code| && code[run[k].pc].target) {
      OpaqueHolds(run, k, r, None);
    } else {
      assert StepAt(code, run, k);
      var j := k - 1;
      forall q: Reg ensures DefHolds(code, run, j, q) { DefsHold(code, run, j, q); }
      if Written(code[run[j].pc].insn) == Some(r) { WrittenHolds(code, run, j, r); } else { assert DefHolds(code, run, j, r); }
    }
  }

  // ------------------------------------------------------------ what a chain computes

  function HoleCount(ps: seq<Piece>): nat {
    if ps == [] then 0 else (if ps[0].Hole? then 1 else 0) + HoleCount(ps[1..])
  }

  ghost predicate AllStrings(vs: seq<Val>) {
    forall k :: 0 <= k < |vs| ==> vs[k].Str?
  }

  /** The pieces with each hole replaced by its value. */
  ghost function Filled(ps: seq<Piece>, holes: seq<Val>): string
    requires |holes| == HoleCount(ps) && AllStrings(holes)
    decreases |ps|
  {
    if ps == [] then ""
    else if ps[0].Hole? then holes[0].text + Filled(ps[1..], holes[1..])
    else ps[0].text + Filled(ps[1..], holes)
  }

  lemma {:induction false} HoleCountAppend(a: seq<Piece>, b: seq<Piece>)
    ensures HoleCount(a + b) == HoleCount(a) + HoleCount(b)
    decreases |a|
  {
    if a == [] {
      assert a + b == b;
    } else {
      HoleCountAppend(a[1..], b);
      assert (a + b)[1..] == a[1..] + b;
    }
  }

  lemma {:induction false} FilledAppend(a: seq<Piece>, b: seq<Piece>, g: seq<Val>, h: seq<Val>)
    requires |g| == HoleCount(a) && |h| == HoleCount(b) && AllStrings(g) && AllStrings(h)
    ensures HoleCount(a + b) == |g + h| && Filled(a + b, g + h) == Filled(a, g) + Filled(b, h)
    decreases |a|
  {
    HoleCountAppend(a, b);
    if a == [] {
      assert a + b == b && g + h == h;
    } else if a[0].Hole? {
      FilledAppend(a[1..], b, g[1..], h);
      assert (a + b)[1..] == a[1..] + b && (g + h)[1..] == g[1..] + h;
      Prefixed(g[0].text, Filled(a[1..], g[1..]), Filled(b, h));
    } else {
      FilledAppend(a[1..], b, g, h);
      assert (a + b)[1..] == a[1..] + b;
      Prefixed(a[0].text, Filled(a[1..], g), Filled(b, h));
    }
  }

  lemma Prefixed(p: string, s: string, t: string)
    ensures p + (s + t) == (p + s) + t
  {
  }

  /** What the flattened pieces say about a value. */
  ghost predicate Fills(ps: seq<Piece>, v: Val, holes: seq<Val>) {
    |holes| == HoleCount(ps) && (AllStrings(holes) ==> v == Str(Filled(ps, holes)))
  }

  lemma FillsJoin(p: seq<Piece>, q: seq<Piece>, a: Val, b: Val, v: Val, g: seq<Val>, h: seq<Val>)
    requires Fills(p, a, g) && Fills(q, b, h) && Sum(a, b, v)
    ensures Fills(p + q, v, g + h)
  {
    HoleCountAppend(p, q);
    if AllStrings(g + h) {
      assert forall k :: 0 <= k < |g| ==> g[k] == (g + h)[k];
      assert forall k :: 0 <= k < |h| ==> h[k] == (g + h)[|g| + k];
      FilledAppend(p, q, g, h);
    }
  }

  /** When every leaf is a string, a definition's value is its flattened pieces with the
      holes filled in. */
  lemma {:induction false} ChainIsConcatenation(d: Option<RegDef>, v: Val, holes: seq<Val>)
    requires Denotes(d, v, holes)
    ensures Fills(Leaves(d), v, holes)
    decreases d
  {
    match d
    case Some(AddDef(l, r)) =>
      var a, b, g, h :| Denotes(l, a, g) && Denotes(r, b, h) && holes == g + h && Sum(a, b, v);
      ChainIsConcatenation(l, a, g);
      ChainIsConcatenation(r, b, h);
      FillsJoin(Leaves(l), Leaves(r), a, b, v, g, h);
    case _ => LeafFilled(d, v, holes);
  }

  lemma LeafFilled(d: Option<RegDef>, v: Val, holes: seq<Val>)
    requires Denotes(d, v, holes) && !(d.Some? && d.value.AddDef?)
    ensures Fills(Leaves(d), v, holes)
  {
    var ps := Leaves(d);
    assert ps[1..] == [];
    assert HoleCount(ps) == if ps[0].Hole? then 1 else 0;
    if AllStrings(holes) {
      if ps[0].Hole? {
        assert holes[1..] == [] && Filled([], []) == "";
        assert Filled(ps, holes) == holes[0].text + "";
      } else {
        assert Filled(ps, holes) == ps[0].text + Filled(ps[1..], holes);
      }
    }
  }

  /** In every run that executes an Add: when the values its holes had are all strings, its
      result is the flattened pieces with those values in the holes. */
  lemma AddIsConcatenation(code: seq<Site>, run: seq<Frame>, k: nat, v: Val)
    requires IsRun(code, run) && k < |run| && run[k].pc < |code| && code[run[k].pc].insn.Add? && Yields(code[run[k].pc].insn, run[k].regs, v)
    ensures var insn := code[run[k].pc].insn;
      Fills(Leaves(NewDef(DefsAt(code, run[k].pc), insn)), v, HoleValues(code, run, k, insn.lhs) + HoleValues(code, run, k, insn.rhs))
  {
    var insn, defs := code[run[k].pc].insn, DefsAt(code, run[k].pc);
    DefsHold(code, run, k, insn.lhs);
    DefsHold(code, run, k, insn.rhs);
    var g, h := HoleValues(code, run, k, insn.lhs), HoleValues(code, run, k, insn.rhs);
    AddHolds(DefOf(defs, insn.lhs), DefOf(defs, insn.rhs), run[k].regs(insn.lhs), run[k].regs(insn.rhs), v, g, h);
    ChainIsConcatenation(NewDef(defs, insn), v, g + h);
  }

  /** In every run, a register whose reaching definition is a string constant holds it: the
      chunks of a template call are its actual arguments. */
  lemma ChunkIsText(code: seq<Site>, run: seq<Frame>, k: nat, r: Reg, text: string)
    requires IsRun(code, run) && k < |run| && run[k].pc < |code| && DefOf(DefsAt(code, run[k].pc), r) == Some(StringDef(text))
    ensures run[k].regs(r) == Str(text)
  {
    DefsHold(code, run, k, r);
  }

  // ------------------------------------------------------------------- the quote pair

  /** The pieces as one text, a marker character for each hole. */
  function Flat(ps: seq<Piece>): string {
    if ps == [] then "" else Flat(ps[..|ps| - 1]) + (if ps[|ps| - 1].Hole? then [HOLE_CHAR] else ps[|ps| - 1].text)
  }

  /** No text of the pieces holds the marker character itself. */
  ghost predicate NoMarkers(ps: seq<Piece>) {
    forall k {:trigger ps[k]} :: 0 <= k < |ps| && ps[k].Text? ==> HOLE_CHAR !in ps[k].text
  }

  /** Piece k is a hole, and its place in the text is i. */
  ghost predicate HoleAt(ps: seq<Piece>, k: nat, i: nat)
    requires k < |ps|
  {
    ps[k].Hole? && |Flat(ps[..k])| == i
  }

  ghost predicate SomeHoleAt(ps: seq<Piece>, i: nat) {
    exists k: nat :: k < |ps| && HoleAt(ps, k, i)
  }

  ghost predicate MarkersRight(ps: seq<Piece>) {
    forall i: nat {:trigger Flat(ps)[i]} :: i < |Flat(ps)| ==> (Flat(ps)[i] == HOLE_CHAR <==> SomeHoleAt(ps, i))
  }

  lemma {:induction false} MarkerIsHole(ps: seq<Piece>, i: nat)
    requires NoMarkers(ps) && i < |Flat(ps)|
    ensures Flat(ps)[i] == HOLE_CHAR <==> SomeHoleAt(ps, i)
    decreases |ps|
  {
    var n := |ps| - 1;
    var init, before := ps[..n], |Flat(ps[..n])|;
    forall k: nat | k < |ps| && HoleAt(ps, k, i) ensures k == n || SomeHoleAt(init, i) {
      if k < n { assert init[..k] == ps[..k] && HoleAt(init, k, i); }
    }
    if i < before {
      MarkerIsHole(init, i);
      forall k: nat | k < n && HoleAt(init, k, i) ensures HoleAt(ps, k, i) { assert init[..k] == ps[..k]; }
    } else {
      forall k: nat | k < n && HoleAt(init, k, i) ensures false { FlatGrows(init, k); }
      if ps[n].Hole? { assert HoleAt(ps, n, i); } else { assert Flat(ps)[i] == ps[n].text[i - before]; }
    }
  }

  /** Piece k stands in the text where the pieces before it end. */
  lemma {:induction false} PieceInFlat(ps: seq<Piece>, k: nat, j: nat)
    requires k < |ps| && ps[k].Text? && j < |ps[k].text|
    ensures |Flat(ps[..k])| + |ps[k].text| <= |Flat(ps)| && Flat(ps)[|Flat(ps[..k])| + j] == ps[k].text[j]
    decreases |ps|
  {
    var n := |ps| - 1;
    if k < n {
      PieceInFlat(ps[..n], k, j);
      assert ps[..n][..k] == ps[..k];
    }
  }

  /** No hole stands inside a text. */
  lemma HoleElsewhere(ps: seq<Piece>, k: nat, j: nat, m: nat)
    requires k < |ps| && m < |ps| && ps[k].Text? && j < |ps[k].text| && ps[m].Hole?
    ensures |Flat(ps[..m])| != |Flat(ps[..k])| + j
  {
    if m < k {
      FlatGrows(ps[..k], m);
      assert ps[..k][..m] == ps[..m];
    } else {
      PieceInFlat(ps[..m], k, j);
      assert ps[..m][..k] == ps[..k];
    }
  }

  /** The marker stands exactly where the holes are, if and only if no text holds it. */
  lemma MarkersAreHoles(ps: seq<Piece>)
    ensures MarkersRight(ps) <==> NoMarkers(ps)
  {
    if NoMarkers(ps) {
      forall i: nat | i < |Flat(ps)| ensures Flat(ps)[i] == HOLE_CHAR <==> SomeHoleAt(ps, i) { MarkerIsHole(ps, i); }
    }
    if MarkersRight(ps) {
      forall k | 0 <= k < |ps| && ps[k].Text? ensures HOLE_CHAR !in ps[k].text {
        if j: nat :| j < |ps[k].text| && ps[k].text[j] == HOLE_CHAR {
          PieceInFlat(ps, k, j);
          var m: nat :| m < |ps| && HoleAt(ps, m, |Flat(ps[..k])| + j);
          HoleElsewhere(ps, k, j, m);
        }
      }
    }
  }

  /** A hole takes room, so it stands before the end. */
  lemma {:induction false} FlatGrows(ps: seq<Piece>, k: nat)
    requires k < |ps|
    ensures |Flat(ps[..k])| + (if ps[k].Hole? then 1 else 0) <= |Flat(ps)|
    decreases |ps|
  {
    var n := |ps| - 1;
    if k < n {
      FlatGrows(ps[..n], k);
      assert ps[..n][..k] == ps[..k];
    }
  }

  /** A text that holds the character is counted as a hole: '\0' between quotes, and the
      search reports a pair that encloses none. */
  lemma MarkerInTextMisleads()
    ensures var ps := [Hole, Text(['\'', HOLE_CHAR, '\''])]; EnclosesHole(Flat(ps)) && !SomeHoleAt(ps, 2)
  {
    var ps := [Hole, Text(['\'', HOLE_CHAR, '\''])];
    assert ps[..1] == [Hole] && [Hole][..0] == [] && ps[..0] == [];
    assert Flat([Hole]) == Flat([]) + [HOLE_CHAR];
    assert Flat(ps) == [HOLE_CHAR, '\'', HOLE_CHAR, '\''];
    assert QuotePair(Flat(ps), '\'', 1, 3);
    var inside: string := [HOLE_CHAR];
    assert inside[..|inside| - 1] == "" && Markers("") == 0;
    assert Markers(inside) == 1;
    assert Flat(ps)[1 + 1..3] == inside;
  }

  method IndexOf(s: string, c: char, from: nat) returns (r: int)
    ensures r == -1 ==> forall k :: from <= k < |s| ==> s[k] != c
    ensures r != -1 ==> from <= r < |s| && s[r] == c && forall k :: from <= k < r ==> s[k] != c
  {
    var k := from;
    while k < |s|
      invariant from <= k && forall j :: from <= j < k && j < |s| ==> s[j] != c
    {
      if s[k] == c { return k; }
      k := k + 1;
    }
    return -1;
  }

  function Markers(s: string): nat {
    if s == "" then 0 else Markers(s[..|s| - 1]) + (if s[|s| - 1] == HOLE_CHAR then 1 else 0)
  }

  /** Two neighbouring quotes of one kind. */
  ghost predicate QuotePair(flat: string, q: char, a: nat, b: nat) {
    a < b < |flat| && flat[a] == q && flat[b] == q && forall k :: a < k < b ==> flat[k] != q
  }

  datatype Best = Best(quote: char, start: nat, end: nat, substitutions: nat)

  function Enclosed(flat: string, a: nat, b: nat): nat
    requires a < b < |flat|
  {
    Markers(flat[a + 1..b])
  }

  /** How many holes stand at the places from lo up to hi. */
  function HolesWithin(ps: seq<Piece>, lo: nat, hi: nat): nat {
    if ps == [] then 0
    else
      var init := ps[..|ps| - 1];
      HolesWithin(init, lo, hi) + (if ps[|ps| - 1].Hole? && lo <= |Flat(init)| < hi then 1 else 0)
  }

  lemma {:induction false} MarkersAppend(s: string, t: string)
    ensures Markers(s + t) == Markers(s) + Markers(t)
    decreases |t|
  {
    if t == "" {
      assert s + t == s;
    } else {
      MarkersAppend(s, t[..|t| - 1]);
      assert (s + t)[..|s + t| - 1] == s + t[..|t| - 1];
    }
  }

  lemma {:induction false} NoneMarked(s: string)
    requires HOLE_CHAR !in s
    ensures Markers(s) == 0
    decreases |s|
  {
    if s != "" { NoneMarked(s[..|s| - 1]); }
  }

  /** Every hole stands before the end of the text. */
  lemma {:induction false} HolesEnd(ps: seq<Piece>, lo: nat, hi: nat)
    requires hi >= |Flat(ps)|
    ensures HolesWithin(ps, lo, hi) == HolesWithin(ps, lo, |Flat(ps)|) && (lo >= |Flat(ps)| ==> HolesWithin(ps, lo, hi) == 0)
    decreases |ps|
  {
    if ps != [] {
      HolesEnd(ps[..|ps| - 1], lo, hi);
      HolesEnd(ps[..|ps| - 1], lo, |Flat(ps)|);
    }
  }

  /** Counting markers counts holes. */
  lemma {:induction false} MarkersCountHoles(ps: seq<Piece>, lo: nat, hi: nat)
    requires NoMarkers(ps) && lo <= hi <= |Flat(ps)|
    ensures Markers(Flat(ps)[lo..hi]) == HolesWithin(ps, lo, hi)
    decreases |ps|
  {
    if ps != [] {
      var init, m := ps[..|ps| - 1], |Flat(ps[..|ps| - 1])|;
      var last := if ps[|ps| - 1].Hole? then [HOLE_CHAR] else ps[|ps| - 1].text;
      var from, to := if lo < m then lo else m, if hi < m then hi else m;
      MarkersCountHoles(init, from, to);
      HolesCapped(init, lo, hi, from, to);
      SliceSplits(Flat(init), last, lo, hi, from, to);
      LastMarks(ps[|ps| - 1], last, lo, hi, m);
    }
  }

  lemma HolesCapped(ps: seq<Piece>, lo: nat, hi: nat, from: nat, to: nat)
    requires lo <= hi && from == (if lo < |Flat(ps)| then lo else |Flat(ps)|) && to == (if hi < |Flat(ps)| then hi else |Flat(ps)|)
    ensures HolesWithin(ps, lo, hi) == HolesWithin(ps, from, to)
  {
    HolesEnd(ps, lo, if hi < |Flat(ps)| then |Flat(ps)| else hi);
    HolesEnd(ps, from, |Flat(ps)|);
  }

  lemma SliceSplits(s: string, t: string, lo: nat, hi: nat, from: nat, to: nat)
    requires lo <= hi <= |s + t| && from == (if lo < |s| then lo else |s|) && to == (if hi < |s| then hi else |s|)
    ensures Markers((s + t)[lo..hi]) == Markers(s[from..to]) + Markers(t[lo - from..hi - to])
  {
    assert (s + t)[lo..hi] == s[from..to] + t[lo - from..hi - to];
    MarkersAppend(s[from..to], t[lo - from..hi - to]);
  }

  /** The last piece adds its own markers: one, for a hole inside the range. */
  lemma LastMarks(p: Piece, s: string, lo: nat, hi: nat, m: nat)
    requires s == (if p.Hole? then [HOLE_CHAR] else p.text) && (p.Text? ==> HOLE_CHAR !in p.text) && lo <= hi <= m + |s|
    ensures Markers(s[lo - (if lo < m then lo else m)..hi - (if hi < m then hi else m)]) == if p.Hole? && lo <= m < hi then 1 else 0
  {
    if p.Text? {
      NoneMarked(s[lo - (if lo < m then lo else m)..hi - (if hi < m then hi else m)]);
    } else if lo <= m < hi {
      assert s[0..1] == [HOLE_CHAR] && [HOLE_CHAR][..0] == "";
    }
  }

  /** What a pair encloses are the holes between its quotes, when no text holds the marker. */
  lemma EnclosedHoles(ps: seq<Piece>, a: nat, b: nat)
    requires NoMarkers(ps) && a < b < |Flat(ps)|
    ensures Enclosed(Flat(ps), a, b) == HolesWithin(ps, a + 1, b)
  {
    MarkersCountHoles(ps, a + 1, b);
  }

  /** (q, a) comes before (r, c): single quotes first, then by position. */
  predicate Before(q: char, a: nat, r: char, c: nat) {
    (q == '\'' && r == '"') || (q == r && a < c)
  }

  /** A pair that has been looked at when the search is at position `from` of quote q. */
  predicate Seen(r: char, c: nat, q: char, from: nat) {
    r in "'\"" && Before(r, c, q, from)
  }

  ghost predicate Candidate(flat: string, best: Best) {
    && best.quote in "'\"" && QuotePair(flat, best.quote, best.start, best.end)
    && best.substitutions == Enclosed(flat, best.start, best.end) > 0
  }

  ghost predicate BestSoFar(flat: string, best: Option<Best>, q: char, from: nat) {
    && (best.Some? ==> Candidate(flat, best.value) && Seen(best.value.quote, best.value.start, q, from))
    && forall r, c: nat, d: nat {:trigger QuotePair(flat, r, c, d)} :: QuotePair(flat, r, c, d) && Seen(r, c, q, from) ==> NotBetter(flat, best, r, c, d)
  }

  /** The pair encloses no more than the best one, and less when it comes first. */
  ghost predicate NotBetter(flat: string, best: Option<Best>, r: char, c: nat, d: nat)
    requires c < d < |flat|
  {
    match best
    case None => Enclosed(flat, c, d) == 0
    case Some(x) => Enclosed(flat, c, d) <= x.substitutions && (Before(r, c, x.quote, x.start) ==> Enclosed(flat, c, d) < x.substitutions)
  }

  lemma NextPair(flat: string, best: Option<Best>, q: char, start: nat, end: nat, from: nat, next: Option<Best>)
    requires q in "'\"" && BestSoFar(flat, best, q, from) && from <= start && QuotePair(flat, q, start, end) && forall k :: from <= k < start ==> flat[k] != q
    requires next == if Enclosed(flat, start, end) > 0 && (best.None? || Enclosed(flat, start, end) > best.value.substitutions)
                     then Some(Best(q, start, end, Enclosed(flat, start, end))) else best
    ensures BestSoFar(flat, next, q, start + 1)
  {
    forall r, c: nat, d: nat | QuotePair(flat, r, c, d) && Seen(r, c, q, start + 1) ensures NotBetter(flat, next, r, c, d) {
      if r == q && c == start { SameEnd(flat, q, start, end, d); }
      else { assert Seen(r, c, q, from); }
    }
  }

  lemma SameEnd(flat: string, q: char, a: nat, b: nat, d: nat)
    requires QuotePair(flat, q, a, b) && QuotePair(flat, q, a, d)
    ensures b == d
  {
  }

  /** The inner loop, for one kind of quote. */
  method SearchQuote(flat: string, q: char, best0: Option<Best>) returns (best: Option<Best>)
    requires q in "'\"" && BestSoFar(flat, best0, q, 0)
    ensures BestSoFar(flat, best, q, |flat|)
  {
    best := best0;
    var from := 0;
    while true
      invariant 0 <= from <= |flat| && BestSoFar(flat, best, q, from)
      decreases |flat| - from
    {
      var start := IndexOf(flat, q, from);
      if start < 0 { break; }
      var end := IndexOf(flat, q, start + 1);
      if end < 0 { break; }
      var inside := Enclosed(flat, start, end);
      ghost var before := best;
      if inside > 0 && (best.None? || inside > best.value.substitutions) { best := Some(Best(q, start, end, inside)); }
      NextPair(flat, before, q, start, end, from, best);
      from := start + 1;
    }
  }

  function ToText(s: string): string {
    if s == "" then "" else ToText(s[..|s| - 1]) + (if s[|s| - 1] == HOLE_CHAR then "${\U{2026}}" else [s[|s| - 1]])
  }

  function PrefixText(s: string): string {
    var t := ToText(s);
    if |t| <= MAX_CONTEXT_CHARS then t else "\U{2026}" + t[|t| - MAX_CONTEXT_CHARS..]
  }

  function SuffixText(s: string): string {
    var t := ToText(s);
    if |t| <= MAX_CONTEXT_CHARS then t else t[..MAX_CONTEXT_CHARS] + "\U{2026}"
  }

  datatype Injection = Injection(quote: char, prefix: string, suffix: string, substitutions: nat)

  /** Among the neighbouring same-quote pairs, best encloses the most holes, and is the first
      to do so. */
  ghost predicate IsBest(flat: string, best: Best) {
    && Candidate(flat, best)
    && forall r, c: nat, d: nat {:trigger QuotePair(flat, r, c, d)} :: r in "'\"" && QuotePair(flat, r, c, d) ==> NotBetter(flat, Some(best), r, c, d)
  }

  ghost predicate EnclosesHole(flat: string) {
    exists r, c: nat, d: nat {:trigger QuotePair(flat, r, c, d)} :: r in "'\"" && QuotePair(flat, r, c, d) && Enclosed(flat, c, d) > 0
  }

  ghost predicate InjectionAt(flat: string, best: Best, r: Injection) {
    IsBest(flat, best) && r == Injection(best.quote, PrefixText(flat[..best.start]), SuffixText(flat[best.end + 1..]), best.substitutions)
  }

  ghost predicate InjectionOf(ps: seq<Piece>, r: Injection) {
    exists best :: InjectionAt(Flat(ps), best, r)
  }

  /** findInjection. */
  method FindInjection(ps: seq<Piece>) returns (r: Option<Injection>)
    ensures r.Some? <==> HoleCount(ps) > 0 && EnclosesHole(Flat(ps))
    ensures r.Some? ==> InjectionOf(ps, r.value)
  {
    if HoleCount(ps) == 0 { return None; }
    var flat := Flat(ps);
    var best: Option<Best> := None;
    best := SearchQuote(flat, '\'', best);
    SwitchQuote(flat, best);
    best := SearchQuote(flat, '"', best);
    AllSeen(flat, best);
    if best.None? { return None; }
    assert IsBest(flat, best.value);
    r := Some(Injection(best.value.quote, PrefixText(flat[..best.value.start]), SuffixText(flat[best.value.end + 1..]), best.value.substitutions));
    assert InjectionAt(flat, best.value, r.value);
  }

  lemma SwitchQuote(flat: string, best: Option<Best>)
    requires BestSoFar(flat, best, '\'', |flat|)
    ensures BestSoFar(flat, best, '"', 0)
  {
    forall r, c: nat, d: nat | QuotePair(flat, r, c, d) && Seen(r, c, '"', 0) ensures NotBetter(flat, best, r, c, d) {
      assert Seen(r, c, '\'', |flat|);
    }
  }

  lemma AllSeen(flat: string, best: Option<Best>)
    requires BestSoFar(flat, best, '"', |flat|)
    ensures if best.Some? then IsBest(flat, best.value) && EnclosesHole(flat) else !EnclosesHole(flat)
  {
    forall r, c: nat, d: nat | r in "'\"" && QuotePair(flat, r, c, d) ensures NotBetter(flat, best, r, c, d) {
      assert Seen(r, c, '"', |flat|);
    }
  }

  /** The pair an injection is reported for has so many holes between its quotes, and no
      neighbouring same-quote pair has more. */
  ghost predicate MostHoles(ps: seq<Piece>, r: Injection, a: nat, b: nat) {
    && QuotePair(Flat(ps), r.quote, a, b) && HolesWithin(ps, a + 1, b) == r.substitutions > 0
    && forall q, c: nat, d: nat {:trigger QuotePair(Flat(ps), q, c, d)} :: q in "'\"" && QuotePair(Flat(ps), q, c, d) ==> HolesWithin(ps, c + 1, d) <= r.substitutions
  }

  lemma NoneHasMoreHoles(ps: seq<Piece>, best: Best, q: char, c: nat, d: nat)
    requires NoMarkers(ps) && IsBest(Flat(ps), best) && q in "'\"" && QuotePair(Flat(ps), q, c, d)
    ensures HolesWithin(ps, c + 1, d) <= best.substitutions
  {
    assert NotBetter(Flat(ps), Some(best), q, c, d);
    EnclosedHoles(ps, c, d);
  }

  lemma BestHasMostHoles(ps: seq<Piece>, best: Best, r: Injection)
    requires NoMarkers(ps) && IsBest(Flat(ps), best) && r.quote == best.quote && r.substitutions == best.substitutions
    ensures MostHoles(ps, r, best.start, best.end)
  {
    EnclosedHoles(ps, best.start, best.end);
    forall q, c: nat, d: nat | q in "'\"" && QuotePair(Flat(ps), q, c, d) ensures HolesWithin(ps, c + 1, d) <= r.substitutions {
      NoneHasMoreHoles(ps, best, q, c, d);
    }
  }

  lemma InjectionHasMostHoles(ps: seq<Piece>, r: Injection)
    requires NoMarkers(ps) && InjectionOf(ps, r)
    ensures exists a: nat, b: nat :: MostHoles(ps, r, a, b)
  {
    var best :| InjectionAt(Flat(ps), best, r);
    BestHasMostHoles(ps, best, r);
  }

  // --------------------------------------------------------------------- the scan

  /** The pieces of a template call: chunks at even positions, a hole between two of them.
      None when some chunk is not a string constant. */
  function TemplatePieces(defs: Defs, args: seq<Reg>): Option<seq<Piece>>
    decreases |args|
  {
    if |args| == 0 then Some([])
    else if !(DefOf(defs, args[0]).Some? && DefOf(defs, args[0]).value.StringDef?) then None
    else
      var chunk := Text(DefOf(defs, args[0]).value.text);
      if |args| == 1 then Some([chunk])
      else
        var rest := TemplatePieces(defs, args[2..]);
        if rest.Some? then Some([chunk, Hole] + rest.value) else None
  }

  predicate IsHermesConcat(d: Option<RegDef>) {
    d.Some? && d.value.PropDef? && d.value.prop == "concat"
    && d.value.base.Some? && d.value.base.value.PropDef? && d.value.base.value.prop == "HermesInternal"
  }

  predicate HasText(ps: seq<Piece>) {
    exists k :: 0 <= k < |ps| && ps[k].Text?
  }

  /** The pieces a site is searched with, if it qualifies. */
  function SitePieces(defs: Defs, insn: Insn): Option<seq<Piece>> {
    match insn
    case CallOp(_, callee, args) =>
      if args.Some? && |args.value| >= 3 && |args.value| % 2 == 1 && IsHermesConcat(DefOf(defs, callee)) then
        var ps := TemplatePieces(defs, args.value);
        if ps.Some? && |ps.value| <= MAX_PIECES then ps else None
      else None
    case Add(_, _, _) =>
      var ps := Leaves(NewDef(defs, insn));
      if |ps| <= MAX_PIECES + 1 && HasText(ps) && HoleCount(ps) > 0 then Some(ps) else None
    case _ => None
  }

  datatype Row = Row(offset: nat, isTemplate: bool, found: Injection, nSubs: nat)

  ghost predicate RowAt(code: seq<Site>, i: nat, row: Row)
    requires i < |code|
  {
    var ps := SitePieces(DefsAt(code, i), code[i].insn);
    ps.Some? && HoleCount(ps.value) > 0 && row.offset == code[i].offset && row.isTemplate == code[i].insn.CallOp?
    && row.nSubs == HoleCount(ps.value) && InjectionOf(ps.value, row.found)
  }

  ghost predicate Qualifies(code: seq<Site>, i: nat)
    requires i < |code|
  {
    var ps := SitePieces(DefsAt(code, i), code[i].insn);
    ps.Some? && HoleCount(ps.value) > 0 && EnclosesHole(Flat(ps.value))
  }

  /** One row for every qualifying site among the first n, in order, and right about it. */
  ghost predicate RowsTo(code: seq<Site>, n: nat, rows: seq<Row>)
    requires n <= |code|
    decreases n
  {
    if n == 0 then rows == []
    else if Qualifies(code, n - 1) then |rows| > 0 && RowAt(code, n - 1, rows[|rows| - 1]) && RowsTo(code, n - 1, rows[..|rows| - 1])
    else RowsTo(code, n - 1, rows)
  }

  method PiecesOfSite(defs: Defs, insn: Insn) returns (ps: Option<seq<Piece>>)
    ensures ps == SitePieces(defs, insn)
  {
    match insn
    case CallOp(_, callee, args) =>
      if args.None? || |args.value| < 3 || |args.value| % 2 != 1 || !IsHermesConcat(DefOf(defs, callee)) { return None; }
      var found := TemplatePieces(defs, args.value);
      if found.None? || |found.value| > MAX_PIECES { return None; }
      return found;
    case Add(_, l, r) =>
      var ok, out := Flatten(Some(AddDef(DefOf(defs, l), DefOf(defs, r))), []);
      if !ok { return None; }
      assert out == Leaves(NewDef(defs, insn));
      if !HasText(out) || HoleCount(out) == 0 { return None; }
      return Some(out);
    case _ => return None;
  }

  method ScanSite(code: seq<Site>, i: nat, defs: Defs, rows0: seq<Row>) returns (rows: seq<Row>)
    requires i < |code| && defs == DefsAt(code, i) && RowsTo(code, i, rows0)
    ensures RowsTo(code, i + 1, rows)
  {
    rows := rows0;
    var ps := PiecesOfSite(defs, code[i].insn);
    if ps.None? { return; }
    var found := FindInjection(ps.value);
    if found.None? { return; }
    rows := rows + [Row(code[i].offset, code[i].insn.CallOp?, found.value, HoleCount(ps.value))];
    assert rows[..|rows| - 1] == rows0;
  }

  /** scanFunction. */
  method ScanFunction(code: seq<Site>) returns (rows: seq<Row>)
    ensures RowsTo(code, |code|, rows)
  {
    rows := [];
    var defs: Defs := map[];
    for i := 0 to |code|
      invariant i == |code| || !code[i].target ==> defs == DefsAt(code, i)
      invariant RowsTo(code, i, rows)
    {
      if code[i].target { defs := map[]; }
      rows := ScanSite(code, i, defs, rows);
      defs := Update(defs, code[i].insn);
    }
  }
}
