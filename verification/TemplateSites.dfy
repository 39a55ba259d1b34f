// What the string-chain scanner's rows are about, read off the runs: which calls count as a
// template, what they concatenate, and what stands around the quotes a row reports.
module TemplateSites {
  import opened CfgTypes
  import opened Templates

  // ------------------------------------------------------- where a value comes from

  /** The step of the run that made what register r holds before step k, copies followed; None
      when that was before the last label. */
  ghost function Source(code: seq<Site>, run: seq<Frame>, k: nat, r: Reg): (s: Option<nat>)
    requires k < |run|
    ensures s.Some? ==> s.value < k && run[s.value].pc < |code| && Written(code[run[s.value].pc].insn).Some?
    decreases k
  {
    if k == 0 || (run[k].pc < |code| && code[run[k].pc].target) || run[k - 1].pc >= |code| then None
    else
      var insn := code[run[k - 1].pc].insn;
      if Written(insn) != Some(r) then Source(code, run, k - 1, r)
      else if insn.Mov? then Source(code, run, k - 1, insn.src)
      else Some(k - 1)
  }

  ghost predicate MadeAt(code: seq<Site>, run: seq<Frame>, k: nat, r: Reg, j: nat)
    requires k < |run|
  {
    Source(code, run, k, r) == Some(j)
  }

  ghost predicate SourceRight(code: seq<Site>, run: seq<Frame>, k: nat, r: Reg)
    requires k < |run| && run[k].pc <= |code|
  {
    var d := DefOf(DefsAt(code, run[k].pc), r);
    match Source(code, run, k, r)
    case None => d == None
    case Some(j) =>
      var insn := code[run[j].pc].insn;
      !insn.Mov? && d == NewDef(DefsAt(code, run[j].pc), insn) && run[j + 1].regs(Written(insn).value) == run[k].regs(r)
  }

  /** The definition that reaches a register is the one made where its value was. */
  lemma {:induction false} DefIsSource(code: seq<Site>, run: seq<Frame>, k: nat, r: Reg)
    requires IsRun(code, run) && k < |run| && run[k].pc <= |code|
    ensures SourceRight(code, run, k, r)
    decreases k
  {
    if !(k == 0 || (run[k].pc < |code| && code[run[k].pc].target)) {
      assert StepAt(code, run, k);
      var insn := code[run[k - 1].pc].insn;
      DefIsSource(code, run, k - 1, if Written(insn) == Some(r) && insn.Mov? then insn.src else r);
    }
  }

  /** A value the instruction may leave. */
  function Left(insn: Insn, regs: Regs): Val {
    match insn
    case LoadString(_, text) => if text.Some? then Str(text.value) else NotString(0)
    case Add(_, l, r) => if regs(l).Str? && regs(r).Str? then Str(regs(l).text + regs(r).text) else NotString(0)
    case Mov(_, src) => regs(src)
    case _ => NotString(0)
  }

  /** Every site is reached by some run. */
  lemma {:induction false} RunTo(code: seq<Site>, i: nat) returns (run: seq<Frame>)
    requires i <= |code|
    ensures IsRun(code, run) && run[|run| - 1].pc == i
    decreases i
  {
    if i == 0 { return [Frame(0, r => NotString(0))]; }
    var before := RunTo(code, i - 1);
    var last, insn := before[|before| - 1], code[i - 1].insn;
    var regs: Regs := (r: Reg) => if Written(insn) == Some(r) then Left(insn, last.regs) else last.regs(r);
    run := before + [Frame(i, regs)];
    forall k: nat | 0 < k < |run| ensures StepAt(code, run, k) {
      if k < |before| { assert StepAt(code, before, k); }
    }
  }

  // ------------------------------------------------------------- the callee and the chunks

  /** Step j read property `name` into what r holds before step k. */
  ghost predicate ReadAs(code: seq<Site>, run: seq<Frame>, k: nat, r: Reg, name: string, j: nat)
    requires k < |run|
  {
    MadeAt(code, run, k, r, j) && j < k && code[run[j].pc].insn.GetById? && code[run[j].pc].insn.prop == Some(name)
  }

  /** r holds what was read as `concat` off what was read as `HermesInternal`. */
  ghost predicate HoldsConcat(code: seq<Site>, run: seq<Frame>, k: nat, r: Reg)
    requires k < |run|
  {
    exists j: nat, i: nat :: ReadAs(code, run, k, r, "concat", j) && ReadAs(code, run, j, code[run[j].pc].insn.base, "HermesInternal", i)
  }

  /** r holds a string constant that was loaded as `text`. */
  ghost predicate HoldsLoaded(code: seq<Site>, run: seq<Frame>, k: nat, r: Reg, text: string)
    requires k < |run|
  {
    exists j: nat :: MadeAt(code, run, k, r, j) && j < k && code[run[j].pc].insn.LoadString? && code[run[j].pc].insn.text == Some(text)
  }

  lemma ConcatIffRead(code: seq<Site>, run: seq<Frame>, k: nat, r: Reg)
    requires IsRun(code, run) && k < |run| && run[k].pc <= |code|
    ensures IsHermesConcat(DefOf(DefsAt(code, run[k].pc), r)) <==> HoldsConcat(code, run, k, r)
  {
    DefIsSource(code, run, k, r);
    var s := Source(code, run, k, r);
    if s.Some? && code[run[s.value].pc].insn.GetById? {
      var j, base := s.value, code[run[s.value].pc].insn.base;
      DefIsSource(code, run, j, base);
      var t := Source(code, run, j, base);
      if IsHermesConcat(DefOf(DefsAt(code, run[k].pc), r)) {
        assert ReadAs(code, run, k, r, "concat", j) && ReadAs(code, run, j, base, "HermesInternal", t.value);
      }
    }
  }

  lemma TextIffLoaded(code: seq<Site>, run: seq<Frame>, k: nat, r: Reg, text: string)
    requires IsRun(code, run) && k < |run| && run[k].pc <= |code|
    ensures DefOf(DefsAt(code, run[k].pc), r) == Some(StringDef(text)) <==> HoldsLoaded(code, run, k, r, text)
  {
    DefIsSource(code, run, k, r);
    var s := Source(code, run, k, r);
    if DefOf(DefsAt(code, run[k].pc), r) == Some(StringDef(text)) { assert MadeAt(code, run, k, r, s.value); }
  }

  // ---------------------------------------------------------------- pieces of a call

  ghost predicate ChunkAt(defs: Defs, args: seq<Reg>, i: nat)
    requires i < |args|
  {
    DefOf(defs, args[i]).Some? && DefOf(defs, args[i]).value.StringDef?
  }

  /** Piece i of a call is the constant in argument i, or a hole when i is odd. */
  ghost predicate PieceAt(defs: Defs, args: seq<Reg>, ps: seq<Piece>, i: nat)
    requires i < |args| == |ps|
  {
    if i % 2 == 1 then ps[i] == Hole
    else ChunkAt(defs, args, i) && ps[i] == Text(DefOf(defs, args[i]).value.text)
  }

  ghost predicate Odd(n: nat) {
    n % 2 == 1
  }

  ghost predicate AllChunks(defs: Defs, args: seq<Reg>) {
    forall i: nat {:trigger ChunkAt(defs, args, i)} :: i < |args| && i % 2 == 0 ==> ChunkAt(defs, args, i)
  }

  lemma AllChunksNext(defs: Defs, args: seq<Reg>)
    requires |args| > 1
    ensures AllChunks(defs, args) <==> ChunkAt(defs, args, 0) && AllChunks(defs, args[2..])
  {
    var rest := args[2..];
    if AllChunks(defs, args) {
      forall i: nat | i < |rest| && i % 2 == 0 ensures ChunkAt(defs, rest, i) { assert ChunkAt(defs, args, i + 2); }
    }
    if ChunkAt(defs, args, 0) && AllChunks(defs, rest) {
      forall i: nat | i < |args| && i % 2 == 0 ensures ChunkAt(defs, args, i) {
        if i >= 2 { assert ChunkAt(defs, rest, i - 2); }
      }
    }
  }

  /** A call with an odd number of arguments has pieces exactly when every even one is a
      constant: as many pieces as arguments, each as it should be. */
  lemma {:induction false} PiecesOfCall(defs: Defs, args: seq<Reg>)
    requires Odd(|args|)
    ensures TemplatePieces(defs, args).Some? <==> AllChunks(defs, args)
    ensures TemplatePieces(defs, args).Some? ==> var ps := TemplatePieces(defs, args).value;
      |ps| == |args| && forall i: nat {:trigger PieceAt(defs, args, ps, i)} :: i < |args| ==> PieceAt(defs, args, ps, i)
    decreases |args|
  {
    if |args| == 1 {
      assert TemplatePieces(defs, args).Some? <==> ChunkAt(defs, args, 0);
    } else {
      PiecesOfCall(defs, args[2..]);
      AllChunksNext(defs, args);
      if TemplatePieces(defs, args).Some? { PiecesShift(defs, args); }
    }
  }

  lemma PiecesShift(defs: Defs, args: seq<Reg>)
    requires |args| > 1 && TemplatePieces(defs, args).Some? && TemplatePieces(defs, args[2..]).Some? && |TemplatePieces(defs, args[2..]).value| == |args| - 2
    requires var ps := TemplatePieces(defs, args[2..]).value;
      forall i: nat {:trigger PieceAt(defs, args[2..], ps, i)} :: i < |args| - 2 ==> PieceAt(defs, args[2..], ps, i)
    ensures var ps := TemplatePieces(defs, args).value;
      |ps| == |args| && forall i: nat {:trigger PieceAt(defs, args, ps, i)} :: i < |args| ==> PieceAt(defs, args, ps, i)
  {
    var ps, rest := TemplatePieces(defs, args).value, TemplatePieces(defs, args[2..]).value;
    forall i: nat | i < |args| ensures PieceAt(defs, args, ps, i) {
      if i >= 2 { assert PieceAt(defs, args[2..], rest, i - 2); }
    }
  }

  /** Reaching step k, argument i of the call is a constant that was loaded. */
  ghost predicate ChunkLoaded(code: seq<Site>, run: seq<Frame>, k: nat, args: seq<Reg>, i: nat)
    requires k < |run| && i < |args|
  {
    exists text :: HoldsLoaded(code, run, k, args[i], text)
  }

  ghost predicate CallQualifies(code: seq<Site>, run: seq<Frame>, k: nat, callee: Reg, args: Option<seq<Reg>>)
    requires k < |run|
  {
    args.Some? && 3 <= |args.value| <= MAX_PIECES && Odd(|args.value|) && HoldsConcat(code, run, k, callee) && AllLoaded(code, run, k, args.value)
  }

  ghost predicate AllLoaded(code: seq<Site>, run: seq<Frame>, k: nat, args: seq<Reg>)
    requires k < |run|
  {
    forall i: nat {:trigger ChunkLoaded(code, run, k, args, i)} :: i < |args| && i % 2 == 0 ==> ChunkLoaded(code, run, k, args, i)
  }

  lemma ChunkIffLoaded(code: seq<Site>, run: seq<Frame>, k: nat, args: seq<Reg>, i: nat)
    requires IsRun(code, run) && k < |run| && run[k].pc <= |code| && i < |args|
    ensures ChunkAt(DefsAt(code, run[k].pc), args, i) <==> ChunkLoaded(code, run, k, args, i)
  {
    var d := DefOf(DefsAt(code, run[k].pc), args[i]);
    if ChunkAt(DefsAt(code, run[k].pc), args, i) { TextIffLoaded(code, run, k, args[i], d.value.text); }
    if text :| HoldsLoaded(code, run, k, args[i], text) { TextIffLoaded(code, run, k, args[i], text); }
  }

  lemma ChunksIffLoaded(code: seq<Site>, run: seq<Frame>, k: nat, args: seq<Reg>)
    requires IsRun(code, run) && k < |run| && run[k].pc <= |code|
    ensures AllChunks(DefsAt(code, run[k].pc), args) <==> AllLoaded(code, run, k, args)
  {
    var defs := DefsAt(code, run[k].pc);
    if AllChunks(defs, args) {
      forall i: nat | i < |args| && i % 2 == 0 ensures ChunkLoaded(code, run, k, args, i) {
        assert ChunkAt(defs, args, i);
        ChunkIffLoaded(code, run, k, args, i);
      }
    }
    if AllLoaded(code, run, k, args) {
      forall i: nat | i < |args| && i % 2 == 0 ensures ChunkAt(defs, args, i) {
        assert ChunkLoaded(code, run, k, args, i);
        ChunkIffLoaded(code, run, k, args, i);
      }
    }
  }

  lemma CallHasPieces(defs: Defs, insn: Insn)
    requires insn.CallOp?
    ensures SitePieces(defs, insn).Some? <==>
      (insn.args.Some? && 3 <= |insn.args.value| <= MAX_PIECES && Odd(|insn.args.value|)
       && IsHermesConcat(DefOf(defs, insn.callee)) && AllChunks(defs, insn.args.value))
  {
    if insn.args.Some? && Odd(|insn.args.value|) { PiecesOfCall(defs, insn.args.value); }
  }

  /** A call is searched as a template if and only if, in any run that reaches it, it calls what
      was read as HermesInternal.concat, with chunks that were loaded as constants and
      something between each two of them. */
  lemma CallIsTemplateIff(code: seq<Site>, run: seq<Frame>, k: nat)
    requires IsRun(code, run) && k < |run| && run[k].pc < |code| && code[run[k].pc].insn.CallOp?
    ensures var insn := code[run[k].pc].insn;
      SitePieces(DefsAt(code, run[k].pc), insn).Some? <==> CallQualifies(code, run, k, insn.callee, insn.args)
  {
    var insn, defs := code[run[k].pc].insn, DefsAt(code, run[k].pc);
    ConcatIffRead(code, run, k, insn.callee);
    CallHasPieces(defs, insn);
    if insn.args.Some? { ChunksIffLoaded(code, run, k, insn.args.value); }
  }

  // ------------------------------------------------------------------ pieces of a chain

  /** What register r is put together from before step k: the constants that were loaded, through
      every Add it came from, and a hole for anything else. */
  ghost function SourceLeaves(code: seq<Site>, run: seq<Frame>, k: nat, r: Reg): seq<Piece>
    requires k < |run|
    decreases k
  {
    match Source(code, run, k, r)
    case None => [Hole]
    case Some(j) =>
      match code[run[j].pc].insn
      case LoadString(_, Some(text)) => [Text(text)]
      case Add(_, l, rhs) => SourceLeaves(code, run, j, l) + SourceLeaves(code, run, j, rhs)
      case _ => [Hole]
  }

  lemma {:induction false} LeavesAreSources(code: seq<Site>, run: seq<Frame>, k: nat, r: Reg)
    requires IsRun(code, run) && k < |run| && run[k].pc <= |code|
    ensures Leaves(DefOf(DefsAt(code, run[k].pc), r)) == SourceLeaves(code, run, k, r)
    decreases k
  {
    DefIsSource(code, run, k, r);
    var s := Source(code, run, k, r);
    if s.Some? && code[run[s.value].pc].insn.Add? {
      LeavesAreSources(code, run, s.value, code[run[s.value].pc].insn.lhs);
      LeavesAreSources(code, run, s.value, code[run[s.value].pc].insn.rhs);
    }
  }

  ghost predicate HasHole(ps: seq<Piece>) {
    exists i :: 0 <= i < |ps| && ps[i] == Hole
  }

  lemma {:induction false} HoleCounted(ps: seq<Piece>)
    ensures HoleCount(ps) > 0 <==> HasHole(ps)
    decreases |ps|
  {
    if ps != [] {
      HoleCounted(ps[1..]);
      if HasHole(ps) && ps[0] != Hole {
        var i :| 0 <= i < |ps| && ps[i] == Hole;
        assert ps[1..][i - 1] == Hole;
      }
      if HasHole(ps[1..]) {
        var i :| 0 <= i < |ps[1..]| && ps[1..][i] == Hole;
        assert ps[i + 1] == Hole;
      }
    }
  }

  /** An Add is searched as a chain if and only if, in any run that reaches it, its operands are put
      together from at most MAX_PIECES + 1 pieces with a constant and something else among them;
      it is searched with those, left operand first. */
  lemma AddIsChainIff(code: seq<Site>, run: seq<Frame>, k: nat, ps: seq<Piece>)
    requires IsRun(code, run) && k < |run| && run[k].pc < |code| && code[run[k].pc].insn.Add?
    ensures var insn := code[run[k].pc].insn;
      SitePieces(DefsAt(code, run[k].pc), insn) == Some(ps) <==>
        && ps == SourceLeaves(code, run, k, insn.lhs) + SourceLeaves(code, run, k, insn.rhs)
        && |ps| <= MAX_PIECES + 1 && (exists i :: 0 <= i < |ps| && ps[i].Text?) && HasHole(ps)
  {
    var insn := code[run[k].pc].insn;
    LeavesAreSources(code, run, k, insn.lhs);
    LeavesAreSources(code, run, k, insn.rhs);
    HoleCounted(ps);
  }

  // ------------------------------------------------------------- what a call computes

  function ArgValues(regs: Regs, args: seq<Reg>): (vs: seq<Val>)
    ensures |vs| == |args| && forall i :: 0 <= i < |vs| ==> vs[i] == regs(args[i])
  {
    if args == [] then [] else [regs(args[0])] + ArgValues(regs, args[1..])
  }

  /** The values at odd places: the substitutions. */
  function OddOnes(vs: seq<Val>): (r: seq<Val>)
    ensures |r| == |vs| / 2 && forall i :: 0 <= i < |r| ==> r[i] == vs[2 * i + 1]
  {
    if |vs| < 2 then [] else [vs[1]] + OddOnes(vs[2..])
  }

  /** String.prototype.concat: this and the arguments, one after the other. */
  ghost function Joined(vs: seq<Val>): string
    requires AllStrings(vs)
  {
    if vs == [] then "" else vs[0].text + Joined(vs[1..])
  }

  ghost predicate ChunksHold(defs: Defs, regs: Regs, args: seq<Reg>) {
    forall i: nat, text {:trigger IsText(defs, args, i, text)} :: i < |args| && IsText(defs, args, i, text) ==> regs(args[i]) == Str(text)
  }

  ghost predicate IsText(defs: Defs, args: seq<Reg>, i: nat, text: string)
    requires i < |args|
  {
    DefOf(defs, args[i]) == Some(StringDef(text))
  }

  lemma {:induction false} JoinedIsFilled(defs: Defs, regs: Regs, args: seq<Reg>)
    requires Odd(|args|) && TemplatePieces(defs, args).Some? && ChunksHold(defs, regs, args) && AllStrings(ArgValues(regs, args))
    ensures var ps, vs := TemplatePieces(defs, args).value, ArgValues(regs, args);
      HoleCount(ps) == |OddOnes(vs)| && AllStrings(OddOnes(vs)) && Joined(vs) == Filled(ps, OddOnes(vs))
    decreases |args|
  {
    var ps, vs := TemplatePieces(defs, args).value, ArgValues(regs, args);
    assert IsText(defs, args, 0, ps[0].text);
    if |args| == 1 {
      assert vs[1..] == [] && ps[1..] == [];
    } else {
      var rest := args[2..];
      forall i: nat, text | i < |rest| && IsText(defs, rest, i, text) ensures regs(rest[i]) == Str(text) { assert IsText(defs, args, i + 2, text); }
      assert ArgValues(regs, rest) == vs[2..];
      JoinedIsFilled(defs, regs, rest);
      TwoMore(ps, vs, TemplatePieces(defs, rest).value);
    }
  }

  /** A chunk and a hole in front. */
  lemma TwoMore(ps: seq<Piece>, vs: seq<Val>, rest: seq<Piece>)
    requires |ps| >= 2 && |vs| >= 2 && ps[0].Text? && ps[1].Hole? && ps[2..] == rest && AllStrings(vs) && vs[0].text == ps[0].text
    requires HoleCount(rest) == |OddOnes(vs[2..])| && AllStrings(OddOnes(vs[2..])) && Joined(vs[2..]) == Filled(rest, OddOnes(vs[2..]))
    ensures HoleCount(ps) == |OddOnes(vs)| && AllStrings(OddOnes(vs)) && Joined(vs) == Filled(ps, OddOnes(vs))
  {
    var odd := OddOnes(vs);
    assert ps[1..][1..] == rest && vs[1..][1..] == vs[2..] && odd[1..] == OddOnes(vs[2..]);
    assert HoleCount(ps[1..]) == 1 + HoleCount(rest);
    assert Filled(ps[1..], odd) == odd[0].text + Filled(rest, odd[1..]);
    assert Joined(vs[1..]) == vs[1].text + Joined(vs[2..]);
  }

  /** In every run that reaches a template call: piece by piece it is constants and holes, the
      constants are the values of the even arguments, and when the odd ones are strings too the
      call computes the pieces with those in the holes. */
  lemma TemplateIsConcatenation(code: seq<Site>, run: seq<Frame>, k: nat)
    requires IsRun(code, run) && k < |run| && run[k].pc < |code| && code[run[k].pc].insn.CallOp?
    requires SitePieces(DefsAt(code, run[k].pc), code[run[k].pc].insn).Some?
    ensures code[run[k].pc].insn.args.Some?
    ensures var ps, args := SitePieces(DefsAt(code, run[k].pc), code[run[k].pc].insn).value, code[run[k].pc].insn.args.value;
      && |ps| == |args|
      && (forall i: nat {:trigger ps[i]} :: i < |ps| ==> if Odd(i) then ps[i] == Hole else ps[i].Text? && run[k].regs(args[i]) == Str(ps[i].text))
      && (AllStrings(ArgValues(run[k].regs, args)) ==> Fills(ps, Str(Joined(ArgValues(run[k].regs, args))), OddOnes(ArgValues(run[k].regs, args))))
  {
    var defs, args, regs := DefsAt(code, run[k].pc), code[run[k].pc].insn.args.value, run[k].regs;
    var ps := TemplatePieces(defs, args).value;
    PiecesOfCall(defs, args);
    forall i: nat, text | i < |args| && IsText(defs, args, i, text) ensures regs(args[i]) == Str(text) { ChunkIsText(code, run, k, args[i], text); }
    forall i: nat | i < |ps| ensures if Odd(i) then ps[i] == Hole else ps[i].Text? && regs(args[i]) == Str(ps[i].text) {
      assert PieceAt(defs, args, ps, i);
      if !Odd(i) { assert IsText(defs, args, i, ps[i].text); }
    }
    if AllStrings(ArgValues(regs, args)) { JoinedIsFilled(defs, regs, args); }
  }

  // ------------------------------------------------------------ around the quotes

  const SHOWN_HOLE := "${\U{2026}}"

  /** The pieces as a reader sees them. */
  function Shown(ps: seq<Piece>): string {
    if ps == [] then "" else Shown(ps[..|ps| - 1]) + (if ps[|ps| - 1].Hole? then SHOWN_HOLE else ps[|ps| - 1].text)
  }

  lemma {:induction false} ToTextAppend(s: string, t: string)
    ensures ToText(s + t) == ToText(s) + ToText(t)
    decreases |t|
  {
    if t == "" {
      assert s + t == s;
    } else {
      ToTextAppend(s, t[..|t| - 1]);
      assert (s + t)[..|s + t| - 1] == s + t[..|t| - 1];
    }
  }

  lemma {:induction false} ToTextPlain(s: string)
    requires HOLE_CHAR !in s
    ensures ToText(s) == s
    decreases |s|
  {
    if s != "" {
      ToTextPlain(s[..|s| - 1]);
      assert s == s[..|s| - 1] + [s[|s| - 1]];
    }
  }

  lemma {:induction false} FlatIsShown(ps: seq<Piece>)
    requires NoMarkers(ps)
    ensures ToText(Flat(ps)) == Shown(ps)
    decreases |ps|
  {
    if ps != [] {
      var last := ps[|ps| - 1];
      FlatIsShown(ps[..|ps| - 1]);
      if last.Text? {
        ToTextPlain(last.text);
        ToTextAppend(Flat(ps[..|ps| - 1]), last.text);
      } else {
        ToTextAppend(Flat(ps[..|ps| - 1]), [HOLE_CHAR]);
        HoleToText();
      }
    }
  }

  lemma HoleToText()
    ensures ToText([HOLE_CHAR]) == SHOWN_HOLE
  {
    assert [HOLE_CHAR][..0] == "";
  }

  /** p is the end of text, or its last characters behind an ellipsis. */
  ghost predicate EndOf(p: string, text: string) {
    if |text| <= MAX_CONTEXT_CHARS then p == text
    else exists cut :: |cut| == MAX_CONTEXT_CHARS && cut == text[|text| - MAX_CONTEXT_CHARS..] && p == "\U{2026}" + cut
  }

  ghost predicate StartOf(p: string, text: string) {
    if |text| <= MAX_CONTEXT_CHARS then p == text
    else exists cut :: |cut| == MAX_CONTEXT_CHARS && cut <= text && p == cut + "\U{2026}"
  }

  /** before q inside q after is what is shown of the pieces, and the row's contexts are the end
      of what is before and the start of what is after. */
  ghost predicate Surrounds(ps: seq<Piece>, r: Injection, before: string, inside: string, after: string) {
    Shown(ps) == before + [r.quote] + inside + [r.quote] + after && EndOf(r.prefix, before) && StartOf(r.suffix, after)
  }

  lemma QuoteToText(q: char)
    requires q in "'\""
    ensures ToText([q]) == [q]
  {
    assert [q][..0] == "";
  }

  lemma ThreeTexts(b: string, q: char, m: string, a: string)
    requires q in "'\""
    ensures ToText(b + [q] + m + [q] + a) == ToText(b) + [q] + ToText(m) + [q] + ToText(a)
  {
    QuoteToText(q);
    ToTextAppend(b + [q] + m + [q], a);
    ToTextAppend(b + [q] + m, [q]);
    ToTextAppend(b + [q], m);
    ToTextAppend(b, [q]);
  }

  lemma ContextsAre(flat: string, best: Best, r: Injection)
    requires InjectionAt(flat, best, r)
    ensures r.quote in "'\"" && best.start < best.end < |flat| && flat[best.start] == r.quote == flat[best.end]
    ensures EndOf(r.prefix, ToText(flat[..best.start])) && StartOf(r.suffix, ToText(flat[best.end + 1..]))
  {
    var before, after := ToText(flat[..best.start]), ToText(flat[best.end + 1..]);
    if |before| > MAX_CONTEXT_CHARS { assert |before[|before| - MAX_CONTEXT_CHARS..]| == MAX_CONTEXT_CHARS; }
    if |after| > MAX_CONTEXT_CHARS { assert |after[..MAX_CONTEXT_CHARS]| == MAX_CONTEXT_CHARS && after[..MAX_CONTEXT_CHARS] <= after; }
  }

  lemma BestShows(ps: seq<Piece>, best: Best, r: Injection)
    requires NoMarkers(ps) && InjectionAt(Flat(ps), best, r)
    ensures best.start < best.end < |Flat(ps)|
    ensures Surrounds(ps, r, ToText(Flat(ps)[..best.start]), ToText(Flat(ps)[best.start + 1..best.end]), ToText(Flat(ps)[best.end + 1..]))
  {
    ContextsAre(Flat(ps), best, r);
    PairShows(ps, r, best.start, best.end);
  }

  /** A reported pair splits what is shown of the pieces in three. */
  lemma RowShowsContext(ps: seq<Piece>, r: Injection)
    requires NoMarkers(ps) && InjectionOf(ps, r)
    ensures exists before, inside, after :: Surrounds(ps, r, before, inside, after)
  {
    var best :| InjectionAt(Flat(ps), best, r);
    BestShows(ps, best, r);
  }

  lemma PairSplits(flat: string, q: char, a: nat, b: nat)
    requires a < b < |flat| && flat[a] == q && flat[b] == q
    ensures flat == flat[..a] + [q] + flat[a + 1..b] + [q] + flat[b + 1..]
  {
  }

  lemma PairShows(ps: seq<Piece>, r: Injection, a: nat, b: nat)
    requires NoMarkers(ps) && r.quote in "'\"" && a < b < |Flat(ps)| && Flat(ps)[a] == r.quote == Flat(ps)[b]
    requires EndOf(r.prefix, ToText(Flat(ps)[..a])) && StartOf(r.suffix, ToText(Flat(ps)[b + 1..]))
    ensures Surrounds(ps, r, ToText(Flat(ps)[..a]), ToText(Flat(ps)[a + 1..b]), ToText(Flat(ps)[b + 1..]))
  {
    var flat := Flat(ps);
    FlatIsShown(ps);
    PairSplits(flat, r.quote, a, b);
    ThreeTexts(flat[..a], r.quote, flat[a + 1..b], flat[b + 1..]);
  }
}
