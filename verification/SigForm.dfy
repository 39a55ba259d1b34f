// What the canonical signature form tells apart: two functions have one form exactly when some
// renaming of registers makes them look alike.
module SigForm {
  import opened SigNormalise
  import opened SigDebug

  // ------------------------------------------------------- registers are numbered once

  /** Later lists of named registers only add to earlier ones. */
  lemma IndexStays(rs: seq<Reg>, more: seq<Reg>, r: Reg)
    requires rs <= more && Index(rs, r) < |rs|
    ensures Index(more, r) == Index(rs, r)
    decreases |rs|
  {
    if rs[0] != r {
      assert rs[1..] <= more[1..];
      IndexStays(rs[1..], more[1..], r);
    }
  }

  lemma {:induction false} IndexOfNew(rs: seq<Reg>, r: Reg)
    requires Index(rs, r) == |rs|
    ensures Index(rs + [r], r) == |rs|
    decreases |rs|
  {
    if rs != [] {
      assert (rs + [r])[1..] == rs[1..] + [r];
      IndexOfNew(rs[1..], r);
    }
  }

  lemma NamedIndex(rs: seq<Reg>, r: Reg)
    ensures rs <= Named(rs, r) && Index(Named(rs, r), r) == Index(rs, r) < |Named(rs, r)|
    ensures |Named(rs, r)| == if Index(rs, r) < |rs| then |rs| else |rs| + 1
  {
    if Index(rs, r) == |rs| { IndexOfNew(rs, r); }
  }

  lemma {:induction false} TokensName(f: SigFunction, masked: map<int, MaskMode>, insn: SigInsn, ops: seq<Operand>, n: nat, regs: seq<Reg>)
    requires n <= |ops|
    ensures |Tokens(f, masked, insn, ops, n, regs).0| == n && regs <= Tokens(f, masked, insn, ops, n, regs).1
    decreases n
  {
    if n > 0 {
      TokensName(f, masked, insn, ops, n - 1, regs);
      if ops[n - 1].role == RegRole { NamedIndex(Tokens(f, masked, insn, ops, n - 1, regs).1, ops[n - 1].value); }
    }
  }

  // ---------------------------------------------------------------- the renaming found

  function Size(r: Reg): nat {
    if r >= 0 then r else 0 - r
  }

  /** A number larger than any register of rs, negated ones included. */
  function Bound(rs: seq<Reg>): (b: nat)
    ensures forall r {:trigger r in rs} :: r in rs ==> Size(r) < b
  {
    if rs == [] then 1
    else
      var b := Bound(rs[1..]);
      assert forall r {:trigger r in rs} :: r in rs ==> r == rs[0] || r in rs[1..];
      if Size(rs[0]) >= b then Size(rs[0]) + 1 else b
  }

  /** Register i of rs becomes register i of ss, and the others move out of their way. */
  function Pairing(rs: seq<Reg>, ss: seq<Reg>, r: Reg): Reg
    requires |rs| == |ss|
  {
    if Index(rs, r) < |rs| then ss[Index(rs, r)] else if r >= 0 then r + Bound(ss) else r - Bound(ss)
  }

  ghost predicate Distinct(rs: seq<Reg>) {
    forall i, j :: 0 <= i < j < |rs| ==> rs[i] != rs[j]
  }

  lemma {:induction false} IndexIn(rs: seq<Reg>, r: Reg)
    ensures Index(rs, r) < |rs| <==> r in rs
    decreases |rs|
  {
    if rs != [] {
      IndexIn(rs[1..], r);
      assert rs == [rs[0]] + rs[1..];
    }
  }

  lemma PairingInjective(rs: seq<Reg>, ss: seq<Reg>, pi: Reg -> Reg)
    requires |rs| == |ss| && Distinct(ss) && forall r {:trigger pi(r)} :: pi(r) == Pairing(rs, ss, r)
    ensures Injective(pi)
  {
    forall a, b {:trigger pi(a), pi(b)} | pi(a) == pi(b) ensures a == b {
      var i, j := Index(rs, a), Index(rs, b);
      if i < |rs| { assert ss[i] in ss; }
      if j < |rs| { assert ss[j] in ss; }
    }
  }

  lemma NamedDistinct(rs: seq<Reg>, r: Reg)
    requires Distinct(rs)
    ensures Distinct(Named(rs, r))
  {
    IndexIn(rs, r);
  }

  lemma {:induction false} TokensDistinct(f: SigFunction, masked: map<int, MaskMode>, insn: SigInsn, ops: seq<Operand>, n: nat, regs: seq<Reg>)
    requires n <= |ops| && Distinct(regs)
    ensures Distinct(Tokens(f, masked, insn, ops, n, regs).1)
    decreases n
  {
    if n > 0 {
      TokensDistinct(f, masked, insn, ops, n - 1, regs);
      NamedDistinct(Tokens(f, masked, insn, ops, n - 1, regs).1, ops[n - 1].value);
    }
  }

  lemma {:induction false} LinesName(f: SigFunction, masked: map<int, MaskMode>, xs: seq<Kept>, k: nat, n: nat)
    requires k <= n <= |xs|
    ensures Lines(f, masked, xs, k).1 <= Lines(f, masked, xs, n).1 && Lines(f, masked, xs, k).0 <= Lines(f, masked, xs, n).0
    ensures Distinct(Lines(f, masked, xs, n).1) && |Lines(f, masked, xs, n).0| == n
    decreases n
  {
    if n > 0 {
      LinesName(f, masked, xs, if k < n then k else k - 1, n - 1);
      var ops, rs := WithoutCache(xs[n - 1].insn.operands), Lines(f, masked, xs, n - 1).1;
      TokensName(f, masked, xs[n - 1].insn, ops, |ops|, rs);
      TokensDistinct(f, masked, xs[n - 1].insn, ops, |ops|, rs);
    }
  }

  // --------------------------------------------------------------- reading one line

  /** One token: the same role, and as many registers named so far as before. */
  lemma TokenCounts(f: SigFunction, g: SigFunction, masked: map<int, MaskMode>, masked': map<int, MaskMode>, a: SigInsn, b: SigInsn,
                    j: nat, x: Operand, y: Operand, rs: seq<Reg>, ss: seq<Reg>)
    requires |rs| == |ss| && TokenOf(f, masked, a, j, x, rs) == TokenOf(g, masked', b, j, y, ss)
    ensures x.role == y.role && (x.role == RegRole ==> Index(rs, x.value) == Index(ss, y.value) && |Named(rs, x.value)| == |Named(ss, y.value)|)
  {
  }

  lemma {:induction false} TokensCount(f: SigFunction, g: SigFunction, masked: map<int, MaskMode>, masked': map<int, MaskMode>, a: SigInsn, b: SigInsn,
                                       xs: seq<Operand>, ys: seq<Operand>, n: nat, rs: seq<Reg>, ss: seq<Reg>)
    requires n <= |xs| && n <= |ys| && |rs| == |ss| && Tokens(f, masked, a, xs, n, rs).0 == Tokens(g, masked', b, ys, n, ss).0
    ensures |Tokens(f, masked, a, xs, n, rs).1| == |Tokens(g, masked', b, ys, n, ss).1|
    decreases n
  {
    if n > 0 {
      TokensSplit(f, g, masked, masked', a, b, xs, ys, n, rs, ss);
      TokensCount(f, g, masked, masked', a, b, xs, ys, n - 1, rs, ss);
      TokenCounts(f, g, masked, masked', a, b, n - 1, xs[n - 1], ys[n - 1], Tokens(f, masked, a, xs, n - 1, rs).1, Tokens(g, masked', b, ys, n - 1, ss).1);
    }
  }

  lemma TokensSplit(f: SigFunction, g: SigFunction, masked: map<int, MaskMode>, masked': map<int, MaskMode>, a: SigInsn, b: SigInsn,
                    xs: seq<Operand>, ys: seq<Operand>, n: nat, rs: seq<Reg>, ss: seq<Reg>)
    requires 0 < n <= |xs| && n <= |ys| && Tokens(f, masked, a, xs, n, rs).0 == Tokens(g, masked', b, ys, n, ss).0
    ensures Tokens(f, masked, a, xs, n - 1, rs).0 == Tokens(g, masked', b, ys, n - 1, ss).0
    ensures TokenOf(f, masked, a, n - 1, xs[n - 1], Tokens(f, masked, a, xs, n - 1, rs).1) == TokenOf(g, masked', b, n - 1, ys[n - 1], Tokens(g, masked', b, ys, n - 1, ss).1)
  {
    TokensName(f, masked, a, xs, n - 1, rs);
    TokensName(g, masked', b, ys, n - 1, ss);
    var p, q := Tokens(f, masked, a, xs, n - 1, rs).0, Tokens(g, masked', b, ys, n - 1, ss).0;
    var s, t := Tokens(f, masked, a, xs, n, rs).0, Tokens(g, masked', b, ys, n, ss).0;
    assert s[..n - 1] == p && t[..n - 1] == q && s[n - 1] == t[n - 1];
  }

  /** The final lists of registers, paired up. */
  ghost predicate Pairs(rs: seq<Reg>, ss: seq<Reg>, pi: Reg -> Reg) {
    |rs| == |ss| && forall r {:trigger pi(r)} :: pi(r) == Pairing(rs, ss, r)
  }

  /** What a token says of the two operands it stands for. */
  lemma TokenTells(f: SigFunction, g: SigFunction, pi: Reg -> Reg, masked: map<int, MaskMode>, masked': map<int, MaskMode>, a: SigInsn, b: SigInsn,
                   j: nat, x: Operand, y: Operand, rs: seq<Reg>, ss: seq<Reg>, all: seq<Reg>, all': seq<Reg>)
    requires |rs| == |ss| && TokenOf(f, masked, a, j, x, rs) == TokenOf(g, masked', b, j, y, ss)
    requires Pairs(all, all', pi)
    requires x.role == RegRole ==> Named(rs, x.value) <= all
    requires y.role == RegRole ==> Named(ss, y.value) <= all'
    ensures OperandLooks(f, g, pi, masked, masked', a, b, j, x, y)
  {
    TokenCounts(f, g, masked, masked', a, b, j, x, y, rs, ss);
    if x.role == RegRole {
      NamedIndex(rs, x.value);
      NamedIndex(ss, y.value);
      IndexStays(Named(rs, x.value), all, x.value);
      IndexStays(Named(ss, y.value), all', y.value);
      assert pi(x.value) == all'[Index(all', y.value)];
    }
  }

  lemma {:induction false} TokensTell(f: SigFunction, g: SigFunction, pi: Reg -> Reg, masked: map<int, MaskMode>, masked': map<int, MaskMode>, a: SigInsn, b: SigInsn,
                                      xs: seq<Operand>, ys: seq<Operand>, n: nat, rs: seq<Reg>, ss: seq<Reg>, all: seq<Reg>, all': seq<Reg>)
    requires n <= |xs| && n <= |ys| && |rs| == |ss| && Tokens(f, masked, a, xs, n, rs).0 == Tokens(g, masked', b, ys, n, ss).0
    requires Pairs(all, all', pi) && Tokens(f, masked, a, xs, n, rs).1 <= all && Tokens(g, masked', b, ys, n, ss).1 <= all'
    ensures forall j: nat {:trigger OperandLooks(f, g, pi, masked, masked', a, b, j, xs[j], ys[j])} :: j < n ==>
      OperandLooks(f, g, pi, masked, masked', a, b, j, xs[j], ys[j])
    decreases n
  {
    if n > 0 {
      var p, q := Tokens(f, masked, a, xs, n - 1, rs).1, Tokens(g, masked', b, ys, n - 1, ss).1;
      var x, y := xs[n - 1], ys[n - 1];
      NamedIndex(p, x.value);
      NamedIndex(q, y.value);
      TokensSplit(f, g, masked, masked', a, b, xs, ys, n, rs, ss);
      TokensCount(f, g, masked, masked', a, b, xs, ys, n - 1, rs, ss);
      TokensTell(f, g, pi, masked, masked', a, b, xs, ys, n - 1, rs, ss, all, all');
      TokenTells(f, g, pi, masked, masked', a, b, n - 1, x, y, p, q, all, all');
    }
  }

  lemma LineCounts(f: SigFunction, g: SigFunction, masked: map<int, MaskMode>, masked': map<int, MaskMode>, x: Kept, y: Kept, rs: seq<Reg>, ss: seq<Reg>)
    requires |rs| == |ss| && LineOf(f, masked, x, rs).0 == LineOf(g, masked', y, ss).0
    ensures |LineOf(f, masked, x, rs).1| == |LineOf(g, masked', y, ss).1|
  {
    if x.insn.table.None? {
      var xs, ys := WithoutCache(x.insn.operands), WithoutCache(y.insn.operands);
      TokensName(f, masked, x.insn, xs, |xs|, rs);
      TokensName(g, masked', y.insn, ys, |ys|, ss);
      TokensCount(f, g, masked, masked', x.insn, y.insn, xs, ys, |xs|, rs, ss);
    }
  }

  /** What a line says of the two instructions it stands for. */
  lemma LineTells(f: SigFunction, g: SigFunction, pi: Reg -> Reg, masked: map<int, MaskMode>, masked': map<int, MaskMode>, x: Kept, y: Kept,
                  rs: seq<Reg>, ss: seq<Reg>, all: seq<Reg>, all': seq<Reg>)
    requires |rs| == |ss| && LineOf(f, masked, x, rs).0 == LineOf(g, masked', y, ss).0
    requires Pairs(all, all', pi) && LineOf(f, masked, x, rs).1 <= all && LineOf(g, masked', y, ss).1 <= all'
    ensures KeptLooks(f, g, pi, masked, masked', x, y)
  {
    if x.insn.table.Some? {
      TableTells(f, g, x.insn.table.value, y.insn.table.value);
    } else {
      var xs, ys := WithoutCache(x.insn.operands), WithoutCache(y.insn.operands);
      TokensName(f, masked, x.insn, xs, |xs|, rs);
      TokensName(g, masked', y.insn, ys, |ys|, ss);
      TokensTell(f, g, pi, masked, masked', x.insn, y.insn, xs, ys, |xs|, rs, ss, all, all');
    }
  }

  lemma TableTells(f: SigFunction, g: SigFunction, a: SigTable, b: SigTable)
    requires LabelAt(f, a.defaultTarget) == LabelAt(g, b.defaultTarget) && CaseLabels(f, a.ofStrings, a.cases) == CaseLabels(g, b.ofStrings, b.cases)
    ensures SameTable(f, g, a, b)
  {
    var xs, ys := CaseLabels(f, a.ofStrings, a.cases), CaseLabels(g, b.ofStrings, b.cases);
    forall k | 0 <= k < |a.cases|
      ensures a.ofStrings == b.ofStrings && SameValue(f.mod, g.mod, if a.ofStrings then StringRole else NumberRole, a.cases[k].value, b.cases[k].value)
      ensures SameLabel(f, a.cases[k].target, g, b.cases[k].target)
    {
      assert xs[k] == ys[k];
    }
  }

  // ------------------------------------------------------------------ reading it all

  lemma {:induction false} LinesCount(f: SigFunction, g: SigFunction, masked: map<int, MaskMode>, masked': map<int, MaskMode>, xs: seq<Kept>, ys: seq<Kept>, n: nat)
    requires n <= |xs| == |ys| && Lines(f, masked, xs, n).0 == Lines(g, masked', ys, n).0
    ensures |Lines(f, masked, xs, n).1| == |Lines(g, masked', ys, n).1|
    decreases n
  {
    if n > 0 {
      LinesSplit(f, g, masked, masked', xs, ys, n);
      LinesCount(f, g, masked, masked', xs, ys, n - 1);
      LineCounts(f, g, masked, masked', xs[n - 1], ys[n - 1], Lines(f, masked, xs, n - 1).1, Lines(g, masked', ys, n - 1).1);
    }
  }

  lemma LinesSplit(f: SigFunction, g: SigFunction, masked: map<int, MaskMode>, masked': map<int, MaskMode>, xs: seq<Kept>, ys: seq<Kept>, n: nat)
    requires 0 < n <= |xs| == |ys| && Lines(f, masked, xs, n).0 == Lines(g, masked', ys, n).0
    ensures Lines(f, masked, xs, n - 1).0 == Lines(g, masked', ys, n - 1).0
    ensures LineOf(f, masked, xs[n - 1], Lines(f, masked, xs, n - 1).1).0 == LineOf(g, masked', ys[n - 1], Lines(g, masked', ys, n - 1).1).0
  {
    LinesName(f, masked, xs, n - 1, n - 1);
    LinesName(g, masked', ys, n - 1, n - 1);
    var s, t := Lines(f, masked, xs, n).0, Lines(g, masked', ys, n).0;
    assert s[..n - 1] == Lines(f, masked, xs, n - 1).0 && t[..n - 1] == Lines(g, masked', ys, n - 1).0 && s[n - 1] == t[n - 1];
  }

  ghost predicate FirstLook(f: SigFunction, g: SigFunction, pi: Reg -> Reg, masked: map<int, MaskMode>, masked': map<int, MaskMode>, xs: seq<Kept>, ys: seq<Kept>, n: nat)
    requires n <= |xs| == |ys|
  {
    forall k: nat {:trigger KeptLooks(f, g, pi, masked, masked', xs[k], ys[k])} :: k < n ==> KeptLooks(f, g, pi, masked, masked', xs[k], ys[k])
  }

  lemma LinesTell(f: SigFunction, g: SigFunction, pi: Reg -> Reg, masked: map<int, MaskMode>, masked': map<int, MaskMode>, xs: seq<Kept>, ys: seq<Kept>,
                  all: seq<Reg>, all': seq<Reg>)
    requires |xs| == |ys| && Lines(f, masked, xs, |xs|).0 == Lines(g, masked', ys, |xs|).0
    requires all == Lines(f, masked, xs, |xs|).1 && all' == Lines(g, masked', ys, |xs|).1 && Pairs(all, all', pi)
    ensures FirstLook(f, g, pi, masked, masked', xs, ys, |xs|)
  {
    for i := 0 to |xs|
      invariant FirstLook(f, g, pi, masked, masked', xs, ys, i)
    {
      PrefixSame(f, g, masked, masked', xs, ys, i + 1);
      RegsGrow(f, masked, xs, i + 1, all);
      RegsGrow(g, masked', ys, i + 1, all');
      LastTells(f, g, pi, masked, masked', xs, ys, i, all, all');
    }
  }

  lemma RegsGrow(f: SigFunction, masked: map<int, MaskMode>, xs: seq<Kept>, k: nat, all: seq<Reg>)
    requires k <= |xs| && all == Lines(f, masked, xs, |xs|).1
    ensures Lines(f, masked, xs, k).1 <= all
  {
    LinesName(f, masked, xs, k, |xs|);
  }

  lemma PrefixSame(f: SigFunction, g: SigFunction, masked: map<int, MaskMode>, masked': map<int, MaskMode>, xs: seq<Kept>, ys: seq<Kept>, k: nat)
    requires k <= |xs| == |ys| && Lines(f, masked, xs, |xs|).0 == Lines(g, masked', ys, |xs|).0
    ensures Lines(f, masked, xs, k).0 == Lines(g, masked', ys, k).0
  {
    LinesName(f, masked, xs, k, |xs|);
    LinesName(g, masked', ys, k, |xs|);
    LinesName(f, masked, xs, k, k);
    LinesName(g, masked', ys, k, k);
  }

  lemma LastTells(f: SigFunction, g: SigFunction, pi: Reg -> Reg, masked: map<int, MaskMode>, masked': map<int, MaskMode>, xs: seq<Kept>, ys: seq<Kept>,
                  n: nat, all: seq<Reg>, all': seq<Reg>)
    requires n < |xs| == |ys| && Lines(f, masked, xs, n + 1).0 == Lines(g, masked', ys, n + 1).0
    requires Pairs(all, all', pi) && Lines(f, masked, xs, n + 1).1 <= all && Lines(g, masked', ys, n + 1).1 <= all'
    ensures KeptLooks(f, g, pi, masked, masked', xs[n], ys[n])
  {
    LinesSplit(f, g, masked, masked', xs, ys, n + 1);
    LinesCount(f, g, masked, masked', xs, ys, n);
    LineTells(f, g, pi, masked, masked', xs[n], ys[n], Lines(f, masked, xs, n).1, Lines(g, masked', ys, n).1, all, all');
  }

  /** The lines of the instructions end where those of the handlers begin. */
  lemma SameLineCount(f: SigFunction, g: SigFunction)
    requires Normalised(f) == Normalised(g)
    ensures |KeptOf(f)| == |KeptOf(g)|
  {
    NoFewerLines(f, g);
    NoFewerLines(g, f);
  }

  lemma NoFewerLines(f: SigFunction, g: SigFunction)
    requires Normalised(f) == Normalised(g)
    ensures |KeptOf(g)| <= |KeptOf(f)|
  {
    LineCount(g, MasksOf(g), KeptOf(g));
    if |KeptOf(f)| < |KeptOf(g)| {
      LineIsTry(f, 1 + |KeptOf(f)|);
      LineIsTry(g, 1 + |KeptOf(f)|);
    }
  }

  lemma LineIsTry(f: SigFunction, i: nat)
    requires 0 < i < |Normalised(f)|
    ensures Normalised(f)[i].TryLine? <==> i > |KeptOf(f)|
  {
    var n := |KeptOf(f)|;
    LineCount(f, MasksOf(f), KeptOf(f));
    if i <= n {
      LineLabels(f, MasksOf(f), KeptOf(f), n, i - 1);
      assert Normalised(f)[i] == Lines(f, MasksOf(f), KeptOf(f), n).0[i - 1];
    } else {
      assert Normalised(f)[i] == TryLines(f)[i - n - 1];
    }
  }

  /** Equal forms: the renaming that pairs the registers in order of first use makes the
      functions look alike. */
  lemma FormTells(f: SigFunction, g: SigFunction) returns (pi: Reg -> Reg)
    requires Normalised(f) == Normalised(g)
    ensures LooksLike(f, g, pi)
  {
    SameLineCount(f, g);
    FormParts(f, g);
    var xs, ys, n := KeptOf(f), KeptOf(g), |KeptOf(f)|;
    LinesCount(f, g, MasksOf(f), MasksOf(g), xs, ys, n);
    LinesName(g, MasksOf(g), ys, n, n);
    var all, all' := Lines(f, MasksOf(f), xs, n).1, Lines(g, MasksOf(g), ys, n).1;
    pi := r => Pairing(all, all', r);
    PairingInjective(all, all', pi);
    LinesTell(f, g, pi, MasksOf(f), MasksOf(g), xs, ys, all, all');
    HeadersTell(f, g);
  }

  lemma HeadersTell(f: SigFunction, g: SigFunction)
    requires Normalised(f) == Normalised(g) && TryLines(f) == TryLines(g)
    ensures f.paramCount == g.paramCount && SameName(f, g)
    ensures |f.handlers| == |g.handlers| && forall k: nat {:trigger HandlerLooks(f, g, k)} :: k < |f.handlers| ==> HandlerLooks(f, g, k)
  {
    assert Normalised(f)[0] == Header(f.paramCount, MaskedName(f.name)) && Normalised(g)[0] == Header(g.paramCount, MaskedName(g.name));
    forall k: nat | k < |f.handlers| ensures HandlerLooks(f, g, k) { assert TryLines(f)[k] == TryLines(g)[k]; }
  }

  /** What is shown as a dependency index: the immediate of an access to the dependency map, and
      what was loaded as the index of one. */
  lemma DependencyIff(f: SigFunction, i: nat, j: nat, regs: seq<Reg>)
    requires OwnOffsets(f.insns) && i < |f.insns| && j < |WithoutCache(f.insns[i].operands)|
    ensures var x, ops := f.insns[i], WithoutCache(f.insns[i].operands);
      TokenOf(f, MasksOf(f), x, j, ops[j], regs) == DepToken <==>
        && ops[j].role == NumberRole
        && ((IndexesMap(f.paramCount, f.insns, i) && j == |x.operands| - 1) || exists k :: 0 <= k < |f.insns| && UsesIndex(f.paramCount, f.insns, i, k))
  {
    MasksAre(f.paramCount, f.insns, |f.insns|, i);
    assert IndexesMap(f.paramCount, f.insns, i) ==> forall k :: 0 <= k < |f.insns| ==> !UsesIndex(f.paramCount, f.insns, i, k);
  }

  /** Two functions have one form if and only if a renaming of registers makes them look alike:
      same parameters, opcodes, labels, cases and operands, but for cache slots, dependency
      indices and what a switch tests. */
  lemma SameFormIffLooksLike(f: SigFunction, g: SigFunction)
    ensures Normalised(f) == Normalised(g) <==> exists pi: Reg -> Reg :: LooksLike(f, g, pi)
  {
    if Normalised(f) == Normalised(g) { var pi := FormTells(f, g); }
    if pi: Reg -> Reg :| LooksLike(f, g, pi) { LooksSameForm(f, g, pi); }
  }
}
