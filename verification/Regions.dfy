// Exception regions as a laminar family: the order, the parents and the handler
// lists of src/cfg/exceptions.ts, stated on the sorted handler table.
module Regions {
  import opened CfgTypes
  import opened SetOrder

  /** A table entry with its position in the file. */
  datatype Entry = Entry(handler: ExceptionHandler, fileOrder: nat)

  /** Outermost first; of two equal ranges the later entry is the outer one. */
  predicate OuterLe(a: Entry, b: Entry) {
    || a.handler.start < b.handler.start
    || (a.handler.start == b.handler.start && a.handler.end > b.handler.end)
    || (a.handler.start == b.handler.start && a.handler.end == b.handler.end && a.fileOrder >= b.fileOrder)
  }

  predicate Encloses(a: ExceptionHandler, b: ExceptionHandler) {
    a.start <= b.start && b.end <= a.end
  }

  /** Partial overlap without nesting. */
  predicate Cross(a: ExceptionHandler, b: ExceptionHandler) {
    a.start < b.start < a.end < b.end || b.start < a.start < b.end < a.end
  }

  predicate Covers(h: ExceptionHandler, b: BasicBlock) {
    b.start >= 0 && h.start <= b.start && b.end <= h.end
  }

  /** The sorted table: a permutation of the entries, outermost first, no two crossing. */
  ghost predicate Laminar(S: seq<Entry>) {
    && (forall i, j :: 0 <= i < j < |S| ==> OuterLe(S[i], S[j]) && S[i].fileOrder != S[j].fileOrder)
    && (forall i, j :: 0 <= i < j < |S| ==> !Cross(S[i].handler, S[j].handler))
    && (forall i :: 0 <= i < |S| ==> S[i].handler.start < S[i].handler.end)
  }

  /** The nearest entry before j that encloses entry i. */
  function EnclosingBelow(S: seq<Entry>, i: nat, j: nat): (r: Option<nat>)
    requires i < |S| && j <= |S|
    ensures r.Some? ==> r.value < j && Encloses(S[r.value].handler, S[i].handler) && forall k :: r.value < k < j ==> !Encloses(S[k].handler, S[i].handler)
    ensures r.None? ==> forall k :: 0 <= k < j ==> !Encloses(S[k].handler, S[i].handler)
  {
    if j == 0 then None
    else if Encloses(S[j - 1].handler, S[i].handler) then Some(j - 1)
    else EnclosingBelow(S, i, j - 1)
  }

  function Parent(S: seq<Entry>, i: nat): Option<nat>
    requires i < |S|
  {
    EnclosingBelow(S, i, i)
  }

  function Depth(S: seq<Entry>, i: nat): nat
    requires i < |S|
  {
    match Parent(S, i)
    case None => 0
    case Some(p) => 1 + Depth(S, p)
  }

  /** The first n entries whose parent is p, ascending. */
  function Children(S: seq<Entry>, p: nat, n: nat): (r: seq<nat>)
    requires n <= |S|
    ensures forall k :: 0 <= k < |r| ==> r[k] < n
    ensures forall i: nat :: i in r <==> i < n && Parent(S, i) == Some(p)
    ensures Ascends(r)
  {
    if n == 0 then []
    else Children(S, p, n - 1) + if Parent(S, n - 1) == Some(p) then [n - 1] else []
  }

  /** Which of the first n entries cover block b, ascending. */
  function Covering(S: seq<Entry>, b: BasicBlock, n: nat): (r: seq<nat>)
    requires n <= |S|
    ensures forall k :: 0 <= k < |r| ==> r[k] < n
  {
    if n == 0 then []
    else Covering(S, b, n - 1) + if Covers(S[n - 1].handler, b) then [n - 1] else []
  }

  /** c lists exactly the first n entries that cover b, ascending. */
  ghost predicate Lists(S: seq<Entry>, b: BasicBlock, n: nat, c: seq<nat>) {
    && (forall k :: 0 <= k < |c| ==> c[k] < n)
    && (forall i: nat :: i < n && i < |S| ==> (i in c <==> Covers(S[i].handler, b)))
    && Ascends(c)
  }

  lemma {:induction false} CoveringLists(S: seq<Entry>, b: BasicBlock, n: nat)
    requires n <= |S|
    ensures Lists(S, b, n, Covering(S, b, n))
  {
    if n > 0 { CoveringLists(S, b, n - 1); }
  }

  // ------------------------------------------------ the entries over one block

  /** Of two entries over the same block, the earlier encloses the later. */
  lemma CoveringNests(S: seq<Entry>, b: BasicBlock, i: nat, j: nat)
    requires Laminar(S) && i < j < |S| && b.start < b.end && Covers(S[i].handler, b) && Covers(S[j].handler, b)
    ensures Encloses(S[i].handler, S[j].handler)
  {
    assert OuterLe(S[i], S[j]) && !Cross(S[i].handler, S[j].handler);
  }

  /** ... and lies strictly higher in the parent forest. */
  lemma {:induction false} CoveringDeepens(S: seq<Entry>, b: BasicBlock, i: nat, j: nat)
    requires Laminar(S) && i < j < |S| && b.start < b.end && Covers(S[i].handler, b) && Covers(S[j].handler, b)
    ensures Depth(S, i) < Depth(S, j)
    decreases j
  {
    CoveringNests(S, b, i, j);
    var p := Parent(S, j).value;
    if p != i { CoveringDeepens(S, b, i, p); }
  }

  /** The parent is the smallest enclosing region: every other encloser encloses it too. */
  lemma ParentIsSmallest(S: seq<Entry>, i: nat, j: nat)
    requires Laminar(S) && i < |S| && j < i && Encloses(S[j].handler, S[i].handler)
    ensures Parent(S, i).Some? && Encloses(S[Parent(S, i).value].handler, S[i].handler)
    ensures j <= Parent(S, i).value < i && Encloses(S[j].handler, S[Parent(S, i).value].handler)
  {
    var p := Parent(S, i).value;
    if j < p { assert OuterLe(S[j], S[p]) && !Cross(S[j].handler, S[p].handler); }
  }

  // ------------------------------------------------------- the VM's view

  /** The first table entry, in file order, whose range contains pc. */
  function FirstMatch(handlers: seq<ExceptionHandler>, pc: int): (r: Option<nat>)
    ensures r.Some? ==> r.value < |handlers| && handlers[r.value].start <= pc < handlers[r.value].end
    ensures r.Some? ==> forall i :: 0 <= i < r.value ==> !(handlers[i].start <= pc < handlers[i].end)
    ensures r.None? ==> forall i :: 0 <= i < |handlers| ==> !(handlers[i].start <= pc < handlers[i].end)
  {
    FirstMatchFrom(handlers, pc, 0)
  }

  function FirstMatchFrom(handlers: seq<ExceptionHandler>, pc: int, k: nat): (r: Option<nat>)
    requires k <= |handlers|
    ensures r.Some? ==> k <= r.value < |handlers| && handlers[r.value].start <= pc < handlers[r.value].end
    ensures r.Some? ==> forall i :: k <= i < r.value ==> !(handlers[i].start <= pc < handlers[i].end)
    ensures r.None? ==> forall i :: k <= i < |handlers| ==> !(handlers[i].start <= pc < handlers[i].end)
    decreases |handlers| - k
  {
    if k == |handlers| then None
    else if handlers[k].start <= pc < handlers[k].end then Some(k)
    else FirstMatchFrom(handlers, pc, k + 1)
  }

  /** The entries covering b, in file order. */
  function InFileOrder(handlers: seq<ExceptionHandler>, b: BasicBlock, n: nat): (r: seq<nat>)
    requires n <= |handlers|
    ensures forall k :: 0 <= k < |r| ==> r[k] < n && Covers(handlers[r[k]], b)
    ensures Ascends(r)
    ensures forall i: nat :: i < n && Covers(handlers[i], b) ==> i in r
  {
    if n == 0 then [] else InFileOrder(handlers, b, n - 1) + if Covers(handlers[n - 1], b) then [n - 1] else []
  }

  /** S is the handler table, rearranged. */
  ghost predicate TableOf(S: seq<Entry>, handlers: seq<ExceptionHandler>) {
    && |S| == |handlers|
    && (forall k :: 0 <= k < |S| ==> S[k].fileOrder < |handlers| && S[k].handler == handlers[S[k].fileOrder])
    && (forall i: nat :: i < |handlers| ==> HasEntry(S, i))
  }

  ghost predicate HasEntry(S: seq<Entry>, i: nat) {
    exists k :: 0 <= k < |S| && S[k].fileOrder == i
  }

  /** The file positions of the regions c, innermost first. */
  function Innermost(S: seq<Entry>, c: seq<nat>): (r: seq<nat>)
    requires forall k :: 0 <= k < |c| ==> c[k] < |S|
    ensures |r| == |c| && forall k :: 0 <= k < |c| ==> r[k] == S[c[|c| - 1 - k]].fileOrder
  {
    if c == [] then [] else [S[c[|c| - 1]].fileOrder] + Innermost(S, c[..|c| - 1])
  }

  predicate StrictlyInside(a: ExceptionHandler, b: ExceptionHandler) {
    Encloses(b, a) && (a.start != b.start || a.end != b.end)
  }

  /** The file positions of the entries over b, innermost first. */
  function NestingOrder(S: seq<Entry>, b: BasicBlock): (r: seq<nat>) {
    Innermost(S, Covering(S, b, |S|))
  }

  /** Among the entries over b, an entry strictly inside another is listed before it. */
  ghost predicate InnerFirst(handlers: seq<ExceptionHandler>, b: BasicBlock) {
    forall i: nat, j: nat {:trigger StrictlyInside(handlers[i], handlers[j])} {:trigger Encloses(handlers[j], handlers[i])} ::
      (i < |handlers| && j < |handlers| && Covers(handlers[i], b) && Covers(handlers[j], b) && StrictlyInside(handlers[i], handlers[j])) ==> i < j
  }

  /** Both lists name the same entries. */
  lemma InnermostSame(S: seq<Entry>, handlers: seq<ExceptionHandler>, b: BasicBlock, c: seq<nat>)
    requires TableOf(S, handlers) && Lists(S, b, |S|, c)
    ensures forall x :: x in Innermost(S, c) <==> x in InFileOrder(handlers, b, |handlers|)
  {
    var r, f := Innermost(S, c), InFileOrder(handlers, b, |handlers|);
    forall x | x in r ensures x in f {
      var k :| 0 <= k < |r| && r[k] == x;
      assert c[|c| - 1 - k] in c;
    }
    forall x | x in f ensures x in r {
      var m := Position(S, handlers, x);
      assert m in c;
      var k :| 0 <= k < |c| && c[k] == m;
      assert r[|c| - 1 - k] == x;
    }
  }

  lemma Position(S: seq<Entry>, handlers: seq<ExceptionHandler>, i: nat) returns (k: nat)
    requires TableOf(S, handlers) && i < |handlers|
    ensures k < |S| && S[k].fileOrder == i && S[k].handler == handlers[i]
  {
    assert HasEntry(S, i);
    k :| 0 <= k < |S| && S[k].fileOrder == i;
  }

  /** If inner entries come first, the innermost-first list ascends in file order. */
  lemma InnermostAscends(S: seq<Entry>, handlers: seq<ExceptionHandler>, b: BasicBlock, c: seq<nat>)
    requires Laminar(S) && TableOf(S, handlers) && b.start < b.end && Lists(S, b, |S|, c) && InnerFirst(handlers, b)
    ensures Ascends(Innermost(S, c))
  {
    var r := Innermost(S, c);
    forall j, k | 0 <= j < k < |r| ensures r[j] < r[k] {
      var x, y := c[|c| - 1 - k], c[|c| - 1 - j];
      assert x in c && y in c && x < y;
      CoveringNests(S, b, x, y);
      assert OuterLe(S[x], S[y]);
      assert Encloses(handlers[r[k]], handlers[r[j]]);
    }
  }

  /** A strictly inner entry comes later in the sorted table. */
  lemma InnerIsLater(S: seq<Entry>, x: nat, y: nat)
    requires Laminar(S) && x < |S| && y < |S|
    ensures StrictlyInside(S[x].handler, S[y].handler) ==> y < x
  {
    assert x < y ==> OuterLe(S[x], S[y]);
  }

  lemma AscendingIndex(c: seq<nat>, x: nat, y: nat) returns (kx: nat, ky: nat)
    requires Ascends(c) && x in c && y in c && y < x
    ensures ky < kx < |c| && c[kx] == x && c[ky] == y
  {
    kx :| 0 <= kx < |c| && c[kx] == x;
    ky :| 0 <= ky < |c| && c[ky] == y;
  }

  lemma AscendsReversed(orders: seq<nat>, c: seq<nat>, r: seq<nat>, x: nat, y: nat)
    requires Ascends(c) && (forall k :: 0 <= k < |c| ==> c[k] < |orders|) && x in c && y in c && y < x < |orders|
    requires Ascends(r) && |r| == |c| && forall k :: 0 <= k < |r| ==> r[k] == orders[c[|c| - 1 - k]]
    ensures orders[x] < orders[y]
  {
    var kx, ky := AscendingIndex(c, x, y);
    var p, q := |c| - 1 - kx, |c| - 1 - ky;
    assert r[p] < r[q];
  }

  function FileOrders(S: seq<Entry>): (r: seq<nat>)
    ensures |r| == |S| && forall k :: 0 <= k < |S| ==> r[k] == S[k].fileOrder
  {
    if S == [] then [] else FileOrders(S[..|S| - 1]) + [S[|S| - 1].fileOrder]
  }

  lemma InnerBefore(S: seq<Entry>, handlers: seq<ExceptionHandler>, b: BasicBlock, c: seq<nat>, i: nat, j: nat)
    requires Laminar(S) && TableOf(S, handlers) && Lists(S, b, |S|, c) && Ascends(Innermost(S, c))
    requires i < |handlers| && j < |handlers| && Covers(handlers[i], b) && Covers(handlers[j], b) && StrictlyInside(handlers[i], handlers[j])
    ensures i < j
  {
    var x := Position(S, handlers, i);
    var y := Position(S, handlers, j);
    InnerIsLater(S, x, y);
    AscendsReversed(FileOrders(S), c, Innermost(S, c), x, y);
  }

  /** If the innermost-first list ascends in file order, inner entries come first. */
  lemma AscendsIsInnerFirst(S: seq<Entry>, handlers: seq<ExceptionHandler>, b: BasicBlock, c: seq<nat>)
    requires Laminar(S) && TableOf(S, handlers) && Lists(S, b, |S|, c) && Ascends(Innermost(S, c))
    ensures InnerFirst(handlers, b)
  {
    forall i: nat, j: nat | i < |handlers| && j < |handlers| && Covers(handlers[i], b) && Covers(handlers[j], b) && StrictlyInside(handlers[i], handlers[j])
      ensures i < j
    {
      InnerBefore(S, handlers, b, c, i, j);
    }
  }

  /** The innermost-first list is the file-order list exactly when inner entries come first. */
  lemma InnermostIsFileOrder(S: seq<Entry>, handlers: seq<ExceptionHandler>, b: BasicBlock, c: seq<nat>)
    requires Laminar(S) && TableOf(S, handlers) && b.start < b.end && Lists(S, b, |S|, c)
    ensures Innermost(S, c) == InFileOrder(handlers, b, |handlers|) <==> InnerFirst(handlers, b)
  {
    var r, f := Innermost(S, c), InFileOrder(handlers, b, |handlers|);
    if InnerFirst(handlers, b) {
      InnermostAscends(S, handlers, b, c);
      InnermostSame(S, handlers, b, c);
      AscendingUnique(r, f);
    }
    if r == f { AscendsIsInnerFirst(S, handlers, b, c); }
  }

  /** No entry starts or ends inside the block. */
  ghost predicate Aligned(handlers: seq<ExceptionHandler>, b: BasicBlock) {
    forall i :: 0 <= i < |handlers| ==> (Covers(handlers[i], b) || handlers[i].end <= b.start || b.end <= handlers[i].start)
  }

  /** Within an aligned block, the head of the innermost-first list is the VM's choice. */
  lemma HeadIsFirstMatch(S: seq<Entry>, handlers: seq<ExceptionHandler>, b: BasicBlock, c: seq<nat>, pc: int)
    requires Laminar(S) && TableOf(S, handlers) && Lists(S, b, |S|, c)
    requires 0 <= b.start <= pc < b.end && Aligned(handlers, b) && InnerFirst(handlers, b)
    ensures FirstMatch(handlers, pc) == if c == [] then None else Some(Innermost(S, c)[0])
  {
    InnermostIsFileOrder(S, handlers, b, c);
    var f := InFileOrder(handlers, b, |handlers|);
    assert |f| == |c|;
    var m := FirstMatch(handlers, pc);
    if m.Some? { assert Covers(handlers[m.value], b) && m.value in f; }
    if f != [] { assert Covers(handlers[f[0]], b); }
  }
}
