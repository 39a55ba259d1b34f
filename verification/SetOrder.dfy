// A set of numbers listed in ascending order.
module SetOrder {
  /** The members of a set in ascending order: `[...set].sort((a, b) => a - b)`. */
  function Ascending(s: set<int>): (r: seq<int>)
    ensures forall x :: x in r <==> x in s
    ensures Ascends(r)
    decreases |s|
  {
    if |s| == 0 then []
    else
      LeastExists(s);
      var m :| m in s && forall y :: y in s ==> m <= y;
      [m] + Ascending(s - {m})
  }

  lemma LeastExists(s: set<int>)
    requires |s| > 0
    ensures exists m :: m in s && forall y :: y in s ==> m <= y
  {
    var m := Least(s);
  }

  lemma {:induction false} Least(s: set<int>) returns (m: int)
    requires |s| > 0
    ensures m in s && forall y :: y in s ==> m <= y
    decreases |s|
  {
    NonemptyHasMember(s);
    var x :| x in s;
    var rest := s - {x};
    m := x;
    if |rest| > 0 {
      var n := Least(rest);
      m := if n < x then n else x;
    }
    forall y | y in s ensures m <= y {
      if y != x { assert y in rest; }
    }
  }

  lemma NonemptyHasMember(s: set<int>)
    ensures |s| > 0 ==> exists x :: x in s
  {
    if !exists x :: x in s { assert s == {}; }
  }

  ghost predicate Ascends(s: seq<int>) {
    forall i, j :: 0 <= i < j < |s| ==> s[i] < s[j]
  }

  /** There is only one ascending list of a given set. */
  lemma {:induction false} AscendingUnique(a: seq<int>, b: seq<int>)
    requires Ascends(a) && Ascends(b)
    requires forall x :: x in a <==> x in b
    ensures a == b
    decreases |a|
  {
    assert a != [] ==> a[|a| - 1] in a && a[|a| - 1] in b;
    assert b != [] ==> b[|b| - 1] in b && b[|b| - 1] in a;
    if a != [] {
      var a', b' := a[..|a| - 1], b[..|b| - 1];
      forall z ensures z in a' <==> z in b' {
        assert z in a' <==> z in a && z != a[|a| - 1];
        assert z in b' <==> z in b && z != b[|b| - 1];
      }
      AscendingUnique(a', b');
    }
  }
}
