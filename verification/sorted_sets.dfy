/** Ascending enumeration of a finite set of ints: the order in which the
    stores hand out entities when asked to sort by an integer key. */
module SortedSets {

  predicate StrictlyIncreasing(xs: seq<int>) {
    forall i, j :: 0 <= i < j < |xs| ==> xs[i] < xs[j]
  }

  /** Some element of a non-empty set. */
  lemma PickElement<T>(xs: set<T>) returns (x: T)
    requires xs != {}
    ensures x in xs
  {
    x :| x in xs;
  }

  lemma {:induction false} MinExists(xs: set<int>)
    requires xs != {}
    ensures exists m :: m in xs && forall y :: y in xs ==> m <= y
    decreases |xs|
  {
    var x := PickElement(xs);
    if xs != {x} {
      var rest := xs - {x};
      MinExists(rest);
      var m :| m in rest && forall y :: y in rest ==> m <= y;
      var least := if x < m then x else m;
      forall y | y in xs
        ensures least <= y
      {
        if y != x {
          assert y in rest;
        }
      }
    } else {
      forall y | y in xs
        ensures x <= y
      {
        assert y in {x};
      }
    }
  }

  /** The least element of a non-empty set. */
  function Min(xs: set<int>): (m: int)
    requires xs != {}
    ensures m in xs
    ensures forall y :: y in xs ==> m <= y
  {
    MinExists(xs);
    var m :| m in xs && forall y :: y in xs ==> m <= y;
    m
  }

  /** The elements of `xs` in ascending order. */
  function SortedElements(xs: set<int>): (r: seq<int>)
    ensures StrictlyIncreasing(r)
    ensures |r| == |xs|
    ensures forall x :: x in r <==> x in xs
    decreases |xs|
  {
    if xs == {} then []
    else
      var m := Min(xs);
      [m] + SortedElements(xs - {m})
  }

  /** Two ascending sequences with the same elements are the same sequence. */
  lemma {:induction false} IncreasingWithSameElementsEqual(a: seq<int>, b: seq<int>)
    requires StrictlyIncreasing(a) && StrictlyIncreasing(b)
    requires forall x :: x in a <==> x in b
    ensures a == b
    decreases |a|
  {
    if |a| > 0 {
      assert a[0] in a;
    }
    if |b| > 0 {
      assert b[0] in b;
    }
    if |a| > 0 {
      assert a[0] == b[0];
      forall x
        ensures x in a[1..] <==> x in b[1..]
      {
        if x in a[1..] {
          var i :| 1 <= i < |a| && a[i] == x;
          assert x > a[0];
          assert x in a;
          var j :| 0 <= j < |b| && b[j] == x;
          assert j != 0;
        }
        if x in b[1..] {
          var j :| 1 <= j < |b| && b[j] == x;
          assert x > b[0];
          assert x in b;
          var i :| 0 <= i < |a| && a[i] == x;
          assert i != 0;
        }
      }
      IncreasingWithSameElementsEqual(a[1..], b[1..]);
      assert a == [a[0]] + a[1..];
      assert b == [b[0]] + b[1..];
    }
  }

  /** `SortedElements` is the only ascending enumeration of a set. */
  lemma SortedElementsUnique(xs: set<int>, r: seq<int>)
    requires StrictlyIncreasing(r)
    requires forall x :: x in r <==> x in xs
    ensures r == SortedElements(xs)
  {
    IncreasingWithSameElementsEqual(r, SortedElements(xs));
  }

  /** The consecutive integers `lo, lo+1, ..., lo+n-1`. */
  function Range(lo: int, n: nat): (r: seq<int>)
    ensures |r| == n
    ensures forall i :: 0 <= i < n ==> r[i] == lo + i
  {
    seq(n, i => lo + i)
  }

  /** The set `{lo, ..., lo+n-1}`. */
  function Interval(lo: int, n: nat): (s: set<int>)
    ensures forall x :: x in s <==> lo <= x < lo + n
  {
    var r := Range(lo, n);
    forall x | lo <= x < lo + n
      ensures x in r
    {
      assert r[x - lo] == x;
    }
    set x | x in r
  }

  /** Enumerating a set of consecutive integers gives them in order. */
  lemma SortedRange(lo: int, n: nat)
    ensures SortedElements(Interval(lo, n)) == Range(lo, n)
  {
    var r := Range(lo, n);
    forall x
      ensures x in r <==> x in Interval(lo, n)
    {
      if lo <= x < lo + n {
        assert r[x - lo] == x;
      }
    }
    SortedElementsUnique(Interval(lo, n), r);
  }
}
