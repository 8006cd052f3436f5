/**
  Python's `sorted()` on a list of strings, as a functional insertion sort
  under the code-point order `Text.LexLe`.
 */
module Sorting {
  import opened Text

  predicate Sorted(xs: seq<string>) {
    forall i, j :: 0 <= i < j < |xs| ==> LexLe(xs[i], xs[j])
  }

  /** `x` is no greater than any element of `xs`. */
  predicate Below(x: string, xs: seq<string>) {
    forall k :: 0 <= k < |xs| ==> LexLe(x, xs[k])
  }

  lemma BelowSorted(x: string, xs: seq<string>)
    requires Sorted(xs) && xs != [] && LexLe(x, xs[0])
    ensures Below(x, xs)
  {
    forall k | 0 <= k < |xs|
      ensures LexLe(x, xs[k])
    {
      if k > 0 {
        LexLeTransitive(x, xs[0], xs[k]);
      }
    }
  }

  /** A sorted list's head is no greater than the rest of it. */
  lemma HeadBelowTail(xs: seq<string>)
    requires Sorted(xs) && xs != []
    ensures Below(xs[0], xs[1..])
  {
    forall k | 0 <= k < |xs[1..]|
      ensures LexLe(xs[0], xs[1..][k])
    {
      assert xs[1..][k] == xs[k + 1];
    }
  }

  /** The tail of a sorted list is sorted. */
  lemma SortedTail(xs: seq<string>)
    requires Sorted(xs) && xs != []
    ensures Sorted(xs[1..])
  {
    forall i, j | 0 <= i < j < |xs[1..]|
      ensures LexLe(xs[1..][i], xs[1..][j])
    {
      assert xs[1..][i] == xs[i + 1] && xs[1..][j] == xs[j + 1];
    }
  }

  /** A string no greater than anything in a sorted list can go in front of it. */
  lemma ConsSorted(y: string, t: seq<string>)
    requires Below(y, t) && Sorted(t)
    ensures Sorted([y] + t)
  {
    var r := [y] + t;
    forall i, j | 0 <= i < j < |r|
      ensures LexLe(r[i], r[j])
    {
      assert r[j] == t[j - 1];
      if i > 0 {
        assert r[i] == t[i - 1];
      }
    }
  }

  /** A bound on `xs` and on `x` bounds any arrangement of `xs` with `x` added. */
  lemma BelowPermutation(y: string, xs: seq<string>, x: string, t: seq<string>)
    requires Below(y, xs) && LexLe(y, x) && multiset(t) == multiset(xs) + multiset{x}
    ensures Below(y, t)
  {
    forall k | 0 <= k < |t|
      ensures LexLe(y, t[k])
    {
      assert t[k] in multiset(t);
      if t[k] != x {
        assert t[k] in multiset(xs);
        var m :| 0 <= m < |xs| && xs[m] == t[k];
      }
    }
  }

  /** Places `x` into the sorted list `xs`. */
  function Insert(x: string, xs: seq<string>): (r: seq<string>)
    requires Sorted(xs)
    ensures Sorted(r)
    ensures multiset(r) == multiset(xs) + multiset{x}
  {
    if xs == [] then [x]
    else if LexLe(x, xs[0]) then
      BelowSorted(x, xs);
      ConsSorted(x, xs);
      [x] + xs
    else
      LexLeTotal(x, xs[0]);
      SortedTail(xs);
      HeadBelowTail(xs);
      var tail := Insert(x, xs[1..]);
      assert xs == [xs[0]] + xs[1..];
      BelowPermutation(xs[0], xs[1..], x, tail);
      ConsSorted(xs[0], tail);
      [xs[0]] + tail
  }

  /** `sorted(xs)`: an ordered permutation of `xs`. */
  function Sort(xs: seq<string>): (r: seq<string>)
    ensures Sorted(r)
    ensures multiset(r) == multiset(xs)
  {
    if xs == [] then []
    else
      assert xs == [xs[0]] + xs[1..];
      Insert(xs[0], Sort(xs[1..]))
  }

  /** The head of a sorted list is no greater than anything the list holds. */
  lemma HeadIsLeast(a: seq<string>, x: string)
    requires Sorted(a) && x in multiset(a)
    ensures a != [] && LexLe(a[0], x)
  {
    var i :| 0 <= i < |a| && a[i] == x;
    if i == 0 {
      LexLeTotal(x, x);
    }
  }

  lemma DropHead(a: seq<string>)
    requires a != []
    ensures multiset(a[1..]) == multiset(a) - multiset{a[0]}
  {
    assert a == [a[0]] + a[1..];
  }

  /** Two sorted lists holding the same strings start with the same string. */
  lemma SameHead(a: seq<string>, b: seq<string>)
    requires Sorted(a) && Sorted(b) && multiset(a) == multiset(b) && a != []
    ensures b != [] && a[0] == b[0]
  {
    assert a[0] in multiset(a);
    HeadIsLeast(b, a[0]);
    HeadIsLeast(a, b[0]);
    LexLeAntisymmetric(a[0], b[0]);
  }

  /** Two sorted lists holding the same strings are the same list. */
  lemma {:induction false} SortedUnique(a: seq<string>, b: seq<string>)
    requires Sorted(a) && Sorted(b) && multiset(a) == multiset(b)
    ensures a == b
    decreases |a|
  {
    if a == [] {
      assert |multiset(b)| == 0;
    } else {
      SameHead(a, b);
      DropHead(a);
      DropHead(b);
      SortedTail(a);
      SortedTail(b);
      SortedUnique(a[1..], b[1..]);
      assert a == [a[0]] + a[1..];
      assert b == [b[0]] + b[1..];
    }
  }
}
