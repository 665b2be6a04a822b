/** Stable sorting of a list, as the standard library does it. */
module Sorting {
  ghost predicate IsTotalOrder<T(!new)>(le: (T, T) -> bool) {
    && (forall a, b :: le(a, b) || le(b, a))
    && (forall a, b, c :: le(a, b) && le(b, c) ==> le(a, c))
  }

  ghost predicate Sorted<T>(le: (T, T) -> bool, xs: seq<T>) {
    forall i, j :: 0 <= i < j < |xs| ==> le(xs[i], xs[j])
  }

  ghost predicate Distinct<T>(xs: seq<T>) {
    forall i, j :: 0 <= i < j < |xs| ==> xs[i] != xs[j]
  }

  function InsertInto<T>(le: (T, T) -> bool, x: T, xs: seq<T>): seq<T> {
    if xs == [] then [x]
    else if le(x, xs[0]) then [x] + xs
    else [xs[0]] + InsertInto(le, x, xs[1..])
  }

  function SortBy<T>(le: (T, T) -> bool, xs: seq<T>): seq<T> {
    if xs == [] then [] else InsertInto(le, xs[0], SortBy(le, xs[1..]))
  }

  lemma {:induction false} InsertIsPermutation<T>(le: (T, T) -> bool, x: T, xs: seq<T>)
    ensures multiset(InsertInto(le, x, xs)) == multiset(xs) + multiset{x}
  {
    if xs != [] {
      assert xs == [xs[0]] + xs[1..];
      if !le(x, xs[0]) {
        InsertIsPermutation(le, x, xs[1..]);
      }
    }
  }

  lemma InsertMember<T>(le: (T, T) -> bool, x: T, xs: seq<T>, y: T)
    requires y in InsertInto(le, x, xs)
    ensures y == x || y in xs
  {
    InsertIsPermutation(le, x, xs);
    assert y in multiset(InsertInto(le, x, xs));
  }

  lemma {:induction false} InsertKeepsSorted<T(!new)>(le: (T, T) -> bool, x: T, xs: seq<T>)
    requires IsTotalOrder(le) && Sorted(le, xs)
    ensures Sorted(le, InsertInto(le, x, xs))
  {
    if xs != [] && !le(x, xs[0]) {
      var rest := InsertInto(le, x, xs[1..]);
      InsertKeepsSorted(le, x, xs[1..]);
      forall j | 0 <= j < |rest|
        ensures le(xs[0], rest[j])
      {
        InsertMember(le, x, xs[1..], rest[j]);
      }
    }
  }

  lemma {:induction false} SortIsPermutation<T>(le: (T, T) -> bool, xs: seq<T>)
    ensures multiset(SortBy(le, xs)) == multiset(xs)
  {
    if xs != [] {
      SortIsPermutation(le, xs[1..]);
      InsertIsPermutation(le, xs[0], SortBy(le, xs[1..]));
      assert xs == [xs[0]] + xs[1..];
    }
  }

  lemma {:induction false} SortSorts<T(!new)>(le: (T, T) -> bool, xs: seq<T>)
    requires IsTotalOrder(le)
    ensures Sorted(le, SortBy(le, xs))
  {
    if xs != [] {
      SortSorts(le, xs[1..]);
      InsertKeepsSorted(le, xs[0], SortBy(le, xs[1..]));
    }
  }

  lemma SortMembers<T>(le: (T, T) -> bool, xs: seq<T>)
    ensures forall x :: x in SortBy(le, xs) <==> x in xs
    ensures |SortBy(le, xs)| == |xs|
  {
    SortIsPermutation(le, xs);
    assert |multiset(SortBy(le, xs))| == |multiset(xs)|;
    forall x
      ensures x in SortBy(le, xs) <==> x in xs
    {
      assert x in SortBy(le, xs) <==> x in multiset(SortBy(le, xs));
      assert x in xs <==> x in multiset(xs);
    }
  }

  lemma {:induction false} CountedOnce<T>(xs: seq<T>, x: T)
    requires Distinct(xs)
    ensures multiset(xs)[x] <= 1
  {
    if xs != [] {
      CountedOnce(xs[1..], x);
      assert xs == [xs[0]] + xs[1..];
      if x == xs[0] {
        assert x !in xs[1..];
      }
    }
  }

  lemma CountedTwice<T>(xs: seq<T>, i: nat, j: nat)
    requires i < j < |xs| && xs[i] == xs[j]
    ensures multiset(xs)[xs[i]] >= 2
  {
    assert xs == xs[..j] + [xs[j]] + xs[j + 1..];
    assert xs[i] in xs[..j];
  }

  lemma SortKeepsDistinct<T>(le: (T, T) -> bool, xs: seq<T>)
    requires Distinct(xs)
    ensures Distinct(SortBy(le, xs))
  {
    var ys := SortBy(le, xs);
    SortIsPermutation(le, xs);
    forall i, j | 0 <= i < j < |ys|
      ensures ys[i] != ys[j]
    {
      CountedOnce(xs, ys[i]);
      if ys[i] == ys[j] {
        CountedTwice(ys, i, j);
      }
    }
  }
}
