/** Enumerating a set in some order, and sorting by a key. */
module Sorting {

  ghost predicate Distinct<T(!new)>(xs: seq<T>) {
    forall i, j :: 0 <= i < j < |xs| ==> xs[i] != xs[j]
  }

  ghost predicate SortedBy<T>(xs: seq<T>, key: T -> int) {
    forall i, j :: 0 <= i <= j < |xs| ==> key(xs[i]) <= key(xs[j])
  }

  ghost function Elements<T>(xs: seq<T>): set<T> {
    set x | x in xs
  }

  /** The order of a hash table: every element once, in no particular order. */
  method Enumerate<T(==, !new)>(s: set<T>) returns (xs: seq<T>)
    ensures Distinct(xs) && Elements(xs) == s && |xs| == |s|
  {
    xs := [];
    var rest := s;
    while rest != {}
      invariant Distinct(xs) && rest <= s
      invariant Elements(xs) == s - rest && |xs| == |s| - |rest|
      decreases |rest|
    {
      var x :| x in rest;
      assert x !in Elements(xs);
      xs := xs + [x];
      assert Elements(xs) == Elements(xs[..|xs| - 1]) + {x};
      rest := rest - {x};
    }
  }

  /** The place of `x` in a sorted sequence, after everything that is not larger. */
  function Place<T>(xs: seq<T>, x: T, key: T -> int): (p: nat)
    ensures p <= |xs|
    ensures forall i :: 0 <= i < p ==> key(xs[i]) <= key(x)
    ensures p < |xs| ==> key(x) < key(xs[p])
  {
    if xs == [] || key(x) < key(xs[0]) then 0 else
      var p := 1 + Place(xs[1..], x, key);
      assert forall i :: 1 <= i < p ==> xs[i] == xs[1..][i - 1];
      p
  }

  function Insert<T>(xs: seq<T>, x: T, key: T -> int): (r: seq<T>)
    requires SortedBy(xs, key)
    ensures SortedBy(r, key) && multiset(r) == multiset(xs) + multiset{x}
  {
    var p := Place(xs, x, key);
    InsertKeepsOrder(xs, x, key, p);
    assert xs == xs[..p] + xs[p..];
    xs[..p] + [x] + xs[p..]
  }

  lemma InsertKeepsOrder<T>(xs: seq<T>, x: T, key: T -> int, p: nat)
    requires SortedBy(xs, key) && p <= |xs|
    requires forall i :: 0 <= i < p ==> key(xs[i]) <= key(x)
    requires p < |xs| ==> key(x) < key(xs[p])
    ensures SortedBy(xs[..p] + [x] + xs[p..], key)
  {
    var r := xs[..p] + [x] + xs[p..];
    forall i, j | 0 <= i <= j < |r|
      ensures key(r[i]) <= key(r[j])
    {
      if j == p {
        assert i < p ==> r[i] == xs[i];
      } else if p < j {
        assert r[j] == xs[j - 1] && key(xs[p]) <= key(xs[j - 1]);
        assert r[i] == if i < p then xs[i] else if i == p then x else xs[i - 1];
      }
    }
  }

  function SortBy<T>(xs: seq<T>, key: T -> int): (r: seq<T>)
    ensures SortedBy(r, key) && multiset(r) == multiset(xs)
  {
    if xs == [] then []
    else
      assert xs == xs[..|xs| - 1] + [xs[|xs| - 1]];
      Insert(SortBy(xs[..|xs| - 1], key), xs[|xs| - 1], key)
  }

  lemma {:induction false} DistinctCounts<T(!new)>(xs: seq<T>)
    ensures Distinct(xs) <==> forall x :: multiset(xs)[x] <= 1
  {
    if xs != [] {
      var front, last := xs[..|xs| - 1], xs[|xs| - 1];
      assert xs == front + [last];
      DistinctCounts(front);
      if Distinct(xs) {
        assert last !in front;
        assert multiset(front)[last] == 0;
      }
      if forall x :: multiset(xs)[x] <= 1 {
        assert multiset(xs) == multiset(front) + multiset{last};
        assert multiset(xs)[last] == multiset(front)[last] + 1;
        assert last !in front;
        assert forall x :: multiset(front)[x] <= multiset(xs)[x];
      }
    }
  }

  /** Sorting keeps the elements, each as often as before. */
  lemma SortKeepsDistinct<T(!new)>(xs: seq<T>, key: T -> int)
    requires Distinct(xs)
    ensures Distinct(SortBy(xs, key)) && Elements(SortBy(xs, key)) == Elements(xs) && |SortBy(xs, key)| == |xs|
  {
    var r := SortBy(xs, key);
    DistinctCounts(xs);
    DistinctCounts(r);
    assert forall x :: x in xs <==> x in multiset(xs);
    assert forall x :: x in r <==> x in multiset(r);
    assert |multiset(r)| == |r| && |multiset(xs)| == |xs|;
  }

  lemma {:induction false} DistinctSize<T(!new)>(xs: seq<T>)
    requires Distinct(xs)
    ensures |Elements(xs)| == |xs|
  {
    if xs != [] {
      var front, last := xs[..|xs| - 1], xs[|xs| - 1];
      DistinctSize(front);
      assert Elements(xs) == Elements(front) + {last};
    }
  }

  lemma SubsetSize<T>(a: set<T>, b: set<T>)
    requires a <= b
    ensures |a| <= |b|
  {
    assert b == a + (b - a);
  }
}
