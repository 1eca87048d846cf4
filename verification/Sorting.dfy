/**
 Sorting by a total order, as an insertion sort; its result is the only one there is.
 */
module Sorting {

  ghost predicate TotalOrder<T(!new)>(le: (T, T) -> bool) {
    && (forall a, b :: le(a, b) || le(b, a))
    && (forall a, b :: le(a, b) && le(b, a) ==> a == b)
    && (forall a, b, c :: le(a, b) && le(b, c) ==> le(a, c))
  }

  predicate Sorted<T>(xs: seq<T>, le: (T, T) -> bool) {
    forall i, j :: 0 <= i < j < |xs| ==> le(xs[i], xs[j])
  }

  function Insert<T>(x: T, xs: seq<T>, le: (T, T) -> bool): seq<T> {
    if xs == [] || le(x, xs[0]) then [x] + xs else [xs[0]] + Insert(x, xs[1..], le)
  }

  function Sort<T>(xs: seq<T>, le: (T, T) -> bool): seq<T> {
    if xs == [] then [] else Insert(xs[0], Sort(xs[1..], le), le)
  }

  lemma {:induction false} InsertBag<T>(x: T, xs: seq<T>, le: (T, T) -> bool)
    ensures multiset(Insert(x, xs, le)) == multiset(xs) + multiset{x}
  {
    if xs != [] && !le(x, xs[0]) {
      InsertBag(x, xs[1..], le);
      assert xs == [xs[0]] + xs[1..];
    }
  }

  lemma Prepend<T(!new)>(x: T, xs: seq<T>, le: (T, T) -> bool)
    requires TotalOrder(le) && Sorted(xs, le) && (xs != [] ==> le(x, xs[0]))
    ensures Sorted([x] + xs, le)
  {
  }

  lemma {:induction false} InsertSorted<T(!new)>(x: T, xs: seq<T>, le: (T, T) -> bool)
    requires TotalOrder(le) && Sorted(xs, le)
    ensures Sorted(Insert(x, xs, le), le) && Insert(x, xs, le) != []
    ensures Insert(x, xs, le)[0] == if xs == [] || le(x, xs[0]) then x else xs[0]
  {
    if xs != [] && !le(x, xs[0]) {
      InsertSorted(x, xs[1..], le);
      Prepend(xs[0], Insert(x, xs[1..], le), le);
    } else {
      Prepend(x, xs, le);
    }
  }

  /** Sorting arranges the same values in order. */
  lemma {:induction false} SortSorts<T(!new)>(xs: seq<T>, le: (T, T) -> bool)
    requires TotalOrder(le)
    ensures Sorted(Sort(xs, le), le) && multiset(Sort(xs, le)) == multiset(xs) && |Sort(xs, le)| == |xs|
  {
    hide TotalOrder, Sorted, Insert;
    if xs == [] {
      assert Sorted([], le) by {
        Empty(le);
      }
    } else {
      SortSorts(xs[1..], le);
      InsertSorted(xs[0], Sort(xs[1..], le), le);
      InsertBag(xs[0], Sort(xs[1..], le), le);
      assert xs == [xs[0]] + xs[1..];
      assert |multiset(Sort(xs, le))| == |multiset(xs)|;
    }
  }

  lemma Empty<T>(le: (T, T) -> bool)
    ensures Sorted([], le)
  {
  }

  lemma HeadIsLeast<T(!new)>(xs: seq<T>, ys: seq<T>, le: (T, T) -> bool)
    requires TotalOrder(le) && Sorted(xs, le) && xs != [] && multiset(xs) == multiset(ys)
    ensures forall i :: 0 <= i < |ys| ==> le(xs[0], ys[i])
  {
    forall i | 0 <= i < |ys| ensures le(xs[0], ys[i]) {
      assert ys[i] in multiset(xs);
    }
  }

  /** There is only one arrangement in order. */
  lemma {:induction false} SortedIsUnique<T(!new)>(xs: seq<T>, ys: seq<T>, le: (T, T) -> bool)
    requires TotalOrder(le) && Sorted(xs, le) && Sorted(ys, le) && multiset(xs) == multiset(ys)
    ensures xs == ys
  {
    assert |xs| == |multiset(xs)| == |multiset(ys)| == |ys|;
    if xs != [] {
      HeadIsLeast(xs, ys, le);
      HeadIsLeast(ys, xs, le);
      assert xs[0] == ys[0];
      assert Sorted(xs[1..], le) && Sorted(ys[1..], le);
      hide TotalOrder, Sorted;
      assert xs == [xs[0]] + xs[1..] && ys == [ys[0]] + ys[1..];
      Rest(xs);
      Rest(ys);
      SortedIsUnique(xs[1..], ys[1..], le);
    }
  }

  lemma Rest<T>(xs: seq<T>)
    requires xs != []
    ensures multiset(xs[1..]) == multiset(xs) - multiset{xs[0]}
  {
    assert xs == [xs[0]] + xs[1..];
  }

  predicate Distinct<T(==)>(xs: seq<T>) {
    forall i, j :: 0 <= i < j < |xs| ==> xs[i] != xs[j]
  }

  lemma {:induction false} OnlyOnce<T>(xs: seq<T>, x: T)
    requires x in xs && Distinct(xs)
    ensures multiset(xs)[x] == 1
  {
    var n := |xs| - 1;
    assert xs == xs[..n] + [xs[n]];
    if x in xs[..n] {
      OnlyOnce(xs[..n], x);
    }
  }

  lemma {:induction false} NoneTwice<T>(xs: seq<T>)
    requires forall x :: x in xs ==> multiset(xs)[x] == 1
    ensures Distinct(xs)
  {
    if xs != [] {
      var n := |xs| - 1;
      assert xs == xs[..n] + [xs[n]];
      assert multiset(xs) == multiset(xs[..n]) + multiset{xs[n]};
      assert xs[n] in xs && xs[n] !in multiset(xs[..n]);
      forall x | x in xs[..n] ensures multiset(xs[..n])[x] == 1 {
        assert x in xs && x in multiset(xs[..n]);
      }
      NoneTwice(xs[..n]);
    }
  }
}
