/**
 The interpolated percentile, over exact reals.
 */
module Percentiles {
  import Sorting

  predicate Ascending(xs: seq<real>) {
    forall i, j :: 0 <= i < j < |xs| ==> xs[i] <= xs[j]
  }

  predicate AtMost(x: real, y: real) { x <= y }

  /** sort.Float64s: the ascending arrangement of the same values. */
  function Sort(xs: seq<real>): (out: seq<real>)
    ensures Ascending(out) && multiset(out) == multiset(xs) && |out| == |xs|
  {
    Sorting.SortSorts(xs, AtMost);
    Sorting.Sort(xs, AtMost)
  }

  predicate Least(xs: seq<real>, m: real) { m in xs && forall i :: 0 <= i < |xs| ==> m <= xs[i] }

  predicate Greatest(xs: seq<real>, m: real) { m in xs && forall i :: 0 <= i < |xs| ==> m >= xs[i] }

  lemma HeadIsLeast(xs: seq<real>, ys: seq<real>)
    requires Ascending(xs) && xs != [] && multiset(xs) == multiset(ys)
    ensures Least(ys, xs[0]) && Greatest(ys, xs[|xs| - 1])
  {
    assert xs[0] in multiset(ys) && xs[|xs| - 1] in multiset(ys);
    forall i | 0 <= i < |ys| ensures xs[0] <= ys[i] <= xs[|xs| - 1] {
      assert ys[i] in multiset(xs);
    }
  }

  /** There is only one ascending arrangement. */
  lemma SortedIsUnique(xs: seq<real>, ys: seq<real>)
    requires Ascending(xs) && Ascending(ys) && multiset(xs) == multiset(ys)
    ensures xs == ys
  {
    Sorting.SortedIsUnique(xs, ys, AtMost);
  }

  // ------------------------------------------------------------------------ the function

  method MinFloat(values: seq<real>) returns (m: real)
    ensures m == if values == [] then 0.0 else Sort(values)[0]
  {
    if |values| == 0 {
      return 0.0;
    }
    m := values[0];
    for i := 1 to |values|
      invariant Least(values[..i], m)
    {
      assert values[..i + 1] == values[..i] + [values[i]];
      if values[i] < m {
        m := values[i];
      }
    }
    assert values[..|values|] == values;
    HeadIsLeast(Sort(values), values);
  }

  method MaxFloat(values: seq<real>) returns (m: real)
    ensures m == if values == [] then 0.0 else Sort(values)[|values| - 1]
  {
    if |values| == 0 {
      return 0.0;
    }
    m := values[0];
    for i := 1 to |values|
      invariant Greatest(values[..i], m)
    {
      assert values[..i + 1] == values[..i] + [values[i]];
      if values[i] > m {
        m := values[i];
      }
    }
    assert values[..|values|] == values;
    HeadIsLeast(Sort(values), values);
  }

  function Mix(a: real, b: real, w: real): real {
    a * (1.0 - w) + b * w
  }

  function Ceil(x: real): int {
    if x.Floor as real == x then x.Floor else x.Floor + 1
  }

  /** Linear interpolation of a list at a position between two of its indices. */
  function At(xs: seq<real>, x: real): real
    requires 0.0 <= x && Ceil(x) < |xs|
  {
    var lo, hi := x.Floor, Ceil(x);
    if lo == hi then xs[lo] else Mix(xs[lo], xs[hi], x - lo as real)
  }

  /** The position of `p` in a list of `n` values, cut off at both ends. */
  function Position(p: real, n: nat): real
    requires n > 0
  {
    if p <= 0.0 then 0.0 else if p >= 1.0 then (n - 1) as real else p * (n - 1) as real
  }

  lemma PositionInRange(p: real, n: nat)
    requires n > 0
    ensures 0.0 <= Position(p, n) <= (n - 1) as real && Ceil(Position(p, n)) <= n - 1
  {
    if 0.0 < p < 1.0 {
      Product(1.0 - p, (n - 1) as real);
      Product(p, (n - 1) as real);
    }
  }

  /** The percentile of a list is the interpolation of its ascending arrangement at p. */
  function Value(values: seq<real>, p: real): real {
    if values == [] then 0.0
    else
      PositionInRange(p, |values|);
      At(Sort(values), Position(p, |values|))
  }

  method Percentile(values: seq<real>, p: real) returns (r: real)
    ensures r == Value(values, p)
  {
    hide Sort, Ascending;
    if |values| == 0 {
      return 0.0;
    }
    if p <= 0.0 {
      r := MinFloat(values);
      return;
    }
    if p >= 1.0 {
      r := MaxFloat(values);
      return;
    }
    var cloned := Sort(values);
    var idx := p * (|cloned| - 1) as real;
    PositionInRange(p, |values|);
    assert idx == Position(p, |values|);
    var lo := idx.Floor;
    var hi := Ceil(idx);
    if lo == hi {
      return cloned[lo];
    }
    var weight := idx - lo as real;
    return Mix(cloned[lo], cloned[hi], weight);
  }

  // -------------------------------------------------------------------------- properties

  lemma Product(x: real, y: real)
    requires x >= 0.0 && y >= 0.0
    ensures x * y >= 0.0
  {
  }

  lemma MixBetween(a: real, b: real, w: real)
    requires a <= b && 0.0 <= w <= 1.0
    ensures a <= Mix(a, b, w) <= b
  {
    Product(b - a, w);
    Product(b - a, 1.0 - w);
    assert Mix(a, b, w) == a + (b - a) * w;
    assert b - Mix(a, b, w) == (b - a) * (1.0 - w);
  }

  lemma MixMonotone(a: real, b: real, v: real, w: real)
    requires a <= b && v <= w
    ensures Mix(a, b, v) <= Mix(a, b, w)
  {
    Product(b - a, w - v);
    assert Mix(a, b, w) - Mix(a, b, v) == (b - a) * (w - v);
  }

  /** Interpolation stays between its two neighbours. */
  lemma AtIsBetween(xs: seq<real>, x: real)
    requires Ascending(xs) && 0.0 <= x && Ceil(x) < |xs|
    ensures xs[x.Floor] <= At(xs, x) <= xs[Ceil(x)]
  {
    if x.Floor != Ceil(x) {
      MixBetween(xs[x.Floor], xs[Ceil(x)], x - x.Floor as real);
    }
  }

  lemma AtMonotone(xs: seq<real>, x: real, y: real)
    requires Ascending(xs) && 0.0 <= x <= y && Ceil(x) < |xs| && Ceil(y) < |xs|
    ensures At(xs, x) <= At(xs, y)
  {
    AtIsBetween(xs, x);
    AtIsBetween(xs, y);
    var lo := x.Floor;
    if y.Floor == lo {
      if lo != Ceil(x) && lo != Ceil(y) {
        MixMonotone(xs[lo], xs[lo + 1], x - lo as real, y - lo as real);
      }
    } else {
      assert Ceil(x) <= y.Floor;
    }
  }

  /** The percentile does not depend on the order of the values. */
  lemma PercentileOfPermutation(xs: seq<real>, ys: seq<real>, p: real)
    requires multiset(xs) == multiset(ys)
    ensures Value(xs, p) == Value(ys, p)
  {
    assert |xs| == |multiset(xs)| == |multiset(ys)| == |ys|;
    SortedIsUnique(Sort(xs), Sort(ys));
  }

  /** It is the smallest value at and below 0, and the largest at and above 1. */
  lemma PercentileCutOffs(values: seq<real>, p: real)
    requires values != []
    ensures p <= 0.0 ==> Least(values, Value(values, p))
    ensures p >= 1.0 ==> Greatest(values, Value(values, p))
  {
    HeadIsLeast(Sort(values), values);
    hide Sort;
  }

  /** It never decreases in p, across all interpolation segments and both cut-offs. */
  lemma PercentileMonotone(values: seq<real>, p: real, q: real)
    requires p <= q
    ensures Value(values, p) <= Value(values, q)
  {
    if values != [] {
      var n := |values|;
      PositionInRange(p, n);
      PositionInRange(q, n);
      PositionMonotone(p, q, n);
      AtMonotone(Sort(values), Position(p, n), Position(q, n));
      hide Sort, At, Position, Ascending;
    }
  }

  lemma PositionMonotone(p: real, q: real, n: nat)
    requires p <= q && n > 0
    ensures Position(p, n) <= Position(q, n)
  {
    PositionInRange(p, n);
    PositionInRange(q, n);
    if 0.0 < p && q < 1.0 {
      Product(q - p, (n - 1) as real);
    }
  }

  /** So it always lies between the smallest and the largest value. */
  lemma PercentileInRange(values: seq<real>, p: real)
    requires values != []
    ensures exists lo, hi :: Least(values, lo) && Greatest(values, hi) && lo <= Value(values, p) <= hi
  {
    var lo, hi := if p < 0.0 then p else 0.0, if p > 1.0 then p else 1.0;
    PercentileMonotone(values, lo, p);
    PercentileMonotone(values, p, hi);
    PercentileCutOffs(values, lo);
    PercentileCutOffs(values, hi);
    hide Value, Least, Greatest;
    assert Least(values, Value(values, lo)) && Greatest(values, Value(values, hi));
  }

  lemma FloorOf(i: nat, t: real)
    requires 0.0 <= t < 1.0
    ensures (i as real + t).Floor == i
  {
  }

  /** Between two neighbours of the sorted values it is the straight line: at position i + t, for any way of
      arranging the values in ascending order, the i-th value plus the share t of the step to the next. */
  lemma PercentileInterpolates(values: seq<real>, sorted: seq<real>, i: nat, t: real, p: real)
    requires Ascending(sorted) && multiset(sorted) == multiset(values) && i + 1 < |sorted| && 0.0 <= t <= 1.0
    requires p * (|sorted| - 1) as real == i as real + t
    ensures Value(values, p) == sorted[i] + t * (sorted[i + 1] - sorted[i])
  {
    hide *;
    PositionIs(p, |sorted|, i as real + t);
    InterpolatesAt(values, sorted, i, t, p);
  }

  lemma InterpolatesAt(values: seq<real>, sorted: seq<real>, i: nat, t: real, p: real)
    requires Ascending(sorted) && multiset(sorted) == multiset(values) && i + 1 < |sorted| && 0.0 <= t <= 1.0
    requires Position(p, |sorted|) == i as real + t
    ensures Value(values, p) == sorted[i] + t * (sorted[i + 1] - sorted[i])
  {
    hide *;
    ValueIs(values, sorted, p);
    AtInterpolates(sorted, i, t);
  }

  lemma ValueIs(values: seq<real>, sorted: seq<real>, p: real)
    requires Ascending(sorted) && multiset(sorted) == multiset(values) && sorted != []
    ensures 0.0 <= Position(p, |sorted|) && Ceil(Position(p, |sorted|)) < |sorted|
    ensures Value(values, p) == At(sorted, Position(p, |sorted|))
  {
    assert |sorted| == |multiset(sorted)| == |multiset(values)| == |values|;
    SortedIsUnique(sorted, Sort(values));
    PositionInRange(p, |values|);
    hide Sort, At, Position;
  }

  lemma AtInterpolates(xs: seq<real>, i: nat, t: real)
    requires i + 1 < |xs| && 0.0 <= t <= 1.0
    ensures Ceil(i as real + t) < |xs| && At(xs, i as real + t) == xs[i] + t * (xs[i + 1] - xs[i])
  {
    if t < 1.0 {
      FloorOf(i, t);
      MixIs(xs[i], xs[i + 1], t);
      hide Mix;
    } else {
      FloorOf(i + 1, 0.0);
      assert i as real + t == (i + 1) as real + 0.0;
    }
  }

  lemma MixIs(a: real, b: real, w: real)
    ensures Mix(a, b, w) == a + w * (b - a)
  {
  }

  lemma PositionIs(p: real, n: nat, x: real)
    requires n > 1 && p * (n - 1) as real == x && 0.0 <= x <= (n - 1) as real
    ensures Position(p, n) == x
  {
    var m := (n - 1) as real;
    if p <= 0.0 {
      Product(-p, m);
      assert -p * m == -x;
    } else if p >= 1.0 {
      Product(p - 1.0, m);
      assert (p - 1.0) * m == x - m;
    }
  }
}
