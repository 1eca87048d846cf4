/**
 nDCG@k over exact reals.  `discount(i)` stands for log2(i+2): all that the bound needs is that
 it is positive and non-decreasing, and all that its tightness needs is that it is increasing.
 */
module Ndcg {
  import Sorting

  type DocID = string

  function Pow2(n: nat): real {
    if n == 0 then 1.0 else 2.0 * Pow2(n - 1)
  }

  /** math.Pow(2, rel) - 1, for the positive relevances that buildRelevantMap keeps. */
  function Gain(rel: int): real {
    if rel <= 0 then 0.0 else Pow2(rel) - 1.0
  }

  ghost predicate Discounts(discount: nat -> real) {
    (forall i: nat :: discount(i) > 0.0) && (forall i: nat, j: nat :: i <= j ==> discount(i) <= discount(j))
  }

  ghost predicate Increasing(discount: nat -> real) {
    forall i: nat, j: nat :: i < j ==> discount(i) < discount(j)
  }

  // -------------------------------------------------------------------------- relevances

  datatype QRel = QRel(qid: string, docID: DocID, relevance: int)

  type Relevant = map<DocID, int>

  predicate Positive(relevant: Relevant) {
    forall d :: d in relevant ==> relevant[d] > 0
  }

  /** The last positive judgement of a document for a query, if there is one. */
  function Judged(qrels: seq<QRel>, qid: string, d: DocID): int {
    if qrels == [] then 0
    else
      var last := qrels[|qrels| - 1];
      if last.qid == qid && last.docID == d && last.relevance > 0 then last.relevance
      else Judged(qrels[..|qrels| - 1], qid, d)
  }

  method BuildRelevantMap(qrels: seq<QRel>) returns (out: map<string, Relevant>)
    ensures forall q :: q in out ==> Positive(out[q]) && out[q] != map[]
    ensures forall q, d :: (if q in out && d in out[q] then out[q][d] else 0) == Judged(qrels, q, d)
  {
    out := map[];
    for n := 0 to |qrels|
      invariant forall q :: q in out ==> Positive(out[q]) && out[q] != map[]
      invariant forall q, d :: (if q in out && d in out[q] then out[q][d] else 0) == Judged(qrels[..n], q, d)
    {
      var rel := qrels[n];
      assert qrels[..n + 1][..n] == qrels[..n];
      if rel.relevance > 0 {
        var bucket := if rel.qid in out then out[rel.qid] else map[];
        assert bucket[rel.docID := rel.relevance] != map[] by {
          assert rel.docID in bucket[rel.docID := rel.relevance];
        }
        out := out[rel.qid := bucket[rel.docID := rel.relevance]];
      }
    }
    assert qrels[..|qrels|] == qrels;
  }

  // ---------------------------------------------------------------------------- sorting

  function Rel(relevant: Relevant, d: DocID): int {
    if d in relevant then relevant[d] else 0
  }

  /** The bag of a map's values. */
  ghost function Values(m: Relevant): multiset<int> {
    if m == map[] then multiset{}
    else
      var k :| k in m;
      multiset{m[k]} + Values(m - {k})
  }

  lemma ValuesPick(m: Relevant) returns (k: DocID)
    requires m != map[]
    ensures k in m && Values(m) == multiset{m[k]} + Values(m - {k}) && |m - {k}| < |m|
  {
    k :| k in m && Values(m) == multiset{m[k]} + Values(m - {k});
    Shrinks(m, k);
  }

  lemma Shrinks(m: Relevant, k: DocID)
    requires k in m
    ensures |m - {k}| < |m|
  {
    assert (m - {k}).Keys == m.Keys - {k};
    assert |m| == |m.Keys| && |m - {k}| == |(m - {k}).Keys|;
  }

  lemma {:induction false} ValuesSplit(m: Relevant, d: DocID)
    requires d in m
    ensures Values(m) == multiset{m[d]} + Values(m - {d})
    decreases |m|
  {
    var k := ValuesPick(m);
    hide Values;
    if k != d {
      Shrinks(m, d);
      ValuesSplit(m - {k}, d);
      ValuesSplit(m - {d}, k);
      Commute(m, d, k);
      Swap(m[d], m[k], Values(m - {k} - {d}));
    }
  }

  lemma Commute(m: Relevant, d: DocID, k: DocID)
    ensures m - {k} - {d} == m - {d} - {k}
  {
  }

  lemma Swap(x: int, y: int, bag: multiset<int>)
    ensures multiset{x} + (multiset{y} + bag) == multiset{y} + (multiset{x} + bag)
  {
  }

  lemma {:induction false} ValuesPositive(m: Relevant)
    requires Positive(m)
    ensures forall x :: x in Values(m) ==> x > 0
    decreases |m|
  {
    if m != map[] {
      var k := ValuesPick(m);
      ValuesPositive(m - {k});
    }
  }

  predicate Descending(xs: seq<int>) {
    forall i, j :: 0 <= i < j < |xs| ==> xs[i] >= xs[j]
  }

  predicate AtLeast(x: int, y: int) { x >= y }

  /** sort.Slice of ints: the descending arrangement of the same values. */
  function SortDescending(xs: seq<int>): (out: seq<int>)
    ensures Descending(out) && multiset(out) == multiset(xs)
  {
    Sorting.SortSorts(xs, AtLeast);
    Sorting.Sort(xs, AtLeast)
  }

  // -------------------------------------------------------------------------- the metric

  function Min(a: int, b: int): int {
    if a <= b then a else b
  }

  /** How many results count. */
  function Counted(k: int, n: nat): nat { if k < 0 then 0 else Min(k, n) }

  function Over(x: real, q: real): real
    requires q != 0.0
  {
    x / q
  }

  /** The discounted sum of the first `k` gains. */
  function Sum(gains: seq<real>, discount: nat -> real, k: nat): real
    requires k <= |gains|
    requires forall i: nat :: discount(i) != 0.0
  {
    if k == 0 then 0.0 else Sum(gains, discount, k - 1) + Over(gains[k - 1], discount(k - 1))
  }

  function Gains(rels: seq<int>): seq<real> {
    seq(|rels|, i requires 0 <= i < |rels| => Gain(rels[i]))
  }

  function RelsOf(results: seq<DocID>, relevant: Relevant): seq<int> {
    seq(|results|, i requires 0 <= i < |results| => Rel(relevant, results[i]))
  }

  /** The list of relevances in descending order. */
  ghost predicate IsIdeal(ideal: seq<int>, relevant: Relevant) {
    Descending(ideal) && multiset(ideal) == Values(relevant)
  }

  /** The value ndcgAtK returns, for an ideal ranking `ideal`. */
  function Score(results: seq<DocID>, relevant: Relevant, ideal: seq<int>, discount: nat -> real, k: int): real
    requires forall i: nat :: discount(i) != 0.0
  {
    var n := Counted(k, |results|);
    var m := Min(n, |ideal|);
    var idcg := Sum(Gains(ideal), discount, m);
    if relevant == map[] || idcg == 0.0 then 0.0 else Sum(Gains(RelsOf(results, relevant)), discount, n) / idcg
  }

  /** The first loop of ndcgAtK: irrelevant results are skipped. */
  method Dcg(results: seq<DocID>, relevant: Relevant, n: int, discount: nat -> real) returns (dcg: real)
    requires n <= |results| && forall i: nat :: discount(i) != 0.0
    ensures dcg == Sum(Gains(RelsOf(results, relevant)), discount, if n < 0 then 0 else n)
  {
    dcg := 0.0;
    var i := 0;
    while i < n
      invariant 0 <= i <= (if n < 0 then 0 else n)
      invariant dcg == Sum(Gains(RelsOf(results, relevant)), discount, i)
    {
      var rel := Rel(relevant, results[i]);
      if rel > 0 {
        dcg := dcg + Over(Pow2(rel) - 1.0, discount(i));
      }
      i := i + 1;
    }
  }

  /** Its second loop, over the ideal ranking. */
  method Idcg(ideal: seq<int>, n: int, discount: nat -> real) returns (idcg: real)
    requires n <= |ideal| && (forall i: nat :: discount(i) != 0.0) && forall i :: 0 <= i < |ideal| ==> ideal[i] > 0
    ensures idcg == Sum(Gains(ideal), discount, if n < 0 then 0 else n)
  {
    idcg := 0.0;
    var i := 0;
    while i < n
      invariant 0 <= i <= (if n < 0 then 0 else n)
      invariant idcg == Sum(Gains(ideal), discount, i)
    {
      idcg := idcg + Over(Pow2(ideal[i]) - 1.0, discount(i));
      i := i + 1;
    }
  }

  method NdcgAtK(results: seq<DocID>, relevant: Relevant, k: int, discount: nat -> real)
    returns (score: real)
    requires (forall i: nat :: discount(i) > 0.0) && Positive(relevant)
    ensures exists ideal :: IsIdeal(ideal, relevant) && score == Score(results, relevant, ideal, discount, k)
  {
    var ideal := IdealRanking(relevant);
    if |relevant| == 0 {
      return 0.0;
    }
    Padding(ideal, relevant, 0);
    hide IsIdeal, Sum, Gains, RelsOf;
    var n := k;
    if n > |results| {
      n := |results|;
    }
    var dcg := Dcg(results, relevant, n, discount);
    if n > |ideal| {
      n := |ideal|;
    }
    var idcg := Idcg(ideal, n, discount);
    if idcg == 0.0 {
      return 0.0;
    }
    score := dcg / idcg;
  }

  method IdealRanking(relevant: Relevant) returns (ideal: seq<int>)
    ensures IsIdeal(ideal, relevant)
  {
    var rest, values := relevant, [];
    while rest != map[]
      invariant multiset(values) + Values(rest) == Values(relevant)
      decreases |rest|
    {
      var d :| d in rest;
      ValuesSplit(rest, d);
      values := values + [rest[d]];
      rest := rest - {d};
    }
    ideal := SortDescending(values);
  }

  // ------------------------------------------------------------------ rearrangement bound

  lemma {:induction false} Pow2Monotone(a: nat, b: nat)
    requires a < b
    ensures 1.0 <= Pow2(a) < Pow2(b)
  {
    if a > 0 {
      Pow2Monotone(a - 1, b - 1);
    } else if b > 1 {
      Pow2Monotone(0, b - 1);
    }
  }

  lemma GainMonotone(a: int, b: int)
    requires a <= b
    ensures 0.0 <= Gain(a) <= Gain(b)
    ensures a < b && b > 0 ==> Gain(a) < Gain(b)
  {
    if b > 0 {
      Pow2Monotone(0, b);
      if 0 < a < b {
        Pow2Monotone(a, b);
      }
    }
  }

  /** The undiscounted sum of a list's gains. */
  function Total(xs: seq<int>): real {
    if xs == [] then 0.0 else Gain(xs[0]) + Total(xs[1..])
  }

  lemma {:induction false} TotalConcat(xs: seq<int>, ys: seq<int>)
    ensures Total(xs + ys) == Total(xs) + Total(ys)
  {
    if xs == [] {
      assert xs + ys == ys;
    } else {
      assert (xs + ys)[1..] == xs[1..] + ys;
      TotalConcat(xs[1..], ys);
    }
  }

  /** The `m` largest values of a descending list have the largest total gain of any `m` of them. */
  lemma {:induction false} TopIsLargest(xs: seq<int>, ideal: seq<int>)
    requires Descending(ideal) && multiset(xs) <= multiset(ideal)
    ensures |xs| <= |ideal| && Total(xs) <= Total(ideal[..|xs|])
    decreases |ideal|
  {
    assert |multiset(xs)| == |xs| && |multiset(ideal)| == |ideal|;
    if xs != [] {
      var top, rest := ideal[0], ideal[1..];
      var j := if top in xs then IndexOf(xs, top) else 0;
      var less := xs[..j] + xs[j + 1..];
      WithoutOne(xs, ideal, j);
      TopIsLargest(less, rest);
      assert xs[j] <= top by {
        assert xs[j] in multiset(ideal);
      }
      GainMonotone(xs[j], top);
      TotalWithout(xs, j);
      assert ideal[..|xs|][1..] == rest[..|less|];
    }
  }

  lemma TotalWithout(xs: seq<int>, j: nat)
    requires j < |xs|
    ensures Total(xs) == Gain(xs[j]) + Total(xs[..j] + xs[j + 1..])
  {
    var left, right := xs[..j], xs[j + 1..];
    TotalCons(xs[j], right);
    hide Total;
    TotalConcat(left, [xs[j]] + right);
    TotalConcat(left, right);
    assert xs == left + ([xs[j]] + right);
  }

  lemma TotalCons(x: int, xs: seq<int>)
    ensures Total([x] + xs) == Gain(x) + Total(xs)
  {
    assert ([x] + xs)[1..] == xs;
  }

  lemma WithoutOne(xs: seq<int>, ideal: seq<int>, j: nat)
    requires multiset(xs) <= multiset(ideal) && j < |xs| && ideal != []
    requires xs[j] == ideal[0] || ideal[0] !in xs
    ensures multiset(xs[..j] + xs[j + 1..]) <= multiset(ideal[1..])
  {
    var less, rest := xs[..j] + xs[j + 1..], ideal[1..];
    BagWithout(xs, j);
    BagWithout(ideal, 0);
    assert ideal[..0] + ideal[1..] == rest;
    NotIn(xs, ideal[0]);
    BagDifference(multiset(less), multiset(rest), xs[j], ideal[0], multiset(xs), multiset(ideal));
  }

  lemma NotIn(xs: seq<int>, x: int)
    ensures multiset(xs)[x] == 0 <==> x !in xs
  {
    assert x in multiset(xs) <==> x in xs;
  }

  lemma BagWithout(xs: seq<int>, j: nat)
    requires j < |xs|
    ensures multiset(xs) == multiset(xs[..j] + xs[j + 1..]) + multiset{xs[j]}
  {
    assert xs == xs[..j] + ([xs[j]] + xs[j + 1..]);
  }

  lemma BagDifference(less: multiset<int>, rest: multiset<int>, x: int, top: int, xs: multiset<int>, ideal: multiset<int>)
    requires xs == less + multiset{x} && ideal == rest + multiset{top} && xs <= ideal && (x == top || xs[top] == 0)
    ensures less <= rest
  {
    forall y ensures less[y] <= rest[y] {
      assert xs[y] <= ideal[y];
    }
  }

  function IndexOf(xs: seq<int>, x: int): (j: nat)
    requires x in xs
    ensures j < |xs| && xs[j] == x
  {
    if xs[0] == x then 0 else 1 + IndexOf(xs[1..], x)
  }

  lemma Divide(x: real, p: real, q: real)
    requires x >= 0.0 && 0.0 < p <= q
    ensures Over(x, p) >= Over(x, q) >= 0.0
    ensures x > 0.0 && p < q ==> Over(x, p) > Over(x, q)
    ensures x > 0.0 ==> Over(x, q) > 0.0
  {
    assert x / p - x / q == x * (q - p) / (p * q);
  }

  lemma OverLinear(x: real, y: real, q: real)
    requires q != 0.0
    ensures Over(x - y, q) == Over(x, q) - Over(y, q)
  {
  }

  lemma {:induction false} SumPrefix(xs: seq<int>, ys: seq<int>, discount: nat -> real, k: nat)
    requires forall i: nat :: discount(i) != 0.0
    requires k <= |xs| && k <= |ys| && xs[..k] == ys[..k]
    ensures Sum(Gains(xs), discount, k) == Sum(Gains(ys), discount, k)
  {
    if k > 0 {
      assert xs[..k - 1] == xs[..k][..k - 1] && ys[..k - 1] == ys[..k][..k - 1];
      assert xs[k - 1] == xs[..k][k - 1] && ys[k - 1] == ys[..k][k - 1];
      SumPrefix(xs, ys, discount, k - 1);
    }
  }

  lemma TotalStep(xs: seq<int>, k: nat)
    requires k < |xs|
    ensures Total(xs[..k + 1]) == Total(xs[..k]) + Gain(xs[k])
  {
    assert xs[..k + 1] == xs[..k] + [xs[k]];
    TotalConcat(xs[..k], [xs[k]]);
  }

  function Lead(xs: seq<int>, ys: seq<int>, k: nat): real
    requires k <= |xs| && k <= |ys|
  {
    Total(ys[..k]) - Total(xs[..k])
  }

  lemma LeadStep(xs: seq<int>, ys: seq<int>, k: nat)
    requires k < |xs| && k < |ys|
    ensures Lead(xs, ys, k + 1) == Lead(xs, ys, k) + Gain(ys[k]) - Gain(xs[k])
  {
    TotalStep(xs, k);
    TotalStep(ys, k);
  }

  function SumLead(xs: seq<int>, ys: seq<int>, discount: nat -> real, k: nat): real
    requires (forall i: nat :: discount(i) != 0.0) && k <= |xs| && k <= |ys|
  {
    Sum(Gains(ys), discount, k) - Sum(Gains(xs), discount, k)
  }

  lemma SumLeadStep(xs: seq<int>, ys: seq<int>, discount: nat -> real, k: nat)
    requires (forall i: nat :: discount(i) != 0.0) && k < |xs| && k < |ys|
    ensures SumLead(xs, ys, discount, k + 1)
         == SumLead(xs, ys, discount, k) + Over(Lead(xs, ys, k + 1), discount(k)) - Over(Lead(xs, ys, k), discount(k))
  {
    LeadStep(xs, ys, k);
    OverLinear(Lead(xs, ys, k + 1), Lead(xs, ys, k), discount(k));
    OverLinear(Gain(ys[k]), Gain(xs[k]), discount(k));
  }

  /** Summation by parts: the lead of `ys` over `xs` in discounted sums is at least its lead in
      plain totals, discounted by the last factor. */
  lemma {:induction false} LeadIsKept(xs: seq<int>, ys: seq<int>, discount: nat -> real, k: nat)
    requires Discounts(discount) && 0 < k <= |xs| && k <= |ys|
    requires forall m :: 0 <= m <= k ==> Lead(xs, ys, m) >= 0.0
    ensures SumLead(xs, ys, discount, k) >= Over(Lead(xs, ys, k), discount(k - 1)) >= 0.0
    ensures Increasing(discount) && SumLead(xs, ys, discount, k) == 0.0 ==>
              Lead(xs, ys, k) == 0.0 && forall i :: 0 <= i < k ==> Gain(xs[i]) == Gain(ys[i])
  {
    SumLeadStep(xs, ys, discount, k - 1);
    LeadStep(xs, ys, k - 1);
    var last, lead, before := discount(k - 1), Lead(xs, ys, k), Lead(xs, ys, k - 1);
    Divide(lead, last, last);
    Divide(before, last, last);
    if k > 1 {
      LeadIsKept(xs, ys, discount, k - 1);
      Divide(before, discount(k - 2), last);
    } else {
      assert xs[..0] == [] && ys[..0] == [];
    }
    hide Over, Sum, Total;
  }

  // ---------------------------------------------------------------------- the main results

  function Zeros(n: nat): seq<int> { seq(n, _ => 0) }

  /** Distinct results carry distinct judgements: their relevances are among the map's values,
      padded with zeros for irrelevant documents. */
  lemma {:induction false} RelsAreValues(results: seq<DocID>, relevant: Relevant)
    requires Sorting.Distinct(results)
    ensures multiset(RelsOf(results, relevant)) <= Values(relevant) + multiset(Zeros(|results|))
  {
    if results != [] {
      var n := |results| - 1;
      var d, init := results[n], results[..n];
      var less := relevant - {d};
      assert RelsOf(results, relevant) == RelsOf(init, less) + [Rel(relevant, d)];
      RelsAreValues(init, less);
      assert Zeros(n + 1) == Zeros(n) + [0];
      if d in relevant {
        ValuesSplit(relevant, d);
      } else {
        assert less == relevant;
      }
    }
  }

  lemma Padding(ideal: seq<int>, relevant: Relevant, n: nat)
    requires Positive(relevant) && IsIdeal(ideal, relevant)
    ensures Descending(ideal + Zeros(n)) && multiset(ideal + Zeros(n)) == Values(relevant) + multiset(Zeros(n))
    ensures forall i :: 0 <= i < |ideal| ==> ideal[i] > 0
  {
    ValuesPositive(relevant);
    forall i | 0 <= i < |ideal| ensures ideal[i] > 0 {
      assert ideal[i] in multiset(ideal);
    }
  }

  /** Zeros add nothing to the ideal sum. */
  lemma {:induction false} SumPadded(ideal: seq<int>, discount: nat -> real, n: nat, k: nat)
    requires (forall i: nat :: discount(i) != 0.0) && k <= |ideal| + n
    ensures Sum(Gains(ideal + Zeros(n)), discount, k) == Sum(Gains(ideal), discount, Min(k, |ideal|))
  {
    var padded := ideal + Zeros(n);
    if k <= |ideal| {
      SumPrefix(padded, ideal, discount, k);
    } else {
      SumPadded(ideal, discount, n, k - 1);
      assert padded[k - 1] == 0;
    }
  }

  /** Every prefix of distinct results has at most the ideal total. */
  lemma PrefixTotals(results: seq<DocID>, relevant: Relevant, ideal: seq<int>, m: nat)
    requires Positive(relevant) && IsIdeal(ideal, relevant) && Sorting.Distinct(results) && m <= |results|
    ensures var rels := RelsOf(results, relevant);
      Total(rels[..m]) <= Total((ideal + Zeros(|results|))[..m])
  {
    var rels, padded := RelsOf(results, relevant), ideal + Zeros(|results|);
    Padding(ideal, relevant, |results|);
    RelsAreValues(results, relevant);
    assert rels == rels[..m] + rels[m..];
    assert multiset(rels[..m]) <= multiset(rels);
    TopIsLargest(rels[..m], padded);
  }

  /** The ideal sum is positive as soon as one result counts. */
  lemma {:induction false} SumPositive(xs: seq<int>, discount: nat -> real, k: nat)
    requires Discounts(discount) && 0 < k <= |xs| && forall i :: 0 <= i < k ==> xs[i] > 0
    ensures Sum(Gains(xs), discount, k) > 0.0
  {
    GainMonotone(0, xs[k - 1]);
    Divide(Gain(xs[k - 1]), discount(k - 1), discount(k - 1));
    if k > 1 {
      SumPositive(xs, discount, k - 1);
    }
  }

  lemma {:induction false} SumGrows(xs: seq<int>, discount: nat -> real, j: nat, k: nat)
    requires Discounts(discount) && j <= k <= |xs|
    ensures 0.0 <= Sum(Gains(xs), discount, j) <= Sum(Gains(xs), discount, k)
    decreases k
  {
    if k > 0 {
      GainMonotone(xs[k - 1], xs[k - 1]);
      Divide(Gain(xs[k - 1]), discount(k - 1), discount(k - 1));
      SumGrows(xs, discount, if j < k then j else k - 1, k - 1);
    }
  }

  /** How the discounted sums of the results and of the ideal ranking compare. */
  lemma SumsCompare(results: seq<DocID>, relevant: Relevant, ideal: seq<int>, discount: nat -> real)
    requires Discounts(discount) && Positive(relevant) && IsIdeal(ideal, relevant) && Sorting.Distinct(results) && results != []
    ensures var n := |results|; var m := Min(n, |ideal|);
      var dcg, idcg := Sum(Gains(RelsOf(results, relevant)), discount, n), Sum(Gains(ideal), discount, m);
      && 0.0 <= dcg <= idcg
      && ((forall i :: 0 <= i < m ==> Rel(relevant, results[i]) == ideal[i]) ==> dcg == idcg)
      && (Increasing(discount) && dcg == idcg ==> forall i :: 0 <= i < m ==> Rel(relevant, results[i]) == ideal[i])
  {
    var n, rels, padded := |results|, RelsOf(results, relevant), ideal + Zeros(|results|);
    var m := Min(n, |ideal|);
    forall k | 0 <= k <= n ensures Lead(rels, padded, k) >= 0.0 {
      PrefixTotals(results, relevant, ideal, k);
    }
    LeadIsKept(rels, padded, discount, n);
    SumPadded(ideal, discount, n, n);
    SumGrows(rels, discount, m, n);
    Padding(ideal, relevant, n);
    var dcg, idcg := Sum(Gains(rels), discount, n), Sum(Gains(ideal), discount, m);
    if forall i :: 0 <= i < m ==> Rel(relevant, results[i]) == ideal[i] {
      assert rels[..m] == ideal[..m];
      SumPrefix(rels, ideal, discount, m);
    }
    if Increasing(discount) && dcg == idcg {
      forall i | 0 <= i < m ensures Rel(relevant, results[i]) == ideal[i] {
        assert Gain(rels[i]) == Gain(padded[i]) && padded[i] == ideal[i] > 0;
        GainMonotone(Min(rels[i], ideal[i]), if rels[i] < ideal[i] then ideal[i] else rels[i]);
      }
    }
  }

  /** nDCG lies between 0 and 1 whenever the results that count are pairwise distinct. */
  lemma NdcgAtMostOne(results: seq<DocID>, relevant: Relevant, ideal: seq<int>, discount: nat -> real, k: int)
    requires Discounts(discount) && Positive(relevant) && IsIdeal(ideal, relevant)
    requires Sorting.Distinct(results[..Counted(k, |results|)])
    ensures 0.0 <= Score(results, relevant, ideal, discount, k) <= 1.0
  {
    var n := Counted(k, |results|);
    if n > 0 && relevant != map[] {
      var top := results[..n];
      Truncate(results, relevant, discount, n);
      SumsCompare(top, relevant, ideal, discount);
      IdealSumPositive(relevant, ideal, discount, n);
      var dcg, idcg := Sum(Gains(RelsOf(top, relevant)), discount, n), Sum(Gains(ideal), discount, Min(n, |ideal|));
      assert Score(results, relevant, ideal, discount, k) == dcg / idcg;
      hide *;
      QuotientAtMostOne(dcg, idcg);
    }
  }

  lemma QuotientAtMostOne(x: real, y: real)
    requires 0.0 <= x <= y && y > 0.0
    ensures 0.0 <= x / y <= 1.0
  {
    var q := x / y;
    assert q * y == x;
    assert q > 1.0 ==> q * y > y;
    assert q < 0.0 ==> q * y < 0.0;
  }

  lemma Truncate(results: seq<DocID>, relevant: Relevant, discount: nat -> real, n: nat)
    requires (forall i: nat :: discount(i) != 0.0) && n <= |results|
    ensures Sum(Gains(RelsOf(results, relevant)), discount, n) == Sum(Gains(RelsOf(results[..n], relevant)), discount, n)
  {
    SumPrefix(RelsOf(results, relevant), RelsOf(results[..n], relevant), discount, n);
  }

  /** With a strictly increasing discount it is 1 exactly when the counted results are the top
      relevances in descending order. */
  lemma NdcgIsOneIffIdeal(results: seq<DocID>, relevant: Relevant, ideal: seq<int>, discount: nat -> real, k: int)
    requires Discounts(discount) && Increasing(discount) && Positive(relevant) && IsIdeal(ideal, relevant)
    requires relevant != map[] && k > 0 && results != [] && Sorting.Distinct(results[..Min(k, |results|)])
    ensures Score(results, relevant, ideal, discount, k) == 1.0
       <==> forall i :: 0 <= i < Min(Min(k, |results|), |ideal|) ==> Rel(relevant, results[i]) == ideal[i]
  {
    var n := Min(k, |results|);
    var top := results[..n];
    var dcg, idcg := Sum(Gains(RelsOf(top, relevant)), discount, n), Sum(Gains(ideal), discount, Min(n, |ideal|));
    Truncate(results, relevant, discount, n);
    SumsCompare(top, relevant, ideal, discount);
    IdealSumPositive(relevant, ideal, discount, n);
    assert forall i :: 0 <= i < n ==> top[i] == results[i];
    assert dcg / idcg == 1.0 <==> dcg == idcg by {
      QuotientOne(dcg, idcg);
    }
    assert Score(results, relevant, ideal, discount, k) == dcg / idcg;
    hide *;
  }

  lemma QuotientOne(x: real, y: real)
    requires y > 0.0
    ensures x / y == 1.0 <==> x == y
  {
  }

  lemma QuotientAboveOne(a: real, b: real)
    requires a > 0.0 && b > 0.0
    ensures (a + b) / a > 1.0
  {
    var q := (a + b) / a;
    assert q * a == a + b;
    assert q <= 1.0 ==> q * a <= a;
  }

  lemma IdealSumPositive(relevant: Relevant, ideal: seq<int>, discount: nat -> real, n: nat)
    requires Discounts(discount) && Positive(relevant) && IsIdeal(ideal, relevant) && relevant != map[] && n > 0
    ensures ideal != [] && Sum(Gains(ideal), discount, Min(n, |ideal|)) > 0.0
  {
    Padding(ideal, relevant, 0);
    assert ideal != [] by {
      var d := ValuesPick(relevant);
      assert |multiset(ideal)| == |ideal|;
    }
    SumPositive(ideal, discount, Min(n, |ideal|));
  }

  /** The code does not remove duplicates: returning a relevant document twice scores above 1. */
  lemma DuplicatesOvershoot(d: DocID, rel: int, discount: nat -> real)
    requires Discounts(discount) && rel > 0
    ensures IsIdeal([rel], map[d := rel])
    ensures Score([d, d], map[d := rel], [rel], discount, 2) > 1.0
  {
    var relevant := map[d := rel];
    ValuesSplit(relevant, d);
    assert relevant - {d} == map[];
    var gains := Gains(RelsOf([d, d], relevant));
    assert gains == [Gain(rel), Gain(rel)] && Gains([rel]) == [Gain(rel)];
    GainMonotone(0, rel);
    Divide(Gain(rel), discount(0), discount(0));
    Divide(Gain(rel), discount(1), discount(1));
    var a, b := Over(Gain(rel), discount(0)), Over(Gain(rel), discount(1));
    assert Sum(gains, discount, 1) == Sum(gains, discount, 0) + a == a;
    assert Sum(gains, discount, 2) == a + b;
    assert Sum([Gain(rel)], discount, 1) == Sum([Gain(rel)], discount, 0) + a == a;
    QuotientAboveOne(a, b);
  }

  // ------------------------------------------------------------------- what the score weighs

  /** The gain of a relevance doubles, plus one, with each further degree. */
  lemma GainIsExponential(rel: int)
    ensures rel <= 0 ==> Gain(rel) == 0.0
    ensures Gain(1) == 1.0 && (rel >= 0 ==> Gain(rel + 1) == 2.0 * Gain(rel) + 1.0)
  {
    assert Pow2(1) == 2.0 * Pow2(0);
  }

  predicate About(q: QRel, qid: string, d: DocID) { q.qid == qid && q.docID == d && q.relevance > 0 }

  /** A judgement is that of the last positive entry for the query and document, and 0 without one. */
  lemma {:induction false} JudgedIsLast(qrels: seq<QRel>, qid: string, d: DocID)
    ensures forall r :: 0 <= r < |qrels| && About(qrels[r], qid, d) && (forall j :: r < j < |qrels| ==> !About(qrels[j], qid, d))
              ==> Judged(qrels, qid, d) == qrels[r].relevance
    ensures (forall r :: 0 <= r < |qrels| ==> !About(qrels[r], qid, d)) ==> Judged(qrels, qid, d) == 0
  {
    if qrels != [] {
      var n := |qrels| - 1;
      if About(qrels[n], qid, d) {
        assert Judged(qrels, qid, d) == qrels[n].relevance;
      } else {
        assert Judged(qrels, qid, d) == Judged(qrels[..n], qid, d);
        hide Judged, About;
        JudgedIsLast(qrels[..n], qid, d);
        assert forall r :: 0 <= r < n ==> qrels[..n][r] == qrels[r];
      }
      hide Judged, About;
    }
  }

  lemma {:induction false} SumUpdate(gains: seq<real>, discount: nat -> real, i: nat, x: real, n: nat)
    requires i < |gains| && n <= |gains| && forall m: nat :: discount(m) != 0.0
    ensures Sum(gains[i := x], discount, n) == Sum(gains, discount, n) + if i < n then Over(x - gains[i], discount(i)) else 0.0
  {
    if n > 0 {
      SumUpdate(gains, discount, i, x, n - 1);
      if i == n - 1 {
        OverLinear(x, gains[i], discount(i));
      }
    }
  }

  function Exchanged(results: seq<DocID>, i: nat, j: nat): seq<DocID>
    requires i < |results| && j < |results|
  {
    results[i := results[j]][j := results[i]]
  }

  /** What an exchange of two results adds to the discounted sum. */
  lemma ExchangeAdds(results: seq<DocID>, relevant: Relevant, discount: nat -> real, i: nat, j: nat, n: nat)
    requires i < j < |results| && i < n <= |results| && forall m: nat :: discount(m) != 0.0
    ensures var d := Gain(Rel(relevant, results[j])) - Gain(Rel(relevant, results[i]));
      Sum(Gains(RelsOf(Exchanged(results, i, j), relevant)), discount, n)
        == Sum(Gains(RelsOf(results, relevant)), discount, n) + Over(d, discount(i)) - if j < n then Over(d, discount(j)) else 0.0
  {
    var gains := Gains(RelsOf(results, relevant));
    var gi, gj := gains[i], gains[j];
    SumUpdate(gains, discount, i, gj, n);
    SumUpdate(gains[i := gj], discount, j, gi, n);
    assert Gains(RelsOf(Exchanged(results, i, j), relevant)) == gains[i := gj][j := gi];
    Negate(gj - gi, discount(j));
    hide Sum, Gain, Gains, Over;
    assert gi - gj == -(gj - gi);
  }

  lemma Negate(x: real, q: real)
    requires q != 0.0
    ensures Over(-x, q) == -Over(x, q)
  {
  }

  /** Moving a more relevant result up past a less relevant one, to a place that counts, improves the score:
      an earlier place weighs more, a place beyond `k` nothing. */
  lemma MovingUpImproves(results: seq<DocID>, relevant: Relevant, ideal: seq<int>, discount: nat -> real, k: int, i: nat, j: nat)
    requires Discounts(discount) && Increasing(discount) && Positive(relevant) && IsIdeal(ideal, relevant)
    requires i < j < |results| && i < Counted(k, |results|) && Rel(relevant, results[i]) < Rel(relevant, results[j])
    ensures Score(Exchanged(results, i, j), relevant, ideal, discount, k) > Score(results, relevant, ideal, discount, k)
  {
    var n := Counted(k, |results|);
    var d := Gain(Rel(relevant, results[j])) - Gain(Rel(relevant, results[i]));
    GainMonotone(Rel(relevant, results[i]), Rel(relevant, results[j]));
    IdealSumPositive(relevant, ideal, discount, n);
    ExchangeAdds(results, relevant, discount, i, j, n);
    Divide(d, discount(i), discount(j));
    var idcg := Sum(Gains(ideal), discount, Min(n, |ideal|));
    var before, after := Sum(Gains(RelsOf(results, relevant)), discount, n), Sum(Gains(RelsOf(Exchanged(results, i, j), relevant)), discount, n);
    assert Score(results, relevant, ideal, discount, k) == before / idcg;
    assert Score(Exchanged(results, i, j), relevant, ideal, discount, k) == after / idcg;
    hide Sum, Gain, Gains, Over, RelsOf, Score;
    QuotientGrows(before, after, idcg);
  }

  lemma QuotientGrows(x: real, y: real, q: real)
    requires q > 0.0 && x < y
    ensures x / q < y / q
  {
    assert y / q - x / q == (y - x) / q;
  }

  lemma {:induction false} FirstTwo(gains: seq<real>, discount: nat -> real, n: nat)
    requires n <= |gains| && (forall m: nat :: discount(m) != 0.0) && forall i :: 2 <= i < |gains| ==> gains[i] == 0.0
    ensures Sum(gains, discount, n) ==
      if n == 0 then 0.0
      else if n == 1 then Over(gains[0], discount(0))
      else Over(gains[0], discount(0)) + Over(gains[1], discount(1))
  {
    if n > 0 {
      FirstTwo(gains, discount, n - 1);
    }
  }

  lemma TwoJudged(a: DocID, b: DocID)
    requires a != b
    ensures IsIdeal([3, 1], map[a := 3, b := 1])
  {
    var relevant := map[a := 3, b := 1];
    assert relevant - {a} == map[b := 1] && map[b := 1] - {b} == map[];
    ValuesSplit(relevant, a);
    ValuesSplit(map[b := 1], b);
  }

  lemma WrongOrderGains(a: DocID, b: DocID, rest: seq<DocID>) returns (gains: seq<real>)
    requires a != b && a !in rest && b !in rest
    ensures gains == Gains(RelsOf([b, a] + rest, map[a := 3, b := 1])) && |gains| == |rest| + 2
    ensures gains[0] == 1.0 && gains[1] == 7.0 && Gains([3, 1]) == [7.0, 1.0]
    ensures forall i :: 2 <= i < |gains| ==> gains[i] == 0.0
  {
    GainIsExponential(1);
    GainIsExponential(2);
    GainIsExponential(0);
    hide Gain;
    var results := [b, a] + rest;
    gains := Gains(RelsOf(results, map[a := 3, b := 1]));
    forall i | 2 <= i < |gains| ensures gains[i] == 0.0 {
      assert results[i] in rest;
    }
  }

  /** Judged 3 and 1 and ranked the wrong way round: the exact score, for log2(2) == 1 and whatever irrelevant
      documents follow. */
  lemma WrongOrderScores(a: DocID, b: DocID, rest: seq<DocID>, discount: nat -> real, k: int)
    requires Discounts(discount) && discount(0) == 1.0 && a != b && a !in rest && b !in rest
    ensures IsIdeal([3, 1], map[a := 3, b := 1])
    ensures Score([b, a] + rest, map[a := 3, b := 1], [3, 1], discount, k) ==
      if k <= 0 then 0.0
      else if k == 1 then 1.0 / 7.0
      else (1.0 + 7.0 / discount(1)) / (7.0 + 1.0 / discount(1))
  {
    TwoJudged(a, b);
    var n := Counted(k, |[b, a] + rest|);
    assert n == if k <= 0 then 0 else Min(k, |rest| + 2);
    var gains := WrongOrderGains(a, b, rest);
    hide Gains, RelsOf, IsIdeal;
    FirstTwo(gains, discount, n);
    FirstTwo([7.0, 1.0], discount, Min(n, 2));
    hide Sum;
  }

  // ------------------------------------------------------------- when the bound always holds

  function Ones(n: nat): seq<int> { seq(n, _ => 1) }

  /** Every one of these documents judged 1. */
  function AllRelevant(docs: seq<DocID>): Relevant { map d | d in docs :: 1 }

  lemma {:induction false} OnesAreIdeal(relevant: Relevant)
    requires forall d :: d in relevant ==> relevant[d] == 1
    ensures Values(relevant) == multiset(Ones(|relevant|))
    decreases |relevant|
  {
    if relevant != map[] {
      var d := ValuesPick(relevant);
      hide Values;
      OnesAreIdeal(relevant - {d});
      SmallerByOne(relevant, d);
      OneMoreOne(|relevant| - 1);
    }
  }

  lemma SmallerByOne(m: Relevant, d: DocID)
    requires d in m
    ensures |m - {d}| == |m| - 1
  {
    assert (m - {d}).Keys == m.Keys - {d};
  }

  lemma OneMoreOne(n: nat)
    ensures multiset(Ones(n + 1)) == multiset{1} + multiset(Ones(n))
  {
    assert Ones(n + 1) == [1] + Ones(n);
  }

  lemma {:induction false} RepeatsShrink(docs: seq<DocID>)
    ensures |AllRelevant(docs)| <= |docs|
    ensures !Sorting.Distinct(docs) ==> 0 < |AllRelevant(docs)| < |docs|
  {
    if docs != [] {
      var init, last := docs[..|docs| - 1], docs[|docs| - 1];
      RepeatsShrink(init);
      OneMoreDocument(init, last);
      assert docs == init + [last];
    }
  }

  lemma OneMoreDocument(docs: seq<DocID>, d: DocID)
    ensures AllRelevant(docs + [d]) == AllRelevant(docs)[d := 1]
    ensures d in docs ==> AllRelevant(docs + [d]) == AllRelevant(docs)
  {
  }

  lemma OnesGrow(discount: nat -> real, m: nat, n: nat)
    requires Discounts(discount) && 0 < m < n
    ensures 0.0 < Sum(Gains(Ones(m)), discount, m) < Sum(Gains(Ones(n)), discount, n)
  {
    var xs := Ones(n);
    assert Ones(m) == xs[..m];
    SumPrefix(Ones(m), xs, discount, m);
    SumPositive(xs, discount, m);
    SumGrows(xs, discount, m + 1, n);
    GainMonotone(0, 1);
    Divide(Gain(1), discount(m), discount(m));
    assert Sum(Gains(xs), discount, m + 1) == Sum(Gains(xs), discount, m) + Over(Gain(1), discount(m));
  }

  /** With every counted document judged 1, a repetition scores above 1. */
  lemma RepeatOvershoots(results: seq<DocID>, discount: nat -> real, k: int) returns (relevant: Relevant, ideal: seq<int>)
    requires Discounts(discount) && !Sorting.Distinct(results[..Counted(k, |results|)])
    ensures Positive(relevant) && IsIdeal(ideal, relevant) && Score(results, relevant, ideal, discount, k) > 1.0
  {
    var n := Counted(k, |results|);
    var top := results[..n];
    relevant := AllRelevant(top);
    RepeatsShrink(top);
    var m := |relevant|;
    ideal := Ones(m);
    OnesAreIdeal(relevant);
    assert forall i :: 0 <= i < n ==> top[i] in relevant;
    assert RelsOf(top, relevant) == Ones(n);
    Truncate(results, relevant, discount, n);
    OnesGrow(discount, m, n);
    var idcg, dcg := Sum(Gains(ideal), discount, m), Sum(Gains(Ones(n)), discount, n);
    assert Score(results, relevant, ideal, discount, k) == dcg / idcg;
    hide *;
    QuotientAboveOne(idcg, dcg - idcg);
  }

  /** nDCG stays at most 1 for every judgement exactly when the counted results are distinct. */
  lemma NdcgAtMostOneIff(results: seq<DocID>, discount: nat -> real, k: int)
    requires Discounts(discount)
    ensures (forall relevant, ideal :: Positive(relevant) && IsIdeal(ideal, relevant) ==> Score(results, relevant, ideal, discount, k) <= 1.0)
       <==> Sorting.Distinct(results[..Counted(k, |results|)])
  {
    if Sorting.Distinct(results[..Counted(k, |results|)]) {
      hide Score, IsIdeal;
      forall relevant, ideal | Positive(relevant) && IsIdeal(ideal, relevant) ensures Score(results, relevant, ideal, discount, k) <= 1.0 {
        NdcgAtMostOne(results, relevant, ideal, discount, k);
      }
    } else {
      hide Score, IsIdeal;
      var relevant, ideal := RepeatOvershoots(results, discount, k);
    }
  }
}
