/**
 Sparse vectors: how they are built from tokens and how the two-pointer merge compares them,
 over exact reals.  The token hash is a parameter.
 */
module SparseVectors {
  import Sorting
  import opened Tokenizer

  datatype SparseVector = SparseVector(indices: seq<nat>, values: seq<real>)

  const EMPTY := SparseVector([], [])

  predicate Increasing(xs: seq<nat>) {
    forall i, j :: 0 <= i < j < |xs| ==> xs[i] < xs[j]
  }

  predicate WellFormed(v: SparseVector) {
    |v.indices| == |v.values| && Increasing(v.indices)
  }

  // ----------------------------------------------------------------------------- building

  type Hash = string -> nat

  /** How many non-blank tokens hash to `index`. */
  function Count(tokens: seq<string>, hash: Hash, index: nat): nat {
    if tokens == [] then 0
    else
      var last := tokens[|tokens| - 1];
      Count(tokens[..|tokens| - 1], hash, index) + if !Blank(last) && hash(last) == index then 1 else 0
  }

  /** The places of the tokens that hash to `index`. */
  ghost function Places(tokens: seq<string>, hash: Hash, index: nat): set<nat> {
    set i: nat | i < |tokens| && !Blank(tokens[i]) && hash(tokens[i]) == index
  }

  lemma NextPlace(tokens: seq<string>, hash: Hash, index: nat)
    requires tokens != []
    ensures var n := |tokens| - 1; var before := Places(tokens[..n], hash, index);
      && n !in before
      && Places(tokens, hash, index) == before + if !Blank(tokens[n]) && hash(tokens[n]) == index then {n} else {}
  {
    hide Blank;
    var n := |tokens| - 1;
    var before, now := Places(tokens[..n], hash, index), Places(tokens, hash, index);
    forall i: nat ensures i in now <==> i in before || (i == n && !Blank(tokens[n]) && hash(tokens[n]) == index) {
    }
  }

  /** That is how many places there are, wherever in the list. */
  lemma {:induction false} CountIsPlaces(tokens: seq<string>, hash: Hash, index: nat)
    ensures Count(tokens, hash, index) == |Places(tokens, hash, index)|
  {
    hide Blank;
    if tokens == [] {
      assert Places(tokens, hash, index) == {};
    } else {
      NextPlace(tokens, hash, index);
      hide Places;
      CountIsPlaces(tokens[..|tokens| - 1], hash, index);
    }
  }

  function Share(count: nat, total: nat): real {
    if total == 0 then 0.0 else count as real / total as real
  }

  function NonBlank(tokens: seq<string>): nat {
    if tokens == [] then 0
    else NonBlank(tokens[..|tokens| - 1]) + if Blank(tokens[|tokens| - 1]) then 0 else 1
  }

  predicate AtMost(x: nat, y: nat) { x <= y }

  /** Sorting indices without repetition makes them strictly increase. */
  lemma SortIncreases(xs: seq<nat>)
    requires forall i, j :: 0 <= i < j < |xs| ==> xs[i] != xs[j]
    ensures Increasing(Sorting.Sort(xs, AtMost)) && forall x :: x in Sorting.Sort(xs, AtMost) <==> x in xs
  {
    var ys := Sorting.Sort(xs, AtMost);
    Sorting.SortSorts(xs, AtMost);
    assert forall x :: x in ys <==> x in multiset(ys);
    forall i, j | 0 <= i < j < |ys| ensures ys[i] < ys[j] {
      assert AtMost(ys[i], ys[j]);
      StillDistinct(xs, ys, i, j);
    }
    hide AtMost;
  }

  lemma StillDistinct(xs: seq<nat>, ys: seq<nat>, i: nat, j: nat)
    requires multiset(xs) == multiset(ys) && i < j < |ys|
    requires forall i, j :: 0 <= i < j < |xs| ==> xs[i] != xs[j]
    ensures ys[i] != ys[j]
  {
    assert ys[i] in multiset(xs);
    Sorting.OnlyOnce(xs, ys[i]);
    if ys[i] == ys[j] {
      Twice(ys, i, j);
    }
  }

  lemma Twice(xs: seq<nat>, i: nat, j: nat)
    requires i < j < |xs| && xs[i] == xs[j]
    ensures multiset(xs)[xs[i]] >= 2
  {
    assert xs == xs[..j] + [xs[j]] + xs[j + 1..];
    assert xs[i] in xs[..j];
  }

  /** `v` is the vector of some token list, its entries are the indices that occur and their shares. */
  ghost predicate BuiltFrom(v: SparseVector, tokens: seq<string>, hash: Hash) {
    && WellFormed(v)
    && (forall x: nat :: x in v.indices <==> Count(tokens, hash, x) > 0)
    && (forall i :: 0 <= i < |v.indices| ==> v.values[i] == Share(Count(tokens, hash, v.indices[i]), |tokens|))
  }

  /** The counts of the tokens that are not blank, by index. */
  ghost predicate CountsOf(counts: map<nat, nat>, tokens: seq<string>, hash: Hash) {
    && (forall x :: (if x in counts then counts[x] else 0) == Count(tokens, hash, x))
    && (forall x :: x in counts ==> counts[x] > 0)
  }

  lemma CountNext(counts: map<nat, nat>, tokens: seq<string>, n: nat, hash: Hash)
    requires n < |tokens| && CountsOf(counts, tokens[..n], hash)
    ensures var index := hash(tokens[n]); var count := (if index in counts then counts[index] else 0) + 1;
      CountsOf(if Blank(tokens[n]) then counts else counts[index := count], tokens[..n + 1], hash)
  {
    assert tokens[..n + 1][..n] == tokens[..n];
    hide Blank;
  }

  method BuildSparseVector(u: Unicode, text: string, language: string, hash: Hash) returns (v: SparseVector)
    ensures BuiltFrom(v, Tokens(u, text, language), hash)
  {
    var tokens := Tokenize(u, text, language);
    hide Tokens, Blank;
    if |tokens| == 0 {
      return EMPTY;
    }
    var counts: map<nat, nat> := map[];
    assert tokens[..0] == [];
    for n := 0 to |tokens|
      invariant CountsOf(counts, tokens[..n], hash)
    {
      CountNext(counts, tokens, n, hash);
      hide CountsOf;
      if Blank(tokens[n]) {
        continue;
      }
      var index := hash(tokens[n]);
      counts := counts[index := (if index in counts then counts[index] else 0) + 1];
    }
    assert tokens[..|tokens|] == tokens;
    if |counts| == 0 {
      return EMPTY;
    }
    v := Shares(counts, tokens, hash);
  }

  /** The map's keys, each once, in any order. */
  method Indices(counts: map<nat, nat>) returns (indices: seq<nat>)
    ensures forall i, j :: 0 <= i < j < |indices| ==> indices[i] != indices[j]
    ensures forall x :: x in indices <==> x in counts
  {
    indices := [];
    var rest := counts.Keys;
    while rest != {}
      invariant rest <= counts.Keys && forall i, j :: 0 <= i < j < |indices| ==> indices[i] != indices[j]
      invariant forall x :: x in indices <==> x in counts && x !in rest
      decreases rest
    {
      var x :| x in rest;
      indices := indices + [x];
      rest := rest - {x};
    }
  }

  /** The sorted indices and their shares of all tokens. */
  method Shares(counts: map<nat, nat>, tokens: seq<string>, hash: Hash) returns (v: SparseVector)
    requires CountsOf(counts, tokens, hash) && tokens != []
    ensures BuiltFrom(v, tokens, hash)
  {
    hide Count, Blank;
    var indices := Indices(counts);
    SortIncreases(indices);
    indices := Sorting.Sort(indices, AtMost);
    var values: seq<real> := [];
    var denominator := |tokens| as real;
    for n := 0 to |indices|
      invariant |values| == n
      invariant forall i :: 0 <= i < n ==> values[i] == Share(Count(tokens, hash, indices[i]), |tokens|)
    {
      assert indices[n] in indices;
      values := values + [counts[indices[n]] as real / denominator];
    }
    v := SparseVector(indices, values);
  }

  // ---------------------------------------------------------------------------- comparing

  /** The component of a vector at an index, 0 where it has none. */
  function Weight(v: SparseVector, x: nat): real
    requires |v.indices| == |v.values|
  {
    WeightFrom(v, x, 0)
  }

  function WeightFrom(v: SparseVector, x: nat, n: nat): real
    requires |v.indices| == |v.values| && n <= |v.indices|
    decreases |v.indices| - n
  {
    if n == |v.indices| then 0.0 else if v.indices[n] == x then v.values[n] else WeightFrom(v, x, n + 1)
  }

  lemma {:induction false} WeightAt(v: SparseVector, x: nat, n: nat)
    requires WellFormed(v) && n <= |v.indices|
    ensures forall p :: n <= p < |v.indices| && v.indices[p] == x ==> WeightFrom(v, x, n) == v.values[p]
    ensures (forall p :: n <= p < |v.indices| ==> v.indices[p] != x) ==> WeightFrom(v, x, n) == 0.0
    decreases |v.indices| - n
  {
    if n < |v.indices| {
      WeightAt(v, x, n + 1);
    }
  }

  /** The dot product over all indices below `n`. */
  function Dot(a: SparseVector, b: SparseVector, n: nat): real
    requires |a.indices| == |a.values| && |b.indices| == |b.values|
  {
    if n == 0 then 0.0 else Dot(a, b, n - 1) + Weight(a, n - 1) * Weight(b, n - 1)
  }

  predicate Covers(v: SparseVector, n: nat) {
    forall i :: 0 <= i < |v.indices| ==> v.indices[i] < n
  }

  /** The dot product over the first `p` entries of `a`. */
  function DotTo(a: SparseVector, b: SparseVector, p: nat): real
    requires |a.indices| == |a.values| && |b.indices| == |b.values| && p <= |a.indices|
  {
    if p == 0 then 0.0 else DotTo(a, b, p - 1) + a.values[p - 1] * Weight(b, a.indices[p - 1])
  }

  lemma {:induction false} EntriesGiveAll(a: SparseVector, b: SparseVector, n: nat, p: nat)
    requires WellFormed(a) && WellFormed(b) && p <= |a.indices|
    requires (forall q :: 0 <= q < p ==> a.indices[q] < n) && (forall q :: p <= q < |a.indices| ==> a.indices[q] >= n)
    ensures Dot(a, b, n) == DotTo(a, b, p)
  {
    if n > 0 {
      WeightAt(a, n - 1, 0);
      if p > 0 && a.indices[p - 1] == n - 1 {
        EntriesGiveAll(a, b, n - 1, p - 1);
      } else {
        EntriesGiveAll(a, b, n - 1, p);
      }
    }
  }

  lemma {:induction false} RestIsZero(a: SparseVector, b: SparseVector, i: nat, p: nat)
    requires WellFormed(a) && WellFormed(b) && i <= p <= |a.indices|
    requires forall q, r :: i <= q < |a.indices| && 0 <= r < |b.indices| ==> b.indices[r] < a.indices[q]
    ensures DotTo(a, b, p) == DotTo(a, b, i)
  {
    if i < p {
      RestIsZero(a, b, i, p - 1);
      WeightAt(b, a.indices[p - 1], 0);
    }
  }

  /** The two-pointer merge computes the dot product over all indices. */
  method SparseSimilarity(a: SparseVector, b: SparseVector) returns (score: real)
    requires WellFormed(a) && WellFormed(b)
    ensures forall n :: Covers(a, n) ==> score == Dot(a, b, n)
  {
    forall n | Covers(a, n) ensures Dot(a, b, n) == DotTo(a, b, |a.indices|) {
      EntriesGiveAll(a, b, n, |a.indices|);
    }
    if |a.indices| == 0 || |b.indices| == 0 {
      RestIsZero(a, b, 0, |a.indices|);
      return 0.0;
    }
    var i, j := 0, 0;
    score := 0.0;
    while i < |a.indices| && j < |b.indices|
      invariant 0 <= i <= |a.indices| && 0 <= j <= |b.indices|
      invariant forall q, r :: i <= q < |a.indices| && 0 <= r < j ==> b.indices[r] < a.indices[q]
      invariant score == DotTo(a, b, i)
      decreases |a.indices| + |b.indices| - i - j
    {
      WeightAt(b, a.indices[i], 0);
      if a.indices[i] == b.indices[j] {
        score := score + a.values[i] * b.values[j];
        i := i + 1;
        j := j + 1;
      } else if a.indices[i] < b.indices[j] {
        i := i + 1;
      } else {
        j := j + 1;
      }
    }
    RestIsZero(a, b, i, |a.indices|);
  }

  /** The dot product is symmetric and independent of how far beyond both vectors it looks. */
  lemma {:induction false} DotSymmetric(a: SparseVector, b: SparseVector, n: nat)
    requires WellFormed(a) && WellFormed(b)
    ensures Dot(a, b, n) == Dot(b, a, n)
  {
    if n > 0 {
      DotSymmetric(a, b, n - 1);
    }
  }

  // ------------------------------------------------------------- what building guarantees

  function Total(values: seq<real>): real {
    if values == [] then 0.0 else Total(values[..|values| - 1]) + values[|values| - 1]
  }

  function CountTotal(tokens: seq<string>, hash: Hash, indices: seq<nat>): nat {
    if indices == [] then 0
    else CountTotal(tokens, hash, indices[..|indices| - 1]) + Count(tokens, hash, indices[|indices| - 1])
  }

  /** One more token counts once, at its own index. */
  lemma {:induction false} OneMoreToken(tokens: seq<string>, hash: Hash, indices: seq<nat>)
    requires tokens != [] && Increasing(indices)
    ensures var last := tokens[|tokens| - 1];
      CountTotal(tokens, hash, indices) == CountTotal(tokens[..|tokens| - 1], hash, indices)
                                                  + if !Blank(last) && hash(last) in indices then 1 else 0
  {
    if indices != [] {
      var init := indices[..|indices| - 1];
      OneMoreToken(tokens, hash, init);
      assert indices == init + [indices[|indices| - 1]];
    }
  }

  lemma {:induction false} CountsAddUp(tokens: seq<string>, hash: Hash, indices: seq<nat>)
    requires Increasing(indices)
    requires forall i :: 0 <= i < |tokens| && !Blank(tokens[i]) ==> hash(tokens[i]) in indices
    ensures CountTotal(tokens, hash, indices) == NonBlank(tokens)
  {
    if tokens == [] {
      NothingCounted(hash, indices);
    } else {
      CountsAddUp(tokens[..|tokens| - 1], hash, indices);
      OneMoreToken(tokens, hash, indices);
      assert !Blank(tokens[|tokens| - 1]) ==> hash(tokens[|tokens| - 1]) in indices;
    }
  }

  lemma {:induction false} NothingCounted(hash: Hash, indices: seq<nat>)
    ensures CountTotal([], hash, indices) == 0
  {
    if indices != [] {
      NothingCounted(hash, indices[..|indices| - 1]);
    }
  }

  lemma {:induction false} CountedIfPresent(tokens: seq<string>, hash: Hash, i: nat)
    requires i < |tokens| && !Blank(tokens[i])
    ensures Count(tokens, hash, hash(tokens[i])) > 0
  {
    if i < |tokens| - 1 {
      CountedIfPresent(tokens[..|tokens| - 1], hash, i);
    }
  }

  lemma {:induction false} TotalOfQuotients(tokens: seq<string>, hash: Hash, indices: seq<nat>, values: seq<real>)
    requires |indices| == |values| && tokens != []
    requires forall i :: 0 <= i < |indices| ==> values[i] == Share(Count(tokens, hash, indices[i]), |tokens|)
    ensures Total(values) == Share(CountTotal(tokens, hash, indices), |tokens|)
  {
    if indices != [] {
      var n := |indices| - 1;
      TotalOfQuotients(tokens, hash, indices[..n], values[..n]);
      ShareAdds(CountTotal(tokens, hash, indices[..n]), Count(tokens, hash, indices[n]), |tokens|);
    }
  }

  lemma ShareAdds(p: nat, q: nat, total: nat)
    ensures Share(p + q, total) == Share(p, total) + Share(q, total)
  {
  }

  /** The values sum to the share of the tokens that are not blank. */
  lemma ValuesSumToShare(v: SparseVector, tokens: seq<string>, hash: Hash)
    requires BuiltFrom(v, tokens, hash)
    ensures tokens == [] ==> v == EMPTY
    ensures tokens != [] ==> Total(v.values) == Share(NonBlank(tokens), |tokens|)
  {
    hide Blank;
    if tokens != [] {
      forall i | 0 <= i < |tokens| && !Blank(tokens[i]) ensures hash(tokens[i]) in v.indices {
        CountedIfPresent(tokens, hash, i);
      }
      CountsAddUp(tokens, hash, v.indices);
      TotalOfQuotients(tokens, hash, v.indices, v.values);
    }
  }

  lemma QuotientOne(p: nat, q: nat)
    requires q > 0
    ensures Share(p, q) == 1.0 <==> p == q
    ensures p <= q ==> 0.0 <= Share(p, q) <= 1.0
  {
    var share := p as real / q as real;
    assert share * q as real == p as real;
    assert share > 1.0 ==> share * q as real > q as real;
  }

  lemma {:induction false} AllNonBlank(tokens: seq<string>)
    ensures NonBlank(tokens) <= |tokens|
    ensures NonBlank(tokens) == |tokens| <==> forall i :: 0 <= i < |tokens| ==> !Blank(tokens[i])
  {
    hide Blank;
    if tokens != [] {
      AllNonBlank(tokens[..|tokens| - 1]);
    }
  }

  lemma {:induction false} DotAtMostTotal(a: SparseVector, b: SparseVector, p: nat)
    requires WellFormed(a) && WellFormed(b) && p <= |a.indices|
    requires forall i :: 0 <= i < |a.values| ==> a.values[i] >= 0.0
    requires forall x :: 0.0 <= Weight(b, x) <= 1.0
    ensures 0.0 <= DotTo(a, b, p) <= Total(a.values[..p])
  {
    if p > 0 {
      DotAtMostTotal(a, b, p - 1);
      var x, w := a.values[p - 1], Weight(b, a.indices[p - 1]);
      var product := x * w;
      UnitProduct(x, w);
      assert DotTo(a, b, p) == DotTo(a, b, p - 1) + product;
      hide DotTo, Weight;
      TotalNext(a.values, p);
    }
  }

  lemma TotalNext(values: seq<real>, p: nat)
    requires 0 < p <= |values|
    ensures Total(values[..p]) == Total(values[..p - 1]) + values[p - 1]
  {
    assert values[..p][..p - 1] == values[..p - 1];
  }

  lemma UnitProduct(x: real, w: real)
    requires x >= 0.0 && 0.0 <= w <= 1.0
    ensures 0.0 <= x * w <= x
  {
    assert x - x * w == x * (1.0 - w);
  }

  lemma WeightsAreShares(v: SparseVector, tokens: seq<string>, hash: Hash)
    requires BuiltFrom(v, tokens, hash)
    ensures forall i :: 0 <= i < |v.values| ==> v.values[i] >= 0.0
    ensures forall x :: 0.0 <= Weight(v, x) <= 1.0
  {
    forall i | 0 <= i < |v.values| ensures 0.0 <= v.values[i] <= 1.0 {
      assert v.indices[i] in v.indices;
      CountAtMostAll(tokens, hash, v.indices[i]);
      assert tokens != [];
      QuotientOne(Count(tokens, hash, v.indices[i]), |tokens|);
    }
    forall x ensures 0.0 <= Weight(v, x) <= 1.0 {
      WeightAt(v, x, 0);
    }
  }

  lemma {:induction false} CountAtMostAll(tokens: seq<string>, hash: Hash, index: nat)
    ensures Count(tokens, hash, index) <= |tokens|
  {
    if tokens != [] {
      CountAtMostAll(tokens[..|tokens| - 1], hash, index);
    }
  }

  /** The vector of every text that has a token has values that sum to 1, whatever the language: no
      token is blank, so none is skipped.  A text without tokens has the empty vector, and only such. */
  lemma ValuesSumToOne(v: SparseVector, u: Unicode, text: string, language: string, hash: Hash)
    requires BuiltFrom(v, Tokens(u, text, language), hash)
    ensures v == EMPTY <==> Tokens(u, text, language) == []
    ensures v != EMPTY ==> Total(v.values) == 1.0
  {
    var tokens := Tokens(u, text, language);
    NoTokenIsBlank(u, text, language);
    hide Tokens, Blank;
    ValuesSumToShare(v, tokens, hash);
    if tokens != [] {
      CountedIfPresent(tokens, hash, 0);
      assert hash(tokens[0]) in v.indices;
      AllNonBlank(tokens);
      QuotientOne(NonBlank(tokens), |tokens|);
    }
  }

  /** The similarity of two built vectors lies in [0, 1] and is symmetric. */
  lemma SimilarityInUnitInterval(a: SparseVector, as_: seq<string>, b: SparseVector, bs: seq<string>, hash: Hash, n: nat)
    requires BuiltFrom(a, as_, hash) && BuiltFrom(b, bs, hash) && Covers(a, n) && Covers(b, n)
    ensures 0.0 <= Dot(a, b, n) == Dot(b, a, n) <= 1.0
  {
    EntriesGiveAll(a, b, n, |a.indices|);
    DotSymmetric(a, b, n);
    WeightsAreShares(a, as_, hash);
    WeightsAreShares(b, bs, hash);
    DotAtMostTotal(a, b, |a.indices|);
    assert a.values[..|a.indices|] == a.values;
    ValuesSumToShare(a, as_, hash);
    if as_ != [] {
      AllNonBlank(as_);
      QuotientOne(NonBlank(as_), |as_|);
    }
  }
}
