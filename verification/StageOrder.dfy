/**
 The order of a stage's hits: by score, except that scores closer than a tolerance are ordered by
 chunk id.  Closeness is not transitive in general, so the comparison need not be an order; here is
 when it is, and what sorting and truncating then give.
 */
module StageOrder {
  import opened StageHits
  import Sorting

  const EPSILON := 0.000000001

  // --------------------------------------------------------------------------- chunk ids

  /** The order of strings by code points. */
  predicate Less(a: string, b: string) {
    b != "" && (a == "" || a[0] < b[0] || (a[0] == b[0] && Less(a[1..], b[1..])))
  }

  lemma {:induction false} LessIsTotal(a: string, b: string)
    ensures Less(a, b) || Less(b, a) || a == b
    ensures !(Less(a, b) && Less(b, a))
    ensures a == b ==> !Less(a, b)
  {
    if a != "" && b != "" {
      LessIsTotal(a[1..], b[1..]);
      assert a == [a[0]] + a[1..] && b == [b[0]] + b[1..];
    }
  }

  lemma {:induction false} LessIsTransitive(a: string, b: string, c: string)
    requires Less(a, b) && Less(b, c)
    ensures Less(a, c)
  {
    if a != "" && a[0] == b[0] == c[0] {
      LessIsTransitive(a[1..], b[1..], c[1..]);
    }
  }

  // ------------------------------------------------------------------------- the comparison

  predicate Close(x: real, y: real) { -EPSILON < x - y < EPSILON }

  predicate Before(a: StageHit, b: StageHit) {
    if Close(a.score, b.score) then Less(a.chunkID, b.chunkID) else a.score > b.score
  }

  predicate DistinctIDs(hits: seq<StageHit>) {
    forall i, j :: 0 <= i < j < |hits| ==> hits[i].chunkID != hits[j].chunkID
  }

  /** The comparison is a strict total order on these hits. */
  predicate OrdersAll(hits: seq<StageHit>) {
    && (forall i, j :: 0 <= i < |hits| && 0 <= j < |hits| && i != j ==> (Before(hits[i], hits[j]) <==> !Before(hits[j], hits[i])))
    && (forall a, b, c :: a in hits && b in hits && c in hits && Before(a, b) && Before(b, c) ==> Before(a, c))
  }

  predicate CloseTransitive(hits: seq<StageHit>) {
    forall a, b, c :: a in hits && b in hits && c in hits && Close(a.score, b.score) && Close(b.score, c.score) ==> Close(a.score, c.score)
  }

  lemma BeforeIsTransitive(a: StageHit, b: StageHit, c: StageHit)
    requires Before(a, b) && Before(b, c)
    requires Close(a.score, b.score) && Close(b.score, c.score) ==> Close(a.score, c.score)
    requires Close(b.score, a.score) && Close(a.score, c.score) ==> Close(b.score, c.score)
    requires Close(a.score, c.score) && Close(c.score, b.score) ==> Close(a.score, b.score)
    ensures Before(a, c)
  {
    if Close(a.score, b.score) && Close(b.score, c.score) {
      LessIsTransitive(a.chunkID, b.chunkID, c.chunkID);
    }
    hide Less;
  }

  lemma BeforeIsTotal(a: StageHit, b: StageHit)
    ensures !(Before(a, b) && Before(b, a))
    ensures a.chunkID != b.chunkID ==> Before(a, b) || Before(b, a)
  {
    LessIsTotal(a.chunkID, b.chunkID);
    hide Less;
  }

  /** Transitive closeness makes the comparison a strict total order. */
  lemma CloseClassesOrder(hits: seq<StageHit>)
    requires DistinctIDs(hits) && CloseTransitive(hits)
    ensures OrdersAll(hits)
  {
    forall i, j | 0 <= i < |hits| && 0 <= j < |hits| && i != j
      ensures Before(hits[i], hits[j]) <==> !Before(hits[j], hits[i])
    {
      BeforeIsTotal(hits[i], hits[j]);
      hide Before;
    }
    forall a, b, c | a in hits && b in hits && c in hits && Before(a, b) && Before(b, c) ensures Before(a, c) {
      assert Close(a.score, b.score) && Close(b.score, c.score) ==> Close(a.score, c.score);
      assert Close(b.score, a.score) && Close(a.score, c.score) ==> Close(b.score, c.score);
      assert Close(a.score, c.score) && Close(c.score, b.score) ==> Close(a.score, b.score);
      hide *;
      BeforeIsTransitive(a, b, c);
    }
  }

  function Hit(chunkID: string, score: real): StageHit { StageHit(chunkID, "", score, "", "", map[], Chunk("", "")) }

  /** Scores on which closeness is not transitive make a cycle, given the wrong chunk ids. */
  lemma CycleOf(x: real, y: real, z: real)
    requires Close(x, y) && Close(y, z) && !Close(x, z) && x > z
    ensures Before(Hit("c", x), Hit("a", z)) && Before(Hit("a", z), Hit("b", y)) && Before(Hit("b", y), Hit("c", x))
  {
    assert Less("a", "b") && Less("b", "c");
    hide Less;
  }

  lemma CloseChainCycles(x: real, y: real, z: real) returns (hits: seq<StageHit>)
    requires Close(x, y) && Close(y, z) && !Close(x, z) && x > z
    ensures hits == [Hit("c", x), Hit("b", y), Hit("a", z)] && DistinctIDs(hits) && !OrdersAll(hits)
  {
    hits := [Hit("c", x), Hit("b", y), Hit("a", z)];
    assert "a"[0] != "b"[0] && "b"[0] != "c"[0] && "a"[0] != "c"[0];
    CycleOf(x, y, z);
    Cycle(hits, hits[2], hits[1], hits[0]);
    hide OrdersAll, Before;
  }

  /** A cycle is no order. */
  lemma Cycle(hits: seq<StageHit>, a: StageHit, b: StageHit, c: StageHit)
    requires a in hits && b in hits && c in hits && Before(c, a) && Before(a, b) && Before(b, c)
    ensures !OrdersAll(hits)
  {
    BeforeIsTotal(b, c);
    hide Before;
  }

  // ------------------------------------------------------------------------ rank scores

  function ReciprocalRank(rank: nat): real { 1.0 / (rank + 61) as real }

  /** The score a hit at `rank` gets from one ranked list. */
  function StageScore(weight: real, rank: nat): real { ReciprocalRank(rank) * weight }

  lemma ScoreTimesRank(w: real, r: nat)
    ensures StageScore(w, r) * (r + 61) as real == w
  {
    var a := (r + 61) as real;
    assert (1.0 / a) * a == 1.0;
    Swap(1.0 / a, w, a);
  }

  lemma Swap(x: real, y: real, z: real)
    ensures x * y * z == x * z * y
  {
  }

  /** Ranks `r` <= `s` score less than the tolerance apart, without the divisions. */
  predicate Near(w: real, r: nat, s: nat) {
    w * (s - r) as real < EPSILON * (r + 61) as real * (s + 61) as real
  }

  lemma GapTimesRanks(w: real, r: nat, s: nat)
    ensures (StageScore(w, r) - StageScore(w, s)) * ((r + 61) as real * (s + 61) as real) == w * (s - r) as real
  {
    ScoreTimesRank(w, r);
    ScoreTimesRank(w, s);
    var x, y, a, b := StageScore(w, r), StageScore(w, s), (r + 61) as real, (s + 61) as real;
    hide *;
    GapProduct(x, y, a, b, w);
    assert (s - r) as real == b - a;
  }

  lemma GapProduct(x: real, y: real, a: real, b: real, w: real)
    requires x * a == w && y * b == w
    ensures (x - y) * (a * b) == w * (b - a)
  {
    assert (x - y) * (a * b) == (x * a) * b - (y * b) * a;
  }

  lemma Scale(x: real, y: real, k: real)
    requires k > 0.0
    ensures x < y <==> x * k < y * k
  {
    if x < y {
      assert (y - x) * k > 0.0;
    } else {
      assert (x - y) * k >= 0.0;
    }
  }

  lemma NearIff(w: real, r: nat, s: nat)
    ensures StageScore(w, r) - StageScore(w, s) < EPSILON <==> Near(w, r, s)
  {
    var a, b := (r + 61) as real, (s + 61) as real;
    assert a * b > 0.0;
    GapTimesRanks(w, r, s);
    hide StageScore;
    Scale(StageScore(w, r) - StageScore(w, s), EPSILON, a * b);
  }

  /** A later rank never scores more. */
  lemma ScoresFall(w: real, r: nat, s: nat)
    requires w >= 0.0 && r <= s
    ensures StageScore(w, r) >= StageScore(w, s)
  {
    var a, b := (r + 61) as real, (s + 61) as real;
    assert a * b > 0.0;
    GapTimesRanks(w, r, s);
    assert w * (s - r) as real >= 0.0;
    var d := StageScore(w, r) - StageScore(w, s);
    hide StageScore;
    Scale(d, 0.0, a * b);
  }

  lemma CloseIffNear(w: real, r: nat, s: nat)
    requires w >= 0.0 && r <= s
    ensures Close(StageScore(w, r), StageScore(w, s)) <==> Near(w, r, s)
  {
    ScoresFall(w, r, s);
    NearIff(w, r, s);
    hide StageScore, Near;
  }

  lemma Widen(r: nat, s: nat)
    requires r <= s
    ensures EPSILON * (r + 61) as real * (r + 62) as real <= EPSILON * (s + 61) as real * (s + 62) as real
  {
    var a, b, c, d := (r + 61) as real, (r + 62) as real, (s + 61) as real, (s + 62) as real;
    assert a * b <= c * d by {
      assert a * b <= c * b && c * b <= c * d;
    }
    Assoc(EPSILON, a, b);
    Assoc(EPSILON, c, d);
  }

  lemma Assoc(x: real, y: real, z: real)
    ensures x * y * z == x * (y * z)
  {
  }

  /** Neighbouring ranks draw closer and closer. */
  lemma GapsShrink(w: real, r: nat, s: nat)
    requires r <= s && Near(w, r, r + 1)
    ensures Near(w, s, s + 1)
  {
    Widen(r, s);
  }

  lemma NearInside(w: real, r: nat, s: nat, a: nat, b: nat)
    requires w >= 0.0 && r <= a <= b <= s && Near(w, r, s)
    ensures Near(w, a, b)
  {
    NearIff(w, r, s);
    ScoresFall(w, r, a);
    ScoresFall(w, b, s);
    NearIff(w, a, b);
    hide *;
  }

  /** Ranks up to `m` score apart from each other, and ranks from `m` to the last all score close. */
  predicate Cut(w: real, ranks: nat, m: nat) {
    m < ranks && (m == 0 || !Near(w, m - 1, m)) && Near(w, m, ranks - 1)
  }

  /** The condition on a stage's weight and number of ranks. */
  predicate Separable(w: real, ranks: nat) {
    exists m: nat :: m < ranks && Cut(w, ranks, m)
  }

  /** A hit list of one stage: distinct chunks scored by ranks below `ranks`. */
  ghost predicate FromStage(hits: seq<StageHit>, w: real, ranks: nat) {
    DistinctIDs(hits) && forall h :: h in hits ==> exists r: nat :: r < ranks && h.score == StageScore(w, r)
  }

  /** Close ranks below the cut are equal. */
  lemma ApartBelowCut(w: real, ranks: nat, m: nat, r: nat, s: nat)
    requires w >= 0.0 && Cut(w, ranks, m) && r < s && r < m
    ensures !Near(w, r, s)
  {
    if Near(w, r, s) {
      NearInside(w, r, s, r, r + 1);
      GapsShrink(w, r, m - 1);
    }
  }

  lemma CutCloses(w: real, ranks: nat, m: nat, r: nat, s: nat, t: nat)
    requires w >= 0.0 && Cut(w, ranks, m) && r < ranks && s < ranks && t < ranks
    requires Close(StageScore(w, r), StageScore(w, s)) && Close(StageScore(w, s), StageScore(w, t))
    ensures Close(StageScore(w, r), StageScore(w, t))
  {
    CloseRanks(w, ranks, m, r, s);
    CloseRanks(w, ranks, m, s, t);
    if r != s && s != t {
      var low, high := if r < t then r else t, if r < t then t else r;
      NearInside(w, m, ranks - 1, low, high);
      CloseIffNear(w, low, high);
    }
    hide StageScore, Near, Cut;
  }

  lemma CloseRanks(w: real, ranks: nat, m: nat, r: nat, s: nat)
    requires w >= 0.0 && Cut(w, ranks, m) && r < ranks && s < ranks && Close(StageScore(w, r), StageScore(w, s))
    ensures r == s || (m <= r && m <= s)
  {
    var low, high := if r < s then r else s, if r < s then s else r;
    CloseIffNear(w, low, high);
    if low < high && low < m {
      ApartBelowCut(w, ranks, m, low, high);
    }
  }

  /** Without a cut, some three ranks are close one to the next but not end to end. */
  lemma {:induction false} ChainWithoutCut(w: real, ranks: nat, m: nat) returns (r: nat, s: nat, t: nat)
    requires w >= 0.0 && !Separable(w, ranks)
    requires m < ranks && (m == 0 || !Near(w, m - 1, m))
    ensures r < s < t < ranks && Near(w, r, s) && Near(w, s, t) && !Near(w, r, t)
    decreases ranks - m
  {
    assert !Cut(w, ranks, m);
    if m == ranks - 1 {
      assert Near(w, m, m);
      assert false;
    } else if !Near(w, m, m + 1) {
      r, s, t := ChainWithoutCut(w, ranks, m + 1);
    } else {
      r := m;
      t := FirstFar(w, m, ranks - 1);
      s := t - 1;
      GapsShrink(w, m, s);
    }
  }

  lemma {:induction false} FirstFar(w: real, m: nat, last: nat) returns (t: nat)
    requires m + 1 <= last && Near(w, m, m + 1) && !Near(w, m, last)
    ensures m + 1 < t <= last && Near(w, m, t - 1) && !Near(w, m, t)
    decreases last
  {
    hide Near;
    if Near(w, m, last - 1) {
      t := last;
    } else {
      t := FirstFar(w, m, last - 1);
    }
  }

  /** The comparison orders every hit list of a stage exactly when the weight and the number of ranks
      are separable. */
  lemma StageIsOrderedIff(w: real, ranks: nat)
    requires w >= 0.0 && ranks > 0
    ensures (forall hits :: FromStage(hits, w, ranks) ==> OrdersAll(hits)) <==> Separable(w, ranks)
  {
    if Separable(w, ranks) {
      forall hits | FromStage(hits, w, ranks) ensures OrdersAll(hits) {
        SeparableOrders(hits, w, ranks);
      }
    } else {
      var hits := Unordered(w, ranks);
    }
  }

  lemma SeparableOrders(hits: seq<StageHit>, w: real, ranks: nat)
    requires w >= 0.0 && Separable(w, ranks) && FromStage(hits, w, ranks)
    ensures OrdersAll(hits)
  {
    var m: nat :| m < ranks && Cut(w, ranks, m);
    forall a, b, c | a in hits && b in hits && c in hits && Close(a.score, b.score) && Close(b.score, c.score)
      ensures Close(a.score, c.score)
    {
      var r: nat :| r < ranks && a.score == StageScore(w, r);
      var s: nat :| s < ranks && b.score == StageScore(w, s);
      var t: nat :| t < ranks && c.score == StageScore(w, t);
      hide *;
      CutCloses(w, ranks, m, r, s, t);
    }
    hide Close, StageScore, Cut, OrdersAll;
    CloseClassesOrder(hits);
  }

  lemma Unordered(w: real, ranks: nat) returns (hits: seq<StageHit>)
    requires w >= 0.0 && ranks > 0 && !Separable(w, ranks)
    ensures FromStage(hits, w, ranks) && !OrdersAll(hits)
  {
    var x, y, z;
    hits, x, y, z := UnorderedScores(w, ranks);
  }

  lemma UnorderedScores(w: real, ranks: nat) returns (hits: seq<StageHit>, x: real, y: real, z: real)
    requires w >= 0.0 && ranks > 0 && !Separable(w, ranks)
    ensures Close(x, y) && Close(y, z) && !Close(x, z) && x > z
    ensures hits == [Hit("c", x), Hit("b", y), Hit("a", z)] && FromStage(hits, w, ranks) && !OrdersAll(hits)
  {
    var r, s, t := ChainWithoutCut(w, ranks, 0);
    CloseIffNear(w, r, s);
    CloseIffNear(w, s, t);
    CloseIffNear(w, r, t);
    ScoresFall(w, r, t);
    x, y, z := StageScore(w, r), StageScore(w, s), StageScore(w, t);
    assert x > z;
    hide OrdersAll, DistinctIDs, Near, Separable, StageScore;
    hits := CloseChainCycles(x, y, z);
    forall h | h in hits ensures exists q: nat :: q < ranks && h.score == StageScore(w, q) {
      assert h == hits[0] || h == hits[1] || h == hits[2];
    }
  }

  /** The plain bound: neighbouring ranks are all at least the tolerance apart. */
  lemma HeavyIsSeparable(w: real, ranks: nat)
    requires ranks > 0 && w >= EPSILON * (ranks + 59) as real * (ranks + 60) as real
    ensures Separable(w, ranks)
  {
    assert Cut(w, ranks, ranks - 1);
  }

  /** A weight so light, on as few as three ranks, is not. */
  lemma LightIsNot()
    ensures !Separable(0.000002, 3)
  {
    forall m: nat | m < 3 ensures !Cut(0.000002, 3, m) {
    }
  }

  // ------------------------------------------------------------------- sorting and truncating

  /** Move `h` left past every hit it comes before. */
  function Insert(sorted: seq<StageHit>, h: StageHit): seq<StageHit> {
    if sorted != [] && Before(h, sorted[|sorted| - 1]) then
      Insert(sorted[..|sorted| - 1], h) + [sorted[|sorted| - 1]]
    else sorted + [h]
  }

  /** sort.SliceStable, as the insertion sort it is on short slices. */
  function Sort(hits: seq<StageHit>): seq<StageHit> {
    if hits == [] then [] else Insert(Sort(hits[..|hits| - 1]), hits[|hits| - 1])
  }

  predicate InOrder(hits: seq<StageHit>) {
    forall i, j :: 0 <= i < j < |hits| ==> Before(hits[i], hits[j])
  }

  lemma {:induction false} InsertBag(sorted: seq<StageHit>, h: StageHit)
    ensures multiset(Insert(sorted, h)) == multiset(sorted) + multiset{h}
  {
    hide Before;
    if sorted != [] && Before(h, sorted[|sorted| - 1]) {
      InsertBag(sorted[..|sorted| - 1], h);
      assert sorted == sorted[..|sorted| - 1] + [sorted[|sorted| - 1]];
    }
  }

  lemma {:induction false} SortBag(hits: seq<StageHit>)
    ensures multiset(Sort(hits)) == multiset(hits)
  {
    hide Insert, Before;
    if hits != [] {
      SortBag(hits[..|hits| - 1]);
      InsertBag(Sort(hits[..|hits| - 1]), hits[|hits| - 1]);
      assert hits == hits[..|hits| - 1] + [hits[|hits| - 1]];
    }
  }

  /** On hits the comparison orders, any two of the multiset are comparable and chains compose. */
  predicate Orders(bag: multiset<StageHit>) {
    && (forall a, b :: a in bag && b in bag && a != b ==> Before(a, b) || Before(b, a))
    && (forall a, b, c :: a in bag && b in bag && c in bag && Before(a, b) && Before(b, c) ==> Before(a, c))
    && (forall a :: a in bag ==> bag[a] == 1)
  }

  lemma OrdersBag(hits: seq<StageHit>)
    requires DistinctIDs(hits) && OrdersAll(hits)
    ensures Orders(multiset(hits))
  {
    forall a, b | a in hits && b in hits && a != b ensures Before(a, b) || Before(b, a) {
      var i :| 0 <= i < |hits| && hits[i] == a;
      var j :| 0 <= j < |hits| && hits[j] == b;
      hide Before;
    }
    hide Before;
    forall a | a in hits ensures multiset(hits)[a] == 1 {
      assert Sorting.Distinct(hits);
      Sorting.OnlyOnce(hits, a);
    }
  }

  lemma {:induction false} InsertInOrder(sorted: seq<StageHit>, h: StageHit, bag: multiset<StageHit>)
    requires InOrder(sorted) && Orders(bag) && h in bag && h !in sorted && forall x :: x in sorted ==> x in bag
    ensures InOrder(Insert(sorted, h))
  {
    if sorted != [] {
      var n := |sorted| - 1;
      var last := sorted[n];
      if Before(h, last) {
        InsertInOrder(sorted[..n], h, bag);
        InsertBag(sorted[..n], h);
        hide Before, Insert;
        AppendLast(Insert(sorted[..n], h), last, sorted[..n], h);
      } else {
        hide Before, Insert;
        assert Before(last, h);
        forall i | 0 <= i <= n ensures Before(sorted[i], h) {
          if i < n {
            assert Before(sorted[i], last);
          }
        }
      }
    }
  }

  lemma AppendLast(front: seq<StageHit>, last: StageHit, init: seq<StageHit>, h: StageHit)
    requires InOrder(front) && multiset(front) == multiset(init) + multiset{h} && Before(h, last)
    requires forall x :: x in init ==> Before(x, last)
    ensures InOrder(front + [last])
  {
    hide Before;
    forall i | 0 <= i < |front| ensures Before(front[i], last) {
      assert front[i] in multiset(init) + multiset{h};
    }
  }

  lemma {:induction false} SortInOrder(hits: seq<StageHit>, bag: multiset<StageHit>)
    requires Orders(bag) && multiset(hits) <= bag
    ensures InOrder(Sort(hits))
  {
    if hits != [] {
      var init, last := hits[..|hits| - 1], hits[|hits| - 1];
      assert hits == init + [last];
      assert multiset(hits)[last] <= bag[last];
      hide Insert, Before, InOrder;
      SortInOrder(init, bag);
      SortBag(init);
      assert bag[last] == 1 && multiset(init)[last] == 0;
      assert last !in Sort(init) by {
        assert last !in multiset(Sort(init));
      }
      forall x | x in Sort(init) ensures x in bag {
        assert x in multiset(Sort(init));
      }
      InsertInOrder(Sort(init), last, bag);
    }
  }

  lemma {:induction false} InOrderIsUnique(xs: seq<StageHit>, ys: seq<StageHit>)
    requires InOrder(xs) && InOrder(ys) && multiset(xs) == multiset(ys)
    ensures xs == ys
  {
    assert |xs| == |multiset(xs)| == |multiset(ys)| == |ys|;
    if xs != [] {
      SameHead(xs, ys);
      hide Before, InOrder;
      assert xs == [xs[0]] + xs[1..] && ys == [ys[0]] + ys[1..];
      assert multiset(xs[1..]) == multiset(xs) - multiset{xs[0]} && multiset(ys[1..]) == multiset(ys) - multiset{ys[0]};
      TailInOrder(xs);
      TailInOrder(ys);
      InOrderIsUnique(xs[1..], ys[1..]);
    }
  }

  lemma TailInOrder(xs: seq<StageHit>)
    requires InOrder(xs) && xs != []
    ensures InOrder(xs[1..])
  {
    hide Before;
  }

  lemma SameHead(xs: seq<StageHit>, ys: seq<StageHit>)
    requires InOrder(xs) && InOrder(ys) && multiset(xs) == multiset(ys) && xs != [] && ys != []
    ensures xs[0] == ys[0]
  {
    BeforeIsTotal(xs[0], ys[0]);
    hide Before;
    assert xs[0] in multiset(ys) && ys[0] in multiset(xs);
    var i :| 0 <= i < |ys| && ys[i] == xs[0];
    var j :| 0 <= j < |xs| && xs[j] == ys[0];
  }

  function Top(hits: seq<StageHit>, topK: int): seq<StageHit> {
    if 0 < topK < |hits| then hits[..topK] else hits
  }

  /** The values of a map in some order of its keys. */
  function ValuesIn(items: map<string, StageHit>, keys: seq<string>): (hits: seq<StageHit>)
    requires forall i :: 0 <= i < |keys| ==> keys[i] in items
    ensures |hits| == |keys|
  {
    seq(|keys|, i requires 0 <= i < |keys| => items[keys[i]])
  }

  /** Every key of the map, once. */
  predicate Iteration(items: map<string, StageHit>, keys: seq<string>) {
    && (forall i :: 0 <= i < |keys| ==> keys[i] in items)
    && (forall i, j :: 0 <= i < j < |keys| ==> keys[i] != keys[j])
    && forall k :: k in items ==> k in keys
  }

  /** A possible output: the map is iterated in an unspecified order. */
  ghost predicate IsOrderedTop(items: map<string, StageHit>, topK: int, out: seq<StageHit>) {
    exists keys :: Iteration(items, keys) && out == Top(Sort(ValuesIn(items, keys)), topK)
  }

  method OrderedStageHits(items: map<string, StageHit>, topK: int) returns (out: seq<StageHit>)
    ensures IsOrderedTop(items, topK, out)
  {
    out := [];
    ghost var keys: seq<string> := [];
    var left := items.Keys;
    while left != {}
      invariant left <= items.Keys
      invariant forall i :: 0 <= i < |keys| ==> keys[i] in items && keys[i] !in left
      invariant forall i, j :: 0 <= i < j < |keys| ==> keys[i] != keys[j]
      invariant forall k :: k in items ==> k in left || k in keys
      invariant out == ValuesIn(items, keys)
      decreases left
    {
      var k :| k in left;
      left := left - {k};
      out := out + [items[k]];
      keys := keys + [k];
    }
    assert Iteration(items, keys);
    hide Sort, ValuesIn, Iteration;
    out := Sort(out);
    if topK > 0 && |out| > topK {
      out := out[..topK];
    }
    assert out == Top(Sort(ValuesIn(items, keys)), topK);
  }

  // ---------------------------------------------------------------- what the output depends on

  lemma {:induction false} SameKeys(items: map<string, StageHit>, ks: seq<string>, ls: seq<string>)
    requires Iteration(items, ks) && Iteration(items, ls)
    ensures multiset(ks) == multiset(ls)
  {
    forall k | k in multiset(ks) + multiset(ls) ensures multiset(ks)[k] == 1 == multiset(ls)[k] {
      assert k in items;
      Sorting.OnlyOnce(ks, k);
      Sorting.OnlyOnce(ls, k);
    }
  }

  /** Taking one key out takes its value out. */
  lemma ValuesWithout(items: map<string, StageHit>, front: seq<string>, k: string, back: seq<string>)
    requires forall x :: x in front + [k] + back ==> x in items
    ensures multiset(front + [k] + back) == multiset(front + back) + multiset{k}
    ensures multiset(ValuesIn(items, front + [k] + back)) == multiset(ValuesIn(items, front + back)) + multiset{items[k]}
  {
    var all, rest := front + [k] + back, front + back;
    forall x | x in rest ensures x in items {
      assert x in all;
    }
    assert ValuesIn(items, rest) == ValuesIn(items, rest)[..|front|] + ValuesIn(items, rest)[|front|..];
    assert ValuesIn(items, all) == ValuesIn(items, rest)[..|front|] + [items[k]] + ValuesIn(items, rest)[|front|..];
  }

  lemma FindKey(ks: seq<string>, k: string) returns (front: seq<string>, back: seq<string>)
    requires k in ks
    ensures ks == front + [k] + back
  {
    var j :| 0 <= j < |ks| && ks[j] == k;
    front, back := ks[..j], ks[j + 1..];
  }

  lemma {:induction false} SameValues(items: map<string, StageHit>, ks: seq<string>, ls: seq<string>)
    requires multiset(ks) == multiset(ls)
    requires forall x :: x in ks + ls ==> x in items
    ensures multiset(ValuesIn(items, ks)) == multiset(ValuesIn(items, ls))
    decreases |ks|
  {
    hide ValuesIn;
    assert |ks| == |multiset(ks)| == |multiset(ls)| == |ls|;
    if ks == [] {
      assert ks == ls;
    } else {
      var k := ks[0];
      assert k in multiset(ls);
      var front, back := FindKey(ls, k);
      assert [] + [k] + ks[1..] == ks && [] + ks[1..] == ks[1..];
      ValuesWithout(items, [], k, ks[1..]);
      ValuesWithout(items, front, k, back);
      forall x | x in ks[1..] + (front + back) ensures x in items {
        assert x in ks || x in ls;
      }
      Cancel(multiset(ks[1..]), multiset(front + back), k);
      SameValues(items, ks[1..], front + back);
    }
  }

  lemma Cancel(a: multiset<string>, b: multiset<string>, k: string)
    requires a + multiset{k} == b + multiset{k}
    ensures a == b
  {
    assert a + multiset{k} - multiset{k} == a && b + multiset{k} - multiset{k} == b;
  }

  /** Whatever order the map is iterated in, hits that the comparison orders come out the same. */
  lemma OutputIsDetermined(items: map<string, StageHit>, ks: seq<string>, ls: seq<string>)
    requires Iteration(items, ks) && Iteration(items, ls)
    requires DistinctIDs(ValuesIn(items, ks)) && OrdersAll(ValuesIn(items, ks))
    ensures Sort(ValuesIn(items, ks)) == Sort(ValuesIn(items, ls))
    ensures InOrder(Sort(ValuesIn(items, ks)))
  {
    SameKeys(items, ks, ls);
    SameValues(items, ks, ls);
    OrdersBag(ValuesIn(items, ks));
    hide *;
    var xs, ys := ValuesIn(items, ks), ValuesIn(items, ls);
    SortInOrder(xs, multiset(xs));
    SortInOrder(ys, multiset(xs));
    SortBag(xs);
    SortBag(ys);
    InOrderIsUnique(Sort(xs), Sort(ys));
  }

  /** For a stage whose weight and ranks are separable, the output is a function of the map, and it is
      the best `topK`: every hit cut off comes after every hit kept. */
  lemma StageTopIsBest(items: map<string, StageHit>, ks: seq<string>, ls: seq<string>, topK: int, w: real, ranks: nat)
    requires w >= 0.0 && Separable(w, ranks) && Iteration(items, ks) && Iteration(items, ls)
    requires FromStage(ValuesIn(items, ks), w, ranks)
    ensures Top(Sort(ValuesIn(items, ks)), topK) == Top(Sort(ValuesIn(items, ls)), topK)
    ensures var out := Top(Sort(ValuesIn(items, ls)), topK);
      && |out| == (if 0 < topK < |items| then topK else |items|)
      && forall a, b :: a in out && b in items.Values && b !in out ==> Before(a, b)
  {
    var xs, ys := ValuesIn(items, ks), ValuesIn(items, ls);
    assert DistinctIDs(xs);
    hide *;
    SeparableOrders(xs, w, ranks);
    OutputIsDetermined(items, ks, ls);
    IterationLength(items, ls);
    AllSorted(items, ls);
    TopLength(Sort(ys), topK);
    KeptBeforeCut(Sort(ys), topK);
  }

  lemma TopLength(sorted: seq<StageHit>, topK: int)
    ensures |Top(sorted, topK)| == if 0 < topK < |sorted| then topK else |sorted|
  {
  }

  lemma AllSorted(items: map<string, StageHit>, ls: seq<string>)
    requires Iteration(items, ls)
    ensures |Sort(ValuesIn(items, ls))| == |ls|
    ensures forall b :: b in items.Values ==> b in Sort(ValuesIn(items, ls))
  {
    var vals := ValuesIn(items, ls);
    forall b | b in items.Values ensures b in multiset(vals) {
      var k :| k in items && items[k] == b;
      var i :| 0 <= i < |ls| && ls[i] == k;
      assert vals[i] == b;
    }
    SortBag(vals);
    hide ValuesIn, Sort;
    assert |Sort(vals)| == |multiset(Sort(vals))|;
  }

  lemma KeptBeforeCut(sorted: seq<StageHit>, topK: int)
    requires InOrder(sorted)
    ensures forall a, b :: a in Top(sorted, topK) && b in sorted && b !in Top(sorted, topK) ==> Before(a, b)
  {
    hide Before;
    var out := Top(sorted, topK);
    forall q | 0 <= q < |out| ensures sorted[q] in out {
      assert out[q] == sorted[q];
    }
    forall a, b | a in out && b in sorted && b !in out ensures Before(a, b) {
      var i :| 0 <= i < |out| && out[i] == a;
      var j :| 0 <= j < |sorted| && sorted[j] == b;
      assert sorted[i] == a;
    }
  }

  lemma IterationLength(items: map<string, StageHit>, ks: seq<string>)
    requires Iteration(items, ks)
    ensures |ks| == |items|
  {
    KeysCounted(ks);
    assert (set k | k in ks) == items.Keys;
  }

  lemma {:induction false} KeysCounted(ks: seq<string>)
    requires forall i, j :: 0 <= i < j < |ks| ==> ks[i] != ks[j]
    ensures |(set k | k in ks)| == |ks|
  {
    if ks != [] {
      var n := |ks| - 1;
      KeysCounted(ks[..n]);
      assert (set k | k in ks) == (set k | k in ks[..n]) + {ks[n]};
    }
  }

  /** Close hits of one chunk id stay in the order the map was iterated in. */
  lemma TiesKeepIterationOrder(a: StageHit, b: StageHit)
    requires a.chunkID == b.chunkID && Close(a.score, b.score)
    ensures Sort([a, b]) == [a, b]
  {
    LessIsTotal(a.chunkID, b.chunkID);
    assert !Before(b, a);
    assert [a, b][..1] == [a] && [a][..0] == [];
    hide Before;
    assert Sort([a]) == [a];
  }

  // ------------------------------------------------------------------ when it does not settle

  /** Two orders in which the sort meets three hits of a cycle. */
  lemma CycleSortsTwoWays(a: StageHit, b: StageHit, c: StageHit)
    requires Before(c, a) && Before(a, b) && Before(b, c)
    ensures Sort([c, a, b]) == [c, a, b] && Sort([a, b, c]) == [a, b, c]
  {
    BeforeIsTotal(a, b);
    BeforeIsTotal(b, c);
    BeforeIsTotal(c, a);
    hide Before;
    AlreadySorted(c, a, b);
    AlreadySorted(a, b, c);
  }

  lemma AlreadySorted(x: StageHit, y: StageHit, z: StageHit)
    requires !Before(y, x) && !Before(z, y)
    ensures Sort([x, y, z]) == [x, y, z]
  {
    hide Before;
    assert [x, y, z][..2] == [x, y] && [x, y][..1] == [x] && [x][..0] == [];
    assert Sort([x]) == [x];
    assert Sort([x, y]) == [x, y];
  }

  /** A map of three hits and two ways through it. */
  lemma TwoWays(a: StageHit, b: StageHit, c: StageHit)
    ensures var items := map["c" := c, "b" := b, "a" := a];
      && Iteration(items, ["c", "a", "b"]) && Iteration(items, ["a", "b", "c"])
      && ValuesIn(items, ["c", "a", "b"]) == [c, a, b] && ValuesIn(items, ["a", "b", "c"]) == [a, b, c]
  {
    assert "a"[0] != "b"[0] && "b"[0] != "c"[0] && "a"[0] != "c"[0];
  }

  lemma StageReordered(a: StageHit, b: StageHit, c: StageHit, w: real, ranks: nat)
    requires FromStage([c, b, a], w, ranks)
    ensures FromStage([c, a, b], w, ranks)
  {
    var hits, moved := [c, b, a], [c, a, b];
    hide StageScore;
    assert hits[0].chunkID != hits[1].chunkID && hits[1].chunkID != hits[2].chunkID && hits[0].chunkID != hits[2].chunkID;
    forall h | h in moved ensures exists q: nat :: q < ranks && h.score == StageScore(w, q) {
      assert h in hits;
    }
  }

  lemma FirstKept(hits: seq<StageHit>, topK: int)
    requires hits != []
    ensures Top(hits, topK) != [] && Top(hits, topK)[0] == hits[0]
  {
  }

  /** A stage that is not separable has hits that come out in two ways, first hit included. */
  lemma Unsettled(w: real, ranks: nat, topK: int) returns (items: map<string, StageHit>, ks: seq<string>, ls: seq<string>)
    requires w >= 0.0 && ranks > 0 && !Separable(w, ranks)
    ensures Iteration(items, ks) && Iteration(items, ls) && FromStage(ValuesIn(items, ks), w, ranks)
    ensures Top(Sort(ValuesIn(items, ks)), topK) != Top(Sort(ValuesIn(items, ls)), topK)
  {
    var hits, x, y, z := UnorderedScores(w, ranks);
    var c, b, a := Hit("c", x), Hit("b", y), Hit("a", z);
    items := map["c" := c, "b" := b, "a" := a];
    ks, ls := ["c", "a", "b"], ["a", "b", "c"];
    assert c.chunkID == "c" && a.chunkID == "a" && "a"[0] != "c"[0];
    CycleOf(x, y, z);
    hide *;
    TwoWays(a, b, c);
    StageReordered(a, b, c, w, ranks);
    CycleSortsTwoWays(a, b, c);
    FirstKept([c, a, b], topK);
    FirstKept([a, b, c], topK);
  }

  /** A stage's truncated output is a function of its map, for all of its maps, exactly when its weight
      and number of ranks are separable. */
  lemma StageIsDeterminedIff(w: real, ranks: nat, topK: int)
    requires w >= 0.0 && ranks > 0
    ensures (forall items, ks, ls :: Iteration(items, ks) && Iteration(items, ls) && FromStage(ValuesIn(items, ks), w, ranks) ==>
               Top(Sort(ValuesIn(items, ks)), topK) == Top(Sort(ValuesIn(items, ls)), topK))
       <==> Separable(w, ranks)
  {
    hide Sort, Top, FromStage, Separable, ValuesIn;
    if Separable(w, ranks) {
      forall items, ks, ls | Iteration(items, ks) && Iteration(items, ls) && FromStage(ValuesIn(items, ks), w, ranks)
        ensures Top(Sort(ValuesIn(items, ks)), topK) == Top(Sort(ValuesIn(items, ls)), topK)
      {
        StageTopIsBest(items, ks, ls, topK, w, ranks);
      }
    } else {
      var items, ks, ls := Unsettled(w, ranks, topK);
    }
  }

  // -------------------------------------------------------------- any map of distinct chunks

  predicate Precedes(hits: seq<StageHit>, a: StageHit, b: StageHit) {
    exists i, j :: 0 <= i < j < |hits| && hits[i] == a && hits[j] == b
  }

  /** Inserting a hit leaves the others in their order. */
  lemma {:induction false} InsertKeepsOrder(sorted: seq<StageHit>, h: StageHit, a: StageHit, b: StageHit)
    requires Precedes(sorted, a, b)
    ensures Precedes(Insert(sorted, h), a, b)
  {
    var n := |sorted| - 1;
    InInit(sorted, a, b);
    if Before(h, sorted[n]) {
      var front := Insert(sorted[..n], h);
      assert Insert(sorted, h) == front + [sorted[n]];
      InsertBag(sorted[..n], h);
      hide Insert, Before, Precedes;
      if Precedes(sorted[..n], a, b) {
        InsertKeepsOrder(sorted[..n], h, a, b);
        StillPrecedes(front, [sorted[n]], a, b);
      } else {
        assert a in multiset(front);
        PrecedesLast(front, a, b);
      }
    } else {
      hide Precedes;
      StillPrecedes(sorted, [h], a, b);
    }
  }

  lemma InInit(hits: seq<StageHit>, a: StageHit, b: StageHit)
    requires Precedes(hits, a, b)
    ensures hits != []
    ensures var n := |hits| - 1; Precedes(hits[..n], a, b) || (a in hits[..n] && b == hits[n])
  {
    var i, j :| 0 <= i < j < |hits| && hits[i] == a && hits[j] == b;
    var init := hits[..|hits| - 1];
    assert init[i] == a;
    if j < |init| {
      assert init[j] == b;
    }
  }

  lemma PrecedesLast(hits: seq<StageHit>, a: StageHit, b: StageHit)
    requires a in hits
    ensures Precedes(hits + [b], a, b)
  {
    var i :| 0 <= i < |hits| && hits[i] == a;
    assert (hits + [b])[i] == a && (hits + [b])[|hits|] == b;
  }

  lemma StillPrecedes(hits: seq<StageHit>, more: seq<StageHit>, a: StageHit, b: StageHit)
    requires Precedes(hits, a, b)
    ensures Precedes(hits + more, a, b)
  {
    var i, j :| 0 <= i < j < |hits| && hits[i] == a && hits[j] == b;
    assert (hits + more)[i] == a && (hits + more)[j] == b;
  }

  lemma {:induction false} SortKeepsOrder(first: seq<StageHit>, more: seq<StageHit>, a: StageHit, b: StageHit)
    requires Precedes(Sort(first), a, b)
    ensures Precedes(Sort(first + more), a, b)
  {
    hide Insert, Precedes;
    if more == [] {
      assert first + more == first;
    } else {
      var n := |more| - 1;
      SortKeepsOrder(first, more[..n], a, b);
      assert (first + more)[..|first| + n] == first + more[..n];
      InsertKeepsOrder(Sort(first + more[..n]), more[n], a, b);
    }
  }

  /** Hits with distinct ids that the comparison does not order hold a cycle. */
  lemma FindCycle(hits: seq<StageHit>) returns (a: StageHit, b: StageHit, c: StageHit)
    requires DistinctIDs(hits) && !OrdersAll(hits)
    ensures a in hits && b in hits && c in hits && Before(a, b) && Before(b, c) && Before(c, a)
  {
    forall i, j | 0 <= i < |hits| && 0 <= j < |hits| && i != j ensures Before(hits[i], hits[j]) <==> !Before(hits[j], hits[i]) {
      BeforeIsTotal(hits[i], hits[j]);
    }
    hide Before;
    a, b, c :| a in hits && b in hits && c in hits && Before(a, b) && Before(b, c) && !Before(a, c);
    BeforeIsTotal(a, b);
    BeforeIsTotal(a, c);
  }

  /** Every key of a set, once. */
  lemma {:induction false} Enumerate(keys: set<string>) returns (ks: seq<string>)
    ensures Sorting.Distinct(ks) && forall k :: k in ks <==> k in keys
  {
    ks := [];
    if keys != {} {
      var k :| k in keys;
      ks := Enumerate(keys - {k});
      ks := ks + [k];
    }
  }

  lemma KeyOf(items: map<string, StageHit>, ks: seq<string>, h: StageHit) returns (k: string)
    requires Iteration(items, ks) && h in ValuesIn(items, ks)
    ensures k in items && items[k] == h
  {
    var i :| 0 <= i < |ks| && items[ks[i]] == h;
    k := ks[i];
  }

  lemma FirstPrecedesLast(a: StageHit, b: StageHit, c: StageHit)
    ensures Precedes([a, b, c], a, c) && Precedes([a, b, c], b, c)
  {
    assert [a, b, c][0] == a && [a, b, c][1] == b && [a, b, c][2] == c;
  }

  /** The other keys, once. */
  predicate Others(items: map<string, StageHit>, first: set<string>, rest: seq<string>) {
    && Sorting.Distinct(rest)
    && (forall i :: 0 <= i < |rest| ==> rest[i] in items && rest[i] !in first)
    && (forall k :: k in items && k !in first ==> k in rest)
  }

  lemma Prepend(items: map<string, StageHit>, first: set<string>, x: string, rest: seq<string>)
    requires x in items && x in first && Others(items, first, rest)
    ensures Others(items, first - {x}, [x] + rest)
  {
    var ks := [x] + rest;
    assert forall i :: 1 <= i < |ks| ==> ks[i] == rest[i - 1];
    forall k | k in items && k !in first - {x} ensures k in ks {
      assert k == x || k in rest;
    }
  }

  /** The map's values in an order that starts with three given ones. */
  lemma StartWith(items: map<string, StageHit>, x: string, y: string, z: string, rest: seq<string>)
    requires x in items && y in items && z in items && x != y && y != z && x != z && Others(items, {x, y, z}, rest)
    ensures Iteration(items, [x, y, z] + rest)
    ensures ValuesIn(items, [x, y, z] + rest) == [items[x], items[y], items[z]] + ValuesIn(items, rest)
  {
    OthersThenAll(items, x, y, z, rest);
    ValuesAfter(items, [x, y, z], rest);
    hide ValuesIn, Others, Iteration;
    assert ValuesIn(items, [x, y, z]) == [items[x], items[y], items[z]] by {
      ThreeValues(items, x, y, z);
    }
  }

  lemma ThreeValues(items: map<string, StageHit>, x: string, y: string, z: string)
    requires x in items && y in items && z in items
    ensures ValuesIn(items, [x, y, z]) == [items[x], items[y], items[z]]
  {
  }

  lemma ValuesAfter(items: map<string, StageHit>, front: seq<string>, back: seq<string>)
    requires forall i :: 0 <= i < |front| ==> front[i] in items
    requires forall i :: 0 <= i < |back| ==> back[i] in items
    ensures ValuesIn(items, front + back) == ValuesIn(items, front) + ValuesIn(items, back)
  {
  }

  lemma OthersThenAll(items: map<string, StageHit>, x: string, y: string, z: string, rest: seq<string>)
    requires x in items && y in items && z in items && x != y && y != z && x != z && Others(items, {x, y, z}, rest)
    ensures Iteration(items, [x, y, z] + rest)
  {
    assert [x] + ([y] + ([z] + rest)) == [x, y, z] + rest;
    assert {x, y, z} - {z} - {y} - {x} == {};
    assert Others(items, {}, [x, y, z] + rest) by {
      hide Others;
      Prepend(items, {x, y, z}, z, rest);
      Prepend(items, {x, y, z} - {z}, y, [z] + rest);
      Prepend(items, {x, y, z} - {z} - {y}, x, [y] + ([z] + rest));
    }
  }

  /** What three hits that are sorted already do at the head of an iteration. */
  lemma SortedFirst(items: map<string, StageHit>, x: string, y: string, z: string, rest: seq<string>)
    requires x in items && y in items && z in items && x != y && y != z && x != z && Others(items, {x, y, z}, rest)
    requires var (a, b, c) := (items[x], items[y], items[z]); Sort([a, b, c]) == [a, b, c]
    ensures Iteration(items, [x, y, z] + rest)
    ensures Precedes(Sort(ValuesIn(items, [x, y, z] + rest)), items[x], items[z])
    ensures Precedes(Sort(ValuesIn(items, [x, y, z] + rest)), items[y], items[z])
  {
    var a, b, c := items[x], items[y], items[z];
    StartWith(items, x, y, z, rest);
    FirstPrecedesLast(a, b, c);
    hide Sort, Precedes;
    SortKeepsOrder([a, b, c], ValuesIn(items, rest), a, c);
    SortKeepsOrder([a, b, c], ValuesIn(items, rest), b, c);
  }

  /** The ends of a cycle come out in both orders, if nothing but the order of iteration decides. */
  lemma CycleEndsSwap(items: map<string, StageHit>, ks: seq<string>, a: StageHit, b: StageHit, c: StageHit)
      returns (ls: seq<string>, ms: seq<string>)
    requires Iteration(items, ks) && a in ValuesIn(items, ks) && b in ValuesIn(items, ks) && c in ValuesIn(items, ks)
    requires Before(a, b) && Before(b, c) && Before(c, a)
    ensures Iteration(items, ls) && Iteration(items, ms)
    ensures Precedes(Sort(ValuesIn(items, ls)), a, c) && Precedes(Sort(ValuesIn(items, ms)), c, a)
  {
    var x := KeyOf(items, ks, a);
    var y := KeyOf(items, ks, b);
    var z := KeyOf(items, ks, c);
    BeforeIsTotal(a, b);
    BeforeIsTotal(b, c);
    BeforeIsTotal(c, a);
    var rest := OtherKeys(items, {x, y, z});
    assert {y, z, x} == {x, y, z};
    hide Before, Sort, ValuesIn, Precedes, Others;
    CycleSortsTwoWays(b, c, a);
    ls, ms := [x, y, z] + rest, [y, z, x] + rest;
    SortedFirst(items, x, y, z, rest);
    SortedFirst(items, y, z, x, rest);
  }

  lemma OtherKeys(items: map<string, StageHit>, first: set<string>) returns (rest: seq<string>)
    ensures Others(items, first, rest)
  {
    rest := Enumerate(items.Keys - first);
    forall i | 0 <= i < |rest| ensures rest[i] in items && rest[i] !in first {
      assert rest[i] in rest;
    }
  }

  lemma NotBothWays(hits: seq<StageHit>, a: StageHit, b: StageHit)
    requires Sorting.Distinct(hits) && a != b && Precedes(hits, a, b)
    ensures !Precedes(hits, b, a)
  {
    var i, j :| 0 <= i < j < |hits| && hits[i] == a && hits[j] == b;
    forall k, l | 0 <= k < l < |hits| ensures !(hits[k] == b && hits[l] == a) {
      assert k != j ==> hits[k] != hits[j];
    }
  }

  lemma SortedIsDistinct(hits: seq<StageHit>)
    requires DistinctIDs(hits)
    ensures Sorting.Distinct(Sort(hits))
  {
    SortBag(hits);
    assert Sorting.Distinct(hits);
    hide Sort, DistinctIDs;
    forall h | h in Sort(hits) ensures multiset(Sort(hits))[h] == 1 {
      assert h in multiset(hits);
      Sorting.OnlyOnce(hits, h);
    }
    Sorting.NoneTwice(Sort(hits));
  }

  /** For any map of hits with distinct chunk ids: all iterations sort to the same sequence exactly when the
      comparison orders the hits. */
  lemma DeterminedIff(items: map<string, StageHit>, ks: seq<string>)
    requires Iteration(items, ks) && DistinctIDs(ValuesIn(items, ks))
    ensures (forall ls :: Iteration(items, ls) ==> Sort(ValuesIn(items, ls)) == Sort(ValuesIn(items, ks)))
       <==> OrdersAll(ValuesIn(items, ks))
  {
    hide ValuesIn, Sort, OrdersAll, DistinctIDs, Precedes, Before;
    if OrdersAll(ValuesIn(items, ks)) {
      forall ls | Iteration(items, ls) ensures Sort(ValuesIn(items, ls)) == Sort(ValuesIn(items, ks)) {
        OutputIsDetermined(items, ks, ls);
      }
    } else {
      var a, b, c := FindCycle(ValuesIn(items, ks));
      var ls, ms := CycleEndsSwap(items, ks, a, b, c);
      BeforeIsTotal(a, c);
      SortedIsDistinct(ValuesIn(items, ks));
      if Sort(ValuesIn(items, ls)) == Sort(ValuesIn(items, ks)) == Sort(ValuesIn(items, ms)) {
        NotBothWays(Sort(ValuesIn(items, ks)), a, c);
      }
    }
  }

  // ---------------------------------------------------------------------- any list of scores

  ghost predicate HasScores(hits: seq<StageHit>, scores: seq<real>) {
    |hits| == |scores| && forall i :: 0 <= i < |hits| ==> hits[i].score == scores[i]
  }

  /** Closeness is transitive on these scores, which a caller can tell before sorting. */
  predicate ScoresSettled(scores: seq<real>) {
    forall x, y, z :: x in scores && y in scores && z in scores && Close(x, y) && Close(y, z) ==> Close(x, z)
  }

  lemma SettledIsTransitive(hits: seq<StageHit>, scores: seq<real>)
    requires HasScores(hits, scores) && ScoresSettled(scores)
    ensures CloseTransitive(hits)
  {
    hide Close;
    forall h | h in hits ensures h.score in scores {
      var i :| 0 <= i < |hits| && hits[i] == h;
      assert scores[i] in scores;
    }
  }

  /** An id for each position, with room for three chosen ones. */
  function NamedHit(scores: seq<real>, i: nat, x: nat, y: nat, z: nat): StageHit
    requires i < |scores|
  {
    Hit(if i == x then "c" else if i == y then "b" else if i == z then "a" else seq(i + 2, _ => 'd'), scores[i])
  }

  lemma NamedApart(scores: seq<real>, i: nat, j: nat, x: nat, y: nat, z: nat)
    requires i < j < |scores| && x != y && y != z && x != z
    ensures NamedHit(scores, i, x, y, z).chunkID != NamedHit(scores, j, x, y, z).chunkID
  {
    assert "a"[0] != "b"[0] && "b"[0] != "c"[0] && "a"[0] != "c"[0];
    assert |NamedHit(scores, i, x, y, z).chunkID| == if i == x || i == y || i == z then 1 else i + 2;
    assert |NamedHit(scores, j, x, y, z).chunkID| == if j == x || j == y || j == z then 1 else j + 2;
  }

  /** Three of the scores that chain, the first above the last. */
  lemma UnsettledScores(scores: seq<real>) returns (x: nat, y: nat, z: nat)
    requires !ScoresSettled(scores)
    ensures x < |scores| && y < |scores| && z < |scores| && x != y && y != z && x != z
    ensures Close(scores[x], scores[y]) && Close(scores[y], scores[z]) && !Close(scores[x], scores[z]) && scores[x] > scores[z]
  {
    var a, b, c :| a in scores && b in scores && c in scores && Close(a, b) && Close(b, c) && !Close(a, c);
    x :| 0 <= x < |scores| && scores[x] == a;
    y :| 0 <= y < |scores| && scores[y] == b;
    z :| 0 <= z < |scores| && scores[z] == c;
    if scores[x] < scores[z] {
      x, z := z, x;
    }
  }

  lemma UnsettledCycles(scores: seq<real>) returns (hits: seq<StageHit>)
    requires !ScoresSettled(scores)
    ensures HasScores(hits, scores) && DistinctIDs(hits) && !OrdersAll(hits)
  {
    var x, y, z := UnsettledScores(scores);
    hits := seq(|scores|, i requires 0 <= i < |scores| => NamedHit(scores, i, x, y, z));
    forall i, j | 0 <= i < j < |hits| ensures hits[i].chunkID != hits[j].chunkID {
      NamedApart(scores, i, j, x, y, z);
    }
    assert hits[x] == Hit("c", scores[x]) && hits[y] == Hit("b", scores[y]) && hits[z] == Hit("a", scores[z]);
    CycleOf(scores[x], scores[y], scores[z]);
    hide OrdersAll, Before, Close, NamedHit;
    Cycle(hits, hits[z], hits[y], hits[x]);
  }

  /** For any list of scores, fused ones included: the comparison orders the hits that have them, for
      every choice of distinct chunk ids, exactly when closeness is transitive on the scores. */
  lemma ScoresOrderIff(scores: seq<real>)
    ensures (forall hits :: HasScores(hits, scores) && DistinctIDs(hits) ==> OrdersAll(hits)) <==> ScoresSettled(scores)
  {
    hide OrdersAll, HasScores, DistinctIDs, CloseTransitive;
    if ScoresSettled(scores) {
      hide ScoresSettled;
      forall hits | HasScores(hits, scores) && DistinctIDs(hits) ensures OrdersAll(hits) {
        SettledIsTransitive(hits, scores);
        CloseClassesOrder(hits);
      }
    } else {
      var hits := UnsettledCycles(scores);
    }
  }

  /** So such a map has one ordered output, whatever the iteration, cut off at any length. */
  lemma SettledMapIsDetermined(items: map<string, StageHit>, ks: seq<string>, ls: seq<string>, scores: seq<real>, topK: int)
    requires Iteration(items, ks) && Iteration(items, ls)
    requires HasScores(ValuesIn(items, ks), scores) && ScoresSettled(scores) && DistinctIDs(ValuesIn(items, ks))
    ensures Top(Sort(ValuesIn(items, ks)), topK) == Top(Sort(ValuesIn(items, ls)), topK)
    ensures InOrder(Sort(ValuesIn(items, ks)))
  {
    var hits := ValuesIn(items, ks);
    hide *;
    SettledIsTransitive(hits, scores);
    CloseClassesOrder(hits);
    OutputIsDetermined(items, ks, ls);
  }
}
