/**
 Reciprocal-rank fusion: every query's ranked lists are merged into one table per stage, keeping a
 hit's best score, and the two tables are added up.
 */
module RankFusion {
  import opened StageHits
  import opened Strings
  import opened StageOrder

  // ----------------------------------------------------------------------------- weights

  function Clamp(x: real): real { if x < 0.0 then 0.0 else x }

  function Share(x: real, total: real): real
    requires total > 0.0
  {
    x / total
  }

  function NormalizedFusionWeights(dense: real, lexical: real): (w: (real, real))
    ensures w.0 >= 0.0 && w.1 >= 0.0 && w.0 + w.1 == 1.0
  {
    if dense <= 0.0 && lexical <= 0.0 then (0.5, 0.5)
    else
      var d, l := Clamp(dense), Clamp(lexical);
      Shares(d, l);
      (Share(d, d + l), Share(l, d + l))
  }

  lemma Shares(d: real, l: real)
    requires d >= 0.0 && l >= 0.0 && d + l > 0.0
    ensures Share(d, d + l) >= 0.0 && Share(l, d + l) >= 0.0 && Share(d, d + l) + Share(l, d + l) == 1.0
    ensures Share(d, d + l) * l == Share(l, d + l) * d
  {
    assert d / (d + l) + l / (d + l) == (d + l) / (d + l);
  }

  lemma ShareScale(c: real, x: real, y: real)
    requires c > 0.0 && y > 0.0
    ensures c * y > 0.0 && Share(c * x, c * y) == Share(x, y)
  {
    var q := x / y;
    assert q * y == x;
    assert q * (c * y) == c * (q * y);
  }

  lemma SharesScale(c: real, d: real, l: real, bigD: real, bigL: real)
    requires c > 0.0 && d + l > 0.0 && bigD == c * d && bigL == c * l
    ensures bigD + bigL > 0.0 && Share(bigD, bigD + bigL) == Share(d, d + l) && Share(bigL, bigD + bigL) == Share(l, d + l)
  {
    ShareScale(c, d, d + l);
    ShareScale(c, l, d + l);
    hide Share;
    assert bigD + bigL == c * (d + l);
  }

  lemma ClampScale(c: real, x: real)
    requires c > 0.0
    ensures (c * x <= 0.0 <==> x <= 0.0) && Clamp(c * x) == c * Clamp(x)
  {
  }

  lemma SameShares(x: real, y: real, dense: real, lexical: real)
    requires (x <= 0.0 <==> dense <= 0.0) && (y <= 0.0 <==> lexical <= 0.0)
    requires dense > 0.0 || lexical > 0.0 ==>
      && Share(Clamp(x), Clamp(x) + Clamp(y)) == Share(Clamp(dense), Clamp(dense) + Clamp(lexical))
      && Share(Clamp(y), Clamp(x) + Clamp(y)) == Share(Clamp(lexical), Clamp(dense) + Clamp(lexical))
    ensures NormalizedFusionWeights(x, y) == NormalizedFusionWeights(dense, lexical)
  {
    hide Share;
  }

  /** Only the proportion of the weights matters: scaling both changes nothing. */
  lemma WeightsScale(dense: real, lexical: real, c: real)
    requires c > 0.0
    ensures NormalizedFusionWeights(c * dense, c * lexical) == NormalizedFusionWeights(dense, lexical)
  {
    ClampScale(c, dense);
    ClampScale(c, lexical);
    if dense > 0.0 || lexical > 0.0 {
      assert Clamp(dense) + Clamp(lexical) > 0.0;
      SharesScale(c, Clamp(dense), Clamp(lexical), Clamp(c * dense), Clamp(c * lexical));
    }
    hide *;
    SameShares(c * dense, c * lexical, dense, lexical);
  }

  /** Positive weights keep their proportion; beside a positive weight, any other counts as 0. */
  lemma WeightsProportional(dense: real, lexical: real)
    requires dense > 0.0 || lexical > 0.0
    ensures var w := NormalizedFusionWeights(dense, lexical); w.0 * Clamp(lexical) == w.1 * Clamp(dense)
  {
    Shares(Clamp(dense), Clamp(lexical));
    hide Share;
  }

  /** The two stages are treated alike; so without a positive weight each gets one half. */
  lemma WeightsSwap(dense: real, lexical: real)
    ensures var (d, l) := NormalizedFusionWeights(dense, lexical); NormalizedFusionWeights(lexical, dense) == (l, d)
    ensures dense <= 0.0 && lexical <= 0.0 ==> NormalizedFusionWeights(dense, lexical) == (0.5, 0.5)
  {
    hide Share;
    assert Clamp(dense) + Clamp(lexical) == Clamp(lexical) + Clamp(dense);
  }

  // ------------------------------------------------------------------------ one stage's table

  /** A map of hits, updated in place. */
  class HitTable {
    var items: map<string, StageHit>

    constructor ()
      ensures items == map[]
    {
      items := map[];
    }
  }

  /** mergeStageHit: a strictly better score replaces the hit stored under the key. */
  function Merged(items: map<string, StageHit>, hit: StageHit): map<string, StageHit> {
    if Key(hit) !in items || hit.score > items[Key(hit)].score then items[Key(hit) := hit] else items
  }

  /** A hit of a ranked list, as it enters the table. */
  function Stamped(hit: StageHit, stage: string, rank: nat, weight: real): StageHit {
    hit.(stage := stage, score := StageScore(weight, rank))
  }

  function Accumulated(items: map<string, StageHit>, hits: seq<StageHit>, stage: string, weight: real, n: nat): map<string, StageHit>
    requires n <= |hits|
  {
    if n == 0 then items
    else Merged(Accumulated(items, hits, stage, weight, n - 1), Stamped(hits[n - 1], stage, n - 1, weight))
  }

  method MergeStageHit(target: HitTable, hit: StageHit)
    modifies target
    ensures target.items == Merged(old(target.items), hit)
  {
    var key := Key(hit);
    if key !in target.items || hit.score > target.items[key].score {
      target.items := target.items[key := hit];
    }
  }

  method AccumulateStageHits(target: HitTable, hits: seq<StageHit>, stage: string, weight: real)
    modifies target
    ensures target.items == Accumulated(old(target.items), hits, stage, weight, |hits|)
  {
    hide Key, Merged;
    for rank := 0 to |hits|
      invariant target.items == Accumulated(old(target.items), hits, stage, weight, rank)
    {
      var hit := hits[rank].(stage := stage, score := ReciprocalRank(rank) * weight);
      MergeStageHit(target, hit);
    }
  }

  function AccumulatedAll(lists: seq<seq<StageHit>>, stage: string, weight: real): map<string, StageHit> {
    if lists == [] then map[]
    else
      var last := lists[|lists| - 1];
      Accumulated(AccumulatedAll(lists[..|lists| - 1], stage, weight), last, stage, weight, |last|)
  }

  /** One stage over all queries: `lists` are the ranked lists of the queries whose search succeeded. */
  method SearchAll(lists: seq<seq<StageHit>>, stage: string, weight: real) returns (target: HitTable)
    ensures fresh(target) && target.items == AccumulatedAll(lists, stage, weight)
  {
    target := new HitTable();
    for n := 0 to |lists|
      invariant fresh(target) && target.items == AccumulatedAll(lists[..n], stage, weight)
    {
      assert lists[..n + 1][..n] == lists[..n];
      AccumulateStageHits(target, lists[n], stage, weight);
    }
    assert lists[..|lists|] == lists;
  }

  /** The hit at this rank of this list is filed under `k`. */
  predicate Occurs(lists: seq<seq<StageHit>>, k: string, i: nat, r: nat) {
    i < |lists| && r < |lists[i]| && Key(lists[i][r]) == k
  }

  /** What a table should hold: exactly the keys that occur, each with a hit at its best rank. */
  ghost predicate BestOf(items: map<string, StageHit>, lists: seq<seq<StageHit>>, stage: string, w: real) {
    && (forall i: nat, r: nat, k :: Occurs(lists, k, i, r) ==> k in items && items[k].score >= StageScore(w, r))
    && (forall k :: k in items ==> Attained(lists, stage, w, k, items[k]))
  }

  ghost predicate Attained(lists: seq<seq<StageHit>>, stage: string, w: real, k: string, hit: StageHit) {
    exists i: nat, r: nat :: FirstWith(lists, w, k, i, r) && hit == Stamped(lists[i][r], stage, r, w)
  }

  /** The key occurs there, and every earlier time with a lower score. */
  ghost predicate FirstWith(lists: seq<seq<StageHit>>, w: real, k: string, i: nat, r: nat) {
    Occurs(lists, k, i, r)
    && forall j: nat, q: nat :: Occurs(lists, k, j, q) && (j < i || (j == i && q < r)) ==> StageScore(w, q) < StageScore(w, r)
  }

  /** The same, with only the first `n` hits of the last list read. */
  ghost predicate BestSoFar(items: map<string, StageHit>, lists: seq<seq<StageHit>>, n: nat, stage: string, w: real) {
    && (forall i: nat, r: nat, k :: Occurs(lists, k, i, r) && (i + 1 < |lists| || r < n) ==> k in items && items[k].score >= StageScore(w, r))
    && (forall k :: k in items ==> Attained(lists, stage, w, k, items[k]))
  }

  lemma KeyOfStamped(hit: StageHit, stage: string, rank: nat, w: real)
    ensures Key(Stamped(hit, stage, rank, w)) == Key(hit) && Stamped(hit, stage, rank, w).score == StageScore(w, rank)
  {
    hide TrimSpace;
  }

  lemma MergeKeepsBest(items: map<string, StageHit>, lists: seq<seq<StageHit>>, n: nat, stage: string, w: real)
    requires lists != [] && n < |lists[|lists| - 1]| && BestSoFar(items, lists, n, stage, w)
    ensures BestSoFar(Merged(items, Stamped(lists[|lists| - 1][n], stage, n, w)), lists, n + 1, stage, w)
  {
    var last := |lists| - 1;
    var hit := Stamped(lists[last][n], stage, n, w);
    KeyOfStamped(lists[last][n], stage, n, w);
    assert Occurs(lists, Key(hit), last, n);
    if Key(hit) !in items || hit.score > items[Key(hit)].score {
      BetterIsFirst(items, lists, n, stage, w, Key(hit));
      assert Attained(lists, stage, w, Key(hit), hit);
    }
    hide *;
    MergeOne(items, lists, n, stage, w, hit);
  }

  lemma BetterIsFirst(items: map<string, StageHit>, lists: seq<seq<StageHit>>, n: nat, stage: string, w: real, k: string)
    requires lists != [] && n < |lists[|lists| - 1]| && BestSoFar(items, lists, n, stage, w)
    requires Occurs(lists, k, |lists| - 1, n) && (k !in items || StageScore(w, n) > items[k].score)
    ensures FirstWith(lists, w, k, |lists| - 1, n)
  {
    hide Key, StageScore, Attained;
    forall j: nat, q: nat | Occurs(lists, k, j, q) && (j < |lists| - 1 || (j == |lists| - 1 && q < n))
      ensures StageScore(w, q) < StageScore(w, n)
    {
      assert k in items && items[k].score >= StageScore(w, q);
    }
  }

  lemma MergeOne(items: map<string, StageHit>, lists: seq<seq<StageHit>>, n: nat, stage: string, w: real, hit: StageHit)
    requires lists != [] && n < |lists[|lists| - 1]| && BestSoFar(items, lists, n, stage, w)
    requires Key(lists[|lists| - 1][n]) == Key(hit) && hit.score == StageScore(w, n)
    requires Key(hit) !in items || hit.score > items[Key(hit)].score ==> Attained(lists, stage, w, Key(hit), hit)
    ensures BestSoFar(Merged(items, hit), lists, n + 1, stage, w)
  {
    hide Key, Stamped, StageScore, Attained;
    var after := Merged(items, hit);
    forall i: nat, r: nat, k | Occurs(lists, k, i, r) && (i + 1 < |lists| || r < n + 1)
      ensures k in after && after[k].score >= StageScore(w, r)
    {
      if i + 1 < |lists| || r < n {
        assert k in items && items[k].score >= StageScore(w, r);
      } else {
        assert k == Key(hit);
      }
    }
  }

  lemma {:induction false} AccumulateKeepsBest(items: map<string, StageHit>, lists: seq<seq<StageHit>>, n: nat, stage: string, w: real)
    requires lists != [] && n <= |lists[|lists| - 1]| && BestSoFar(items, lists, 0, stage, w)
    ensures BestSoFar(Accumulated(items, lists[|lists| - 1], stage, w, n), lists, n, stage, w)
  {
    hide BestSoFar, Merged, Stamped;
    if n > 0 {
      AccumulateKeepsBest(items, lists, n - 1, stage, w);
      MergeKeepsBest(Accumulated(items, lists[|lists| - 1], stage, w, n - 1), lists, n - 1, stage, w);
    }
  }

  lemma NextList(items: map<string, StageHit>, lists: seq<seq<StageHit>>, stage: string, w: real)
    requires lists != [] && BestOf(items, lists[..|lists| - 1], stage, w)
    ensures BestSoFar(items, lists, 0, stage, w)
  {
    var init := lists[..|lists| - 1];
    forall i: nat, r: nat, k | Occurs(lists, k, i, r) && i + 1 < |lists|
      ensures Occurs(init, k, i, r)
    {
      hide Key, BestOf, Attained;
    }
    hide Occurs, Key, StageScore, Attained;
    forall k | k in items ensures Attained(lists, stage, w, k, items[k]) {
      AttainedLater(lists, stage, w, k, items[k]);
    }
  }

  lemma AttainedLater(lists: seq<seq<StageHit>>, stage: string, w: real, k: string, hit: StageHit)
    requires lists != [] && Attained(lists[..|lists| - 1], stage, w, k, hit)
    ensures Attained(lists, stage, w, k, hit)
  {
    var init := lists[..|lists| - 1];
    hide Key, Stamped, StageScore;
    var i: nat, r: nat :| FirstWith(init, w, k, i, r) && hit == Stamped(init[i][r], stage, r, w);
    forall j: nat, q: nat | j <= i && Occurs(lists, k, j, q) ensures Occurs(init, k, j, q) {
    }
    assert FirstWith(lists, w, k, i, r);
  }

  /** After any number of queries the table holds the best of all their lists. */
  lemma {:induction false} TableIsBest(lists: seq<seq<StageHit>>, stage: string, w: real)
    ensures BestOf(AccumulatedAll(lists, stage, w), lists, stage, w)
  {
    hide Accumulated, Attained, StageScore, BestSoFar;
    if lists != [] {
      var init, last := lists[..|lists| - 1], lists[|lists| - 1];
      TableIsBest(init, stage, w);
      hide BestOf, Occurs;
      NextList(AccumulatedAll(init, stage, w), lists, stage, w);
      AccumulateKeepsBest(AccumulatedAll(init, stage, w), lists, |last|, stage, w);
      AllRead(AccumulatedAll(lists, stage, w), lists, stage, w);
    }
  }

  lemma AllRead(items: map<string, StageHit>, lists: seq<seq<StageHit>>, stage: string, w: real)
    requires lists != [] && BestSoFar(items, lists, |lists[|lists| - 1]|, stage, w)
    ensures BestOf(items, lists, stage, w)
  {
    hide Key, Stamped, StageScore;
  }

  /** What a table holds under a key: a hit of one of the lists as it is, with its stage and the score of its rank. */
  lemma TableHitsAre(lists: seq<seq<StageHit>>, stage: string, w: real, k: string)
    requires k in AccumulatedAll(lists, stage, w)
    ensures exists i: nat, r: nat :: Occurs(lists, k, i, r) && IsRanked(AccumulatedAll(lists, stage, w)[k], lists[i][r], stage, r, w)
  {
    TableIsBest(lists, stage, w);
    var hit := AccumulatedAll(lists, stage, w)[k];
    assert Attained(lists, stage, w, k, hit);
    hide AccumulatedAll, Key, BestOf;
    var i: nat, r: nat :| FirstWith(lists, w, k, i, r) && hit == Stamped(lists[i][r], stage, r, w);
    RankScore(w, r);
    hide StageScore;
    assert Occurs(lists, k, i, r) && IsRanked(hit, lists[i][r], stage, r, w);
  }

  predicate IsRanked(hit: StageHit, h: StageHit, stage: string, r: nat, w: real) {
    hit == StageHit(h.chunkID, h.bookID, w / (r + 61) as real, stage, h.content, h.metadata, h.chunk)
  }

  lemma RankScore(w: real, r: nat)
    ensures StageScore(w, r) == w / (r + 61) as real
  {
  }

  /** The score a stage gives a key: its best over all lists, 0 if it occurs in none. */
  ghost predicate IsBestScore(lists: seq<seq<StageHit>>, w: real, k: string, s: real) {
    if exists i: nat, r: nat :: Occurs(lists, k, i, r) then
      && (exists i: nat, r: nat :: Occurs(lists, k, i, r) && s == StageScore(w, r))
      && (forall i: nat, r: nat :: Occurs(lists, k, i, r) ==> s >= StageScore(w, r))
    else s == 0.0
  }

  function Part(items: map<string, StageHit>, k: string): real { if k in items then items[k].score else 0.0 }

  /** A table of the best hits gives every key its best score. */
  lemma TableScores(items: map<string, StageHit>, lists: seq<seq<StageHit>>, stage: string, w: real, k: string)
    requires BestOf(items, lists, stage, w)
    ensures IsBestScore(lists, w, k, Part(items, k))
    ensures k in items <==> exists i: nat, r: nat :: Occurs(lists, k, i, r)
  {
    hide Key, StageScore;
    if k in items {
      assert Attained(lists, stage, w, k, items[k]);
    }
  }

  /** The queries' order does not matter to any score. */
  lemma BestScoreIsUnique(ls: seq<seq<StageHit>>, ms: seq<seq<StageHit>>, w: real, k: string, s: real, t: real)
    requires multiset(ls) == multiset(ms) && IsBestScore(ls, w, k, s) && IsBestScore(ms, w, k, t)
    ensures s == t
  {
    forall i: nat, r: nat | Occurs(ls, k, i, r) ensures exists j: nat :: Occurs(ms, k, j, r) {
      Elsewhere(ls, ms, k, i, r);
    }
    forall i: nat, r: nat | Occurs(ms, k, i, r) ensures exists j: nat :: Occurs(ls, k, j, r) {
      Elsewhere(ms, ls, k, i, r);
    }
    hide Occurs, StageScore;
  }

  lemma Elsewhere(ls: seq<seq<StageHit>>, ms: seq<seq<StageHit>>, k: string, i: nat, r: nat)
    requires multiset(ls) == multiset(ms) && Occurs(ls, k, i, r)
    ensures exists j: nat :: Occurs(ms, k, j, r)
  {
    hide Key;
    assert ls[i] in multiset(ms);
    var j :| 0 <= j < |ms| && ms[j] == ls[i];
    assert Occurs(ms, k, j, r);
  }

  // ------------------------------------------------------------------------------- fusion

  /** A base entry stays unless it is blank and the extra map has one. */
  function WithExtra(metadata: map<string, string>, extra: map<string, string>): map<string, string> {
    map k | k in metadata.Keys + extra.Keys :: MergedEntry(metadata, extra, k)
  }

  function MergedEntry(metadata: map<string, string>, extra: map<string, string>, k: string): string {
    if k in extra && TrimSpace(Entry(metadata, k)) == "" then extra[k] else Entry(metadata, k)
  }

  method MergeMetadata(metadata: map<string, string>, extra: map<string, string>) returns (out: map<string, string>)
    ensures out == WithExtra(metadata, extra)
  {
    if |metadata| == 0 && |extra| == 0 {
      return map[];
    }
    out := metadata;
    var left := extra.Keys;
    ExtraEnds(metadata, extra);
    hide *;
    while left != {}
      invariant left <= extra.Keys && out == ExtraSoFar(metadata, extra, left)
      decreases left
    {
      var k :| k in left;
      ExtraOne(metadata, extra, left, k);
      left := left - {k};
      if TrimSpace(Entry(out, k)) == "" {
        out := out[k := extra[k]];
      }
    }
  }

  /** The entries merged so far, when the extra keys `left` are still to come. */
  function ExtraSoFar(metadata: map<string, string>, extra: map<string, string>, left: set<string>): map<string, string> {
    map k | k in metadata.Keys + (extra.Keys - left) :: if k in left then Entry(metadata, k) else MergedEntry(metadata, extra, k)
  }

  lemma ExtraEnds(metadata: map<string, string>, extra: map<string, string>)
    ensures ExtraSoFar(metadata, extra, extra.Keys) == metadata
    ensures ExtraSoFar(metadata, extra, {}) == WithExtra(metadata, extra)
    ensures metadata == map[] == extra ==> WithExtra(metadata, extra) == map[]
  {
    hide TrimSpace;
  }

  lemma ExtraOne(metadata: map<string, string>, extra: map<string, string>, left: set<string>, k: string)
    requires k in left && left <= extra.Keys
    ensures var out := ExtraSoFar(metadata, extra, left);
      ExtraSoFar(metadata, extra, left - {k}) == if TrimSpace(Entry(out, k)) == "" then out[k := extra[k]] else out
  {
    var out, after := ExtraSoFar(metadata, extra, left), ExtraSoFar(metadata, extra, left - {k});
    NextEntry(metadata, extra, k);
    assert Entry(out, k) == Entry(metadata, k);
    hide MergedEntry, TrimSpace;
    ExtraAfter(metadata, extra, left, k);
    hide ExtraSoFar;
    if TrimSpace(Entry(metadata, k)) != "" {
      assert out[k := Entry(metadata, k)] == out;
    }
  }

  lemma ExtraAfter(metadata: map<string, string>, extra: map<string, string>, left: set<string>, k: string)
    requires k in left && left <= extra.Keys
    ensures ExtraSoFar(metadata, extra, left - {k}) == ExtraSoFar(metadata, extra, left)[k := MergedEntry(metadata, extra, k)]
    ensures k in ExtraSoFar(metadata, extra, left) <==> k in metadata
  {
    hide MergedEntry, Entry;
    var out, after := ExtraSoFar(metadata, extra, left), ExtraSoFar(metadata, extra, left - {k});
    assert after.Keys == out.Keys + {k};
    forall x | x in after ensures after[x] == out[k := MergedEntry(metadata, extra, k)][x] {
    }
  }

  lemma NextEntry(metadata: map<string, string>, extra: map<string, string>, k: string)
    requires k in extra
    ensures MergedEntry(metadata, extra, k) == if TrimSpace(Entry(metadata, k)) == "" then extra[k] else Entry(metadata, k)
    ensures TrimSpace(Entry(metadata, k)) != "" ==> k in metadata
  {
    assert TrimSpace("") == "";
    hide TrimSpace;
  }

  /** A hit found by both stages: the dense one, its gaps filled from the lexical one, scores added. */
  function Joined(dense: StageHit, lexical: StageHit): StageHit {
    dense.(chunkID := if dense.chunkID == "" then lexical.chunkID else dense.chunkID,
      bookID := if dense.bookID == "" then lexical.bookID else dense.bookID,
      content := if TrimSpace(dense.content) == "" then lexical.content else dense.content,
      metadata := WithExtra(dense.metadata, lexical.metadata),
      score := dense.score + lexical.score,
      stage := "fusion")
  }

  function FusedHit(dense: map<string, StageHit>, lexical: map<string, StageHit>, k: string): StageHit
    requires k in dense || k in lexical
  {
    if k !in lexical then dense[k].(stage := "fusion")
    else if k !in dense then lexical[k].(stage := "fusion")
    else Joined(dense[k], lexical[k])
  }

  function Fused(dense: map<string, StageHit>, lexical: map<string, StageHit>): map<string, StageHit> {
    map k | k in dense.Keys + lexical.Keys :: FusedHit(dense, lexical, k)
  }

  /** Both maps are iterated in an unspecified order. */
  method FuseStageHits(dense: map<string, StageHit>, lexical: map<string, StageHit>, topK: int)
    returns (out: seq<StageHit>)
    ensures IsOrderedTop(Fused(dense, lexical), topK, out)
  {
    var items: map<string, StageHit> := map[];
    var left := dense.Keys;
    hide TrimSpace, WithExtra;
    while left != {}
      invariant left <= dense.Keys && items == CopiedSoFar(dense, left)
      decreases left
    {
      var id :| id in left;
      CopyOne(dense, left, id);
      left := left - {id};
      items := items[id := dense[id].(stage := "fusion")];
    }
    CopiedAll(dense, lexical);
    left := lexical.Keys;
    while left != {}
      invariant left <= lexical.Keys && items == FusedSoFar(dense, lexical, left)
      decreases left
    {
      var id :| id in left;
      FuseOne(dense, lexical, left, id);
      left := left - {id};
      var hit := lexical[id];
      if id !in items {
        items := items[id := hit.(stage := "fusion")];
        continue;
      }
      var current := items[id];
      if current.chunkID == "" {
        current := current.(chunkID := hit.chunkID);
      }
      if current.bookID == "" {
        current := current.(bookID := hit.bookID);
      }
      if TrimSpace(current.content) == "" {
        current := current.(content := hit.content);
      }
      var metadata := MergeMetadata(current.metadata, hit.metadata);
      current := current.(metadata := metadata, score := current.score + hit.score);
      items := items[id := current];
    }
    FusedAll(dense, lexical);
    out := OrderedStageHits(items, topK);
  }

  function CopiedSoFar(dense: map<string, StageHit>, left: set<string>): map<string, StageHit> {
    map k | k in dense.Keys - left :: dense[k].(stage := "fusion")
  }

  lemma CopyOne(dense: map<string, StageHit>, left: set<string>, id: string)
    requires id in left && left <= dense.Keys
    ensures CopiedSoFar(dense, left - {id}) == CopiedSoFar(dense, left)[id := dense[id].(stage := "fusion")]
  {
  }

  lemma CopiedAll(dense: map<string, StageHit>, lexical: map<string, StageHit>)
    ensures CopiedSoFar(dense, {}) == FusedSoFar(dense, lexical, lexical.Keys)
  {
  }

  /** Dense hits alone under the keys still `left`, fused hits under the others. */
  function FusedSoFar(dense: map<string, StageHit>, lexical: map<string, StageHit>, left: set<string>): map<string, StageHit> {
    map k | k in dense.Keys + (lexical.Keys - left) ::
      if k in left && k in dense then dense[k].(stage := "fusion") else FusedHit(dense, lexical, k)
  }

  lemma FuseOne(dense: map<string, StageHit>, lexical: map<string, StageHit>, left: set<string>, id: string)
    requires id in left && left <= lexical.Keys
    ensures FusedSoFar(dense, lexical, left - {id}) == FusedSoFar(dense, lexical, left)[id := FusedHit(dense, lexical, id)]
    ensures id in FusedSoFar(dense, lexical, left) <==> id in dense
    ensures id in dense ==> FusedSoFar(dense, lexical, left)[id] == dense[id].(stage := "fusion")
  {
    hide Joined;
  }

  lemma FusedAll(dense: map<string, StageHit>, lexical: map<string, StageHit>)
    ensures FusedSoFar(dense, lexical, {}) == Fused(dense, lexical)
  {
    hide Joined;
  }

  // ------------------------------------------------------------------ what fusion promises

  lemma FusedParts(dense: map<string, StageHit>, lexical: map<string, StageHit>, k: string)
    ensures k in Fused(dense, lexical) <==> k in dense || k in lexical
    ensures Part(Fused(dense, lexical), k) == Part(dense, k) + Part(lexical, k)
  {
    hide WithExtra, TrimSpace;
  }

  /** The fused keys are those found by either stage, and each fused score is the best dense score plus
      the best lexical one over all queries. */
  lemma FusedScores(denseLists: seq<seq<StageHit>>, lexicalLists: seq<seq<StageHit>>, dw: real, lw: real, k: string)
    ensures var fused := Fused(AccumulatedAll(denseLists, "dense", dw), AccumulatedAll(lexicalLists, "lexical", lw));
      && (k in fused <==> (exists i: nat, r: nat :: Occurs(denseLists, k, i, r)) || (exists i: nat, r: nat :: Occurs(lexicalLists, k, i, r)))
      && forall s, t :: IsBestScore(denseLists, dw, k, s) && IsBestScore(lexicalLists, lw, k, t) ==> Part(fused, k) == s + t
  {
    var d, l := AccumulatedAll(denseLists, "dense", dw), AccumulatedAll(lexicalLists, "lexical", lw);
    TableIsBest(denseLists, "dense", dw);
    TableIsBest(lexicalLists, "lexical", lw);
    hide *;
    TableScores(d, denseLists, "dense", dw, k);
    TableScores(l, lexicalLists, "lexical", lw, k);
    FusedParts(d, l, k);
    forall s, t | IsBestScore(denseLists, dw, k, s) && IsBestScore(lexicalLists, lw, k, t)
      ensures Part(Fused(d, l), k) == s + t
    {
      BestScoreIsUnique(denseLists, denseLists, dw, k, s, Part(d, k));
      BestScoreIsUnique(lexicalLists, lexicalLists, lw, k, t, Part(l, k));
    }
  }

  function Family(h: StageHit): string { TrimSpace(Entry(h.metadata, "chunk_family")) }

  /** Joining two hits filed under one key gives a hit that belongs under that key. */
  lemma JoinedKey(dense: StageHit, lexical: StageHit)
    requires Key(dense) == Key(lexical)
    ensures Key(Joined(dense, lexical)) == Key(dense)
  {
    assert TrimSpace("") == "";
    hide TrimSpace;
  }

  lemma TableKeys(items: map<string, StageHit>, lists: seq<seq<StageHit>>, stage: string, w: real, k: string)
    requires BestOf(items, lists, stage, w) && k in items
    ensures Key(items[k]) == k
  {
    hide StageScore, Key, Stamped;
    assert Attained(lists, stage, w, k, items[k]);
    var i: nat, r: nat :| FirstWith(lists, w, k, i, r) && items[k] == Stamped(lists[i][r], stage, r, w);
    KeyOfStamped(lists[i][r], stage, r, w);
  }

  lemma FusedKey(dense: map<string, StageHit>, lexical: map<string, StageHit>, k: string)
    requires k in dense || k in lexical
    requires (k in dense ==> Key(dense[k]) == k) && (k in lexical ==> Key(lexical[k]) == k)
    ensures Key(FusedHit(dense, lexical, k)) == k
  {
    if k in dense && k in lexical {
      JoinedKey(dense[k], lexical[k]);
      hide Joined, Key;
    } else {
      hide TrimSpace;
    }
  }

  /** The fused hits are different chunks: no two are of one chunk family, and no two without a family have the same
      chunk id, or, without that, the same loaded chunk. */
  lemma OneHitPerChunk(denseLists: seq<seq<StageHit>>, lexicalLists: seq<seq<StageHit>>, dw: real, lw: real, k: string, l: string)
    requires var fused := Fused(AccumulatedAll(denseLists, "dense", dw), AccumulatedAll(lexicalLists, "lexical", lw));
      && k in fused && l in fused && k != l
    ensures var fused := Fused(AccumulatedAll(denseLists, "dense", dw), AccumulatedAll(lexicalLists, "lexical", lw));
      var (a, b) := (fused[k], fused[l]);
      && (Family(a) != "" ==> Family(b) != Family(a))
      && (Family(a) == "" == Family(b) && TrimSpace(a.chunkID) != "" ==> TrimSpace(b.chunkID) != TrimSpace(a.chunkID))
      && (Family(a) == "" == Family(b) && TrimSpace(a.chunkID) == "" == TrimSpace(b.chunkID) ==>
            TrimSpace(b.chunk.id) != TrimSpace(a.chunk.id))
  {
    var d, x := AccumulatedAll(denseLists, "dense", dw), AccumulatedAll(lexicalLists, "lexical", lw);
    TableIsBest(denseLists, "dense", dw);
    TableIsBest(lexicalLists, "lexical", lw);
    var fused := Fused(d, x);
    forall m | m in fused ensures Key(fused[m]) == m {
      hide AccumulatedAll, BestOf, Key, FusedHit;
      if m in d {
        TableKeys(d, denseLists, "dense", dw, m);
      }
      if m in x {
        TableKeys(x, lexicalLists, "lexical", lw, m);
      }
      FusedKey(d, x, m);
    }
    hide AccumulatedAll, BestOf, FusedHit, Fused, TrimSpace;
    assert Key(fused[k]) != Key(fused[l]);
  }

  /** What a fused hit is made of: a hit of one stage as it is; of a hit of both the dense fields, and the lexical
      ones where those are empty. */
  lemma FusedFields(dense: map<string, StageHit>, lexical: map<string, StageHit>, k: string)
    requires k in dense || k in lexical
    ensures var h := Fused(dense, lexical)[k];
      && h.stage == "fusion"
      && (k !in lexical ==> h == dense[k].(stage := "fusion"))
      && (k !in dense ==> h == lexical[k].(stage := "fusion"))
      && (k in dense && k in lexical ==>
            var (d, l) := (dense[k], lexical[k]);
            && h.chunk == d.chunk && h.score == d.score + l.score
            && (if d.chunkID != "" then h.chunkID == d.chunkID else h.chunkID == l.chunkID)
            && (if d.bookID != "" then h.bookID == d.bookID else h.bookID == l.bookID)
            && (if TrimSpace(d.content) != "" then h.content == d.content else h.content == l.content)
            && forall e :: TrimSpace(Entry(d.metadata, e)) != "" ==> Entry(h.metadata, e) == Entry(d.metadata, e))
  {
    hide TrimSpace;
    if k in dense && k in lexical {
      MetadataKept(dense[k].metadata, lexical[k].metadata);
      hide WithExtra;
    }
  }

  /** Merging metadata keeps every entry of the first map that says something and loses no key of either; and it does
      not matter how three maps are merged, as long as their order stays. */
  lemma MetadataKept(m: map<string, string>, e: map<string, string>)
    ensures WithExtra(m, e).Keys == m.Keys + e.Keys
    ensures forall k :: TrimSpace(Entry(m, k)) != "" ==> Entry(WithExtra(m, e), k) == Entry(m, k)
    ensures forall k :: TrimSpace(Entry(m, k)) == "" && k in e ==> Entry(WithExtra(m, e), k) == e[k]
  {
    assert TrimSpace("") == "";
    hide TrimSpace;
  }

  lemma EntryOf(m: map<string, string>, e: map<string, string>, k: string)
    ensures k in WithExtra(m, e) <==> k in m || k in e
    ensures Entry(WithExtra(m, e), k) == MergedEntry(m, e, k)
  {
    hide TrimSpace;
  }

  lemma EntryAssociates(m: map<string, string>, e: map<string, string>, f: map<string, string>, k: string)
    ensures Entry(WithExtra(WithExtra(m, e), f), k) == Entry(WithExtra(m, WithExtra(e, f)), k)
  {
    assert TrimSpace("") == "";
    EntryOf(WithExtra(m, e), f, k);
    EntryOf(m, e, k);
    EntryOf(m, WithExtra(e, f), k);
    EntryOf(e, f, k);
    hide TrimSpace, WithExtra;
  }

  lemma MetadataAssociates(m: map<string, string>, e: map<string, string>, f: map<string, string>)
    ensures WithExtra(WithExtra(m, e), f) == WithExtra(m, WithExtra(e, f))
  {
    var left, right := WithExtra(WithExtra(m, e), f), WithExtra(m, WithExtra(e, f));
    assert left.Keys == right.Keys;
    hide WithExtra;
    forall k | k in left ensures left[k] == right[k] {
      EntryAssociates(m, e, f, k);
    }
  }

  /** Reordering the queries changes no fused score. */
  lemma QueryOrderIsIrrelevant(ds: seq<seq<StageHit>>, ls: seq<seq<StageHit>>, ds': seq<seq<StageHit>>, ls': seq<seq<StageHit>>,
                               dw: real, lw: real, k: string)
    requires multiset(ds) == multiset(ds') && multiset(ls) == multiset(ls')
    ensures
      var fused, fused' := Fused(AccumulatedAll(ds, "dense", dw), AccumulatedAll(ls, "lexical", lw)),
        Fused(AccumulatedAll(ds', "dense", dw), AccumulatedAll(ls', "lexical", lw));
      (k in fused <==> k in fused') && Part(fused, k) == Part(fused', k)
  {
    hide *;
    SameBest(ds, ds', "dense", dw, k);
    SameBest(ls, ls', "lexical", lw, k);
    FusedParts(AccumulatedAll(ds, "dense", dw), AccumulatedAll(ls, "lexical", lw), k);
    FusedParts(AccumulatedAll(ds', "dense", dw), AccumulatedAll(ls', "lexical", lw), k);
  }

  lemma SameBest(ls: seq<seq<StageHit>>, ms: seq<seq<StageHit>>, stage: string, w: real, k: string)
    requires multiset(ls) == multiset(ms)
    ensures var a, b := AccumulatedAll(ls, stage, w), AccumulatedAll(ms, stage, w);
      (k in a <==> k in b) && Part(a, k) == Part(b, k)
  {
    TableIsBest(ls, stage, w);
    TableIsBest(ms, stage, w);
    hide *;
    var a, b := AccumulatedAll(ls, stage, w), AccumulatedAll(ms, stage, w);
    TableScores(a, ls, stage, w, k);
    TableScores(b, ms, stage, w, k);
    BestScoreIsUnique(ls, ms, w, k, Part(a, k), Part(b, k));
    forall i: nat, r: nat | Occurs(ls, k, i, r) ensures exists j: nat :: Occurs(ms, k, j, r) {
      Elsewhere(ls, ms, k, i, r);
    }
    forall i: nat, r: nat | Occurs(ms, k, i, r) ensures exists j: nat :: Occurs(ls, k, j, r) {
      Elsewhere(ms, ls, k, i, r);
    }
  }

  /** A stage contributes at most its weight over 61, and that exactly when it has no weight or ranks
      the hit first in some query. */
  lemma PartIsBounded(lists: seq<seq<StageHit>>, w: real, k: string, s: real)
    requires w >= 0.0 && IsBestScore(lists, w, k, s)
    ensures 0.0 <= s <= w / 61.0
    ensures s == w / 61.0 <==> w == 0.0 || exists i: nat :: Occurs(lists, k, i, 0)
  {
    FirstScore(w);
    hide Key;
    if i: nat, r: nat :| Occurs(lists, k, i, r) && s == StageScore(w, r) {
      ScoresFall(w, 0, r);
      ScoreIsPositive(w, r);
      hide Occurs, StageScore;
      if r > 0 && w > 0.0 {
        FallsStrictly(w, r);
      }
    } else {
      hide StageScore;
      assert !exists i: nat, r: nat :: Occurs(lists, k, i, r);
      forall i: nat ensures !Occurs(lists, k, i, 0) {
      }
    }
  }

  lemma FirstScore(w: real)
    ensures StageScore(w, 0) == w / 61.0 && (w > 0.0 ==> w / 61.0 > 0.0)
  {
  }

  lemma ScoreIsPositive(w: real, r: nat)
    requires w >= 0.0
    ensures StageScore(w, r) >= 0.0 && (w == 0.0 ==> StageScore(w, r) == 0.0)
  {
  }

  lemma FallsStrictly(w: real, r: nat)
    requires w > 0.0 && r > 0
    ensures StageScore(w, r) < StageScore(w, 0)
  {
    var k := (0 + 61) as real * (r + 61) as real;
    assert k > 0.0 && w * (r - 0) as real > 0.0;
    GapTimesRanks(w, 0, r);
    hide StageScore;
    Scale(0.0, StageScore(w, 0) - StageScore(w, r), k);
  }

  /** No fused score exceeds 1/61, and only a hit that every weighted stage ranks first reaches it. */
  lemma FusedScoreIsBounded(denseLists: seq<seq<StageHit>>, lexicalLists: seq<seq<StageHit>>, dense: real, lexical: real, k: string)
    ensures var w := NormalizedFusionWeights(dense, lexical);
      var score := Part(Fused(AccumulatedAll(denseLists, "dense", w.0), AccumulatedAll(lexicalLists, "lexical", w.1)), k);
      && 0.0 <= score <= 1.0 / 61.0
      && (score == 1.0 / 61.0 <==>
        && (w.0 == 0.0 || exists i: nat :: Occurs(denseLists, k, i, 0))
        && (w.1 == 0.0 || exists i: nat :: Occurs(lexicalLists, k, i, 0)))
  {
    var w := NormalizedFusionWeights(dense, lexical);
    hide *;
    var d, l := AccumulatedAll(denseLists, "dense", w.0), AccumulatedAll(lexicalLists, "lexical", w.1);
    TableIsBest(denseLists, "dense", w.0);
    TableIsBest(lexicalLists, "lexical", w.1);
    TableScores(d, denseLists, "dense", w.0, k);
    TableScores(l, lexicalLists, "lexical", w.1, k);
    FusedParts(d, l, k);
    PartIsBounded(denseLists, w.0, k, Part(d, k));
    PartIsBounded(lexicalLists, w.1, k, Part(l, k));
    assert w.0 / 61.0 + w.1 / 61.0 == 1.0 / 61.0;
  }

  /** A stage's own output: with a separable weight and distinct chunk ids it does not depend on map
      iteration, and it is the best `topK` of all its hits. */
  lemma StageOutput(lists: seq<seq<StageHit>>, stage: string, w: real, ranks: nat, topK: int, ks: seq<string>, ls: seq<string>)
    requires w >= 0.0 && Separable(w, ranks) && forall i :: 0 <= i < |lists| ==> |lists[i]| <= ranks
    requires Iteration(AccumulatedAll(lists, stage, w), ks) && Iteration(AccumulatedAll(lists, stage, w), ls)
    requires DistinctIDs(ValuesIn(AccumulatedAll(lists, stage, w), ks))
    ensures var items := AccumulatedAll(lists, stage, w);
      var out := Top(Sort(ValuesIn(items, ls)), topK);
      && Top(Sort(ValuesIn(items, ks)), topK) == out
      && |out| == (if 0 < topK < |items| then topK else |items|)
      && forall a, b :: a in out && b in items.Values && b !in out ==> Before(a, b)
  {
    var items := AccumulatedAll(lists, stage, w);
    TableIsBest(lists, stage, w);
    var hits := ValuesIn(items, ks);
    forall h | h in hits ensures exists r: nat :: r < ranks && h.score == StageScore(w, r) {
      var i :| 0 <= i < |ks| && hits[i] == h;
      hide Key, StageScore, Accumulated, Stamped, Separable, Sort, Before, DistinctIDs;
      RankOf(items, lists, stage, w, ks[i], ranks);
    }
    assert FromStage(hits, w, ranks);
    hide *;
    StageTopIsBest(items, ks, ls, topK, w, ranks);
  }

  lemma RankOf(items: map<string, StageHit>, lists: seq<seq<StageHit>>, stage: string, w: real, k: string, ranks: nat)
    requires BestOf(items, lists, stage, w) && k in items && forall i :: 0 <= i < |lists| ==> |lists[i]| <= ranks
    ensures exists r: nat :: r < ranks && items[k].score == StageScore(w, r)
  {
    assert Attained(lists, stage, w, k, items[k]);
    hide Key, StageScore;
    var i: nat, r: nat :| Occurs(lists, k, i, r) && items[k] == Stamped(lists[i][r], stage, r, w);
  }

  /** The fused output is determined by the two tables, whatever the iterations, when closeness is
      transitive on the fused scores and the chunk ids differ; and it is then the best `topK`. */
  lemma FusedIsDetermined(dense: map<string, StageHit>, lexical: map<string, StageHit>, topK: int, ks: seq<string>,
                          scores: seq<real>, out: seq<StageHit>)
    requires Iteration(Fused(dense, lexical), ks) && IsOrderedTop(Fused(dense, lexical), topK, out)
    requires DistinctIDs(ValuesIn(Fused(dense, lexical), ks)) && HasScores(ValuesIn(Fused(dense, lexical), ks), scores)
    requires ScoresSettled(scores)
    ensures out == Top(Sort(ValuesIn(Fused(dense, lexical), ks)), topK)
    ensures forall a, b :: a in out && b in ValuesIn(Fused(dense, lexical), ks) && b !in out ==> Before(a, b)
  {
    var items := Fused(dense, lexical);
    var ls :| Iteration(items, ls) && out == Top(Sort(ValuesIn(items, ls)), topK);
    var hits := ValuesIn(items, ks);
    SettledMapIsDetermined(items, ks, ls, scores, topK);
    SortBag(hits);
    forall h | h in hits ensures h in Sort(hits) {
      assert h in multiset(Sort(hits));
    }
    hide *;
    KeptBeforeCut(Sort(hits), topK);
  }

  /** Exactly: the two tables determine the fused output at every length if and only if the comparison
      orders the fused hits, given that their chunk ids differ. */
  lemma FusedIsDeterminedIff(dense: map<string, StageHit>, lexical: map<string, StageHit>, ks: seq<string>)
    requires Iteration(Fused(dense, lexical), ks) && DistinctIDs(ValuesIn(Fused(dense, lexical), ks))
    ensures (forall topK, out, other :: IsOrderedTop(Fused(dense, lexical), topK, out) && IsOrderedTop(Fused(dense, lexical), topK, other)
               ==> out == other)
       <==> OrdersAll(ValuesIn(Fused(dense, lexical), ks))
  {
    var items := Fused(dense, lexical);
    hide Fused, OrdersAll, DistinctIDs, Sort;
    DeterminedIff(items, ks);
    if OrdersAll(ValuesIn(items, ks)) {
      forall topK, out, other | IsOrderedTop(items, topK, out) && IsOrderedTop(items, topK, other) ensures out == other {
        var ls :| Iteration(items, ls) && out == Top(Sort(ValuesIn(items, ls)), topK);
        var ms :| Iteration(items, ms) && other == Top(Sort(ValuesIn(items, ms)), topK);
        hide Iteration, ValuesIn;
      }
    } else {
      var ls :| Iteration(items, ls) && Sort(ValuesIn(items, ls)) != Sort(ValuesIn(items, ks));
      Uncut(items, ks);
      Uncut(items, ls);
    }
  }

  lemma Uncut(items: map<string, StageHit>, ks: seq<string>)
    requires Iteration(items, ks)
    ensures IsOrderedTop(items, 0, Sort(ValuesIn(items, ks)))
  {
    assert Top(Sort(ValuesIn(items, ks)), 0) == Sort(ValuesIn(items, ks));
  }
}
