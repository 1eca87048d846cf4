/**
 Greedy packing of ranked hits into a context budget: the pipeline's packer, which skips what does
 not fit, and the evaluator's packer, which stops there.
 */
module ContextPacking {
  import opened StageHits

  // -------------------------------------------------------------------- the pipeline's packer

  function Limit(topK: int): nat { if topK <= 0 then 4 else topK }

  function Budget(budget: int): nat { if budget <= 0 then 2200 else budget }

  /** How many, and how much text, of the first `n` hits a choice keeps. */
  function Count(keep: seq<bool>, n: nat): nat
    requires n <= |keep|
  {
    if n == 0 then 0 else Count(keep, n - 1) + if keep[n - 1] then 1 else 0
  }

  function Used(hits: seq<StageHit>, keep: seq<bool>, n: nat): nat
    requires n <= |keep| <= |hits|
  {
    if n == 0 then 0 else Used(hits, keep, n - 1) + if keep[n - 1] then |Text(hits[n - 1])| else 0
  }

  function Chosen(hits: seq<StageHit>, keep: seq<bool>, n: nat): seq<StageHit>
    requires n <= |keep| <= |hits|
  {
    if n == 0 then [] else Chosen(hits, keep, n - 1) + if keep[n - 1] then [hits[n - 1]] else []
  }

  /** No earlier hit, kept or not, has the same content hash. */
  predicate FirstOfHash(hits: seq<StageHit>, i: nat)
    requires i < |hits|
  {
    Hash(hits[i]) == "" || forall j :: 0 <= j < i ==> Hash(hits[j]) != Hash(hits[i])
  }

  predicate Fits(hits: seq<StageHit>, keep: seq<bool>, i: nat, budget: nat)
    requires i < |keep| <= |hits|
  {
    Count(keep, i) == 0 || Used(hits, keep, i) + |Text(hits[i])| <= budget
  }

  predicate Wanted(hits: seq<StageHit>, keep: seq<bool>, i: nat, limit: nat, budget: nat)
    requires i < |keep| <= |hits|
  {
    Count(keep, i) < limit && FirstOfHash(hits, i) && Text(hits[i]) != "" && Fits(hits, keep, i, budget)
  }

  /** First fit, hit by hit, up to hit `n`. */
  predicate Greedy(hits: seq<StageHit>, keep: seq<bool>, n: nat, limit: nat, budget: nat)
    requires n <= |keep| <= |hits|
  {
    forall i :: 0 <= i < n ==> (keep[i] <==> Wanted(hits, keep, i, limit, budget))
  }

  /** Choices that agree on the first `n` hits agree on their totals. */
  lemma {:induction false} SamePrefix(hits: seq<StageHit>, a: seq<bool>, b: seq<bool>, n: nat)
    requires n <= |a| <= |hits| && n <= |b| <= |hits|
    requires forall j :: 0 <= j < n ==> a[j] == b[j]
    ensures Count(a, n) == Count(b, n) && Used(hits, a, n) == Used(hits, b, n) && Chosen(hits, a, n) == Chosen(hits, b, n)
  {
    hide Text;
    if n > 0 {
      SamePrefix(hits, a, b, n - 1);
    }
  }

  lemma SameWish(hits: seq<StageHit>, a: seq<bool>, b: seq<bool>, i: nat, limit: nat, budget: nat)
    requires i < |a| <= |hits| && i < |b| <= |hits|
    requires forall j :: 0 <= j < i ==> a[j] == b[j]
    ensures Wanted(hits, a, i, limit, budget) == Wanted(hits, b, i, limit, budget)
  {
    SamePrefix(hits, a, b, i);
    hide Text, FirstOfHash, Count, Used;
  }

  /** There is exactly one first-fit choice. */
  lemma {:induction false} GreedyIsUnique(hits: seq<StageHit>, a: seq<bool>, b: seq<bool>, n: nat, limit: nat, budget: nat)
    requires n <= |a| <= |hits| && n <= |b| <= |hits|
    requires Greedy(hits, a, n, limit, budget) && Greedy(hits, b, n, limit, budget)
    ensures a[..n] == b[..n]
  {
    hide Wanted;
    if n > 0 {
      GreedyIsUnique(hits, a, b, n - 1, limit, budget);
      forall j | 0 <= j < n - 1 ensures a[j] == b[j] {
        assert a[..n - 1][j] == b[..n - 1][j];
      }
      SameWish(hits, a, b, n - 1, limit, budget);
      assert a[n - 1] == b[n - 1];
    }
  }

  /** Deciding one more hit leaves the earlier decisions as they were. */
  lemma GreedyStep(hits: seq<StageHit>, keep: seq<bool>, more: bool, limit: nat, budget: nat)
    requires |keep| < |hits| && Greedy(hits, keep, |keep|, limit, budget)
    requires more <==> Wanted(hits, keep + [more], |keep|, limit, budget)
    ensures Greedy(hits, keep + [more], |keep| + 1, limit, budget)
  {
    forall i | 0 <= i <= |keep| ensures (keep + [more])[i] <==> Wanted(hits, keep + [more], i, limit, budget) {
      if i < |keep| {
        SameWish(hits, keep, keep + [more], i, limit, budget);
      }
    }
  }

  /** The fields of the next decision, in terms of the totals so far. */
  lemma NextWish(hits: seq<StageHit>, keep: seq<bool>, more: bool, limit: nat, budget: nat)
    requires |keep| < |hits|
    ensures Wanted(hits, keep + [more], |keep|, limit, budget) <==>
      (Count(keep, |keep|) < limit && FirstOfHash(hits, |keep|) && Text(hits[|keep|]) != ""
        && (Count(keep, |keep|) == 0 || Used(hits, keep, |keep|) + |Text(hits[|keep|])| <= budget))
  {
    SamePrefix(hits, keep, keep + [more], |keep|);
    hide Text, FirstOfHash, Count, Used;
  }

  lemma NextTotals(hits: seq<StageHit>, keep: seq<bool>, more: bool)
    requires |keep| < |hits|
    ensures Count(keep + [more], |keep| + 1) == Count(keep, |keep|) + if more then 1 else 0
    ensures Used(hits, keep + [more], |keep| + 1) == Used(hits, keep, |keep|) + if more then |Text(hits[|keep|])| else 0
    ensures Chosen(hits, keep + [more], |keep| + 1) == Chosen(hits, keep, |keep|) + if more then [hits[|keep|]] else []
  {
    SamePrefix(hits, keep, keep + [more], |keep|);
    hide Text;
  }

  /** Once `limit` hits are kept, nothing more is wanted. */
  lemma {:induction false} Full(hits: seq<StageHit>, keep: seq<bool>, limit: nat, budget: nat) returns (padded: seq<bool>)
    requires |keep| <= |hits| && Greedy(hits, keep, |keep|, limit, budget) && Count(keep, |keep|) == limit
    ensures |padded| == |hits| && Greedy(hits, padded, |hits|, limit, budget)
    ensures Chosen(hits, padded, |hits|) == Chosen(hits, keep, |keep|)
    decreases |hits| - |keep|
  {
    hide Greedy, Wanted, Text;
    if |keep| == |hits| {
      padded := keep;
    } else {
      NextWish(hits, keep, false, limit, budget);
      GreedyStep(hits, keep, false, limit, budget);
      NextTotals(hits, keep, false);
      hide Chosen, Count;
      padded := Full(hits, keep + [false], limit, budget);
    }
  }

  predicate SeenHashes(hits: seq<StageHit>, n: nat, seen: set<string>)
    requires n <= |hits|
  {
    && "" !in seen
    && (forall j :: 0 <= j < n && Hash(hits[j]) != "" ==> Hash(hits[j]) in seen)
    && (forall s :: s in seen ==> exists j :: 0 <= j < n && Hash(hits[j]) == s)
  }

  lemma OneMoreSeen(hits: seq<StageHit>, n: nat, seen: set<string>)
    requires n < |hits| && SeenHashes(hits, n, seen)
    ensures "" !in seen && (FirstOfHash(hits, n) <==> Hash(hits[n]) !in seen)
    ensures SeenHashes(hits, n + 1, if Hash(hits[n]) == "" then seen else seen + {Hash(hits[n])})
  {
    hide Hash;
    var after := if Hash(hits[n]) == "" then seen else seen + {Hash(hits[n])};
    forall s | s in after ensures exists j :: 0 <= j < n + 1 && Hash(hits[j]) == s {
      if s in seen {
        var j :| 0 <= j < n && Hash(hits[j]) == s;
      } else {
        assert Hash(hits[n]) == s;
      }
    }
  }

  /** `keep` is the first-fit choice among all hits. */
  predicate IsFirstFit(hits: seq<StageHit>, keep: seq<bool>, limit: nat, budget: nat) {
    |keep| == |hits| && Greedy(hits, keep, |hits|, limit, budget)
  }

  /** `out` is what that choice keeps. */
  ghost predicate FirstFit(hits: seq<StageHit>, topK: int, budget: int, out: seq<StageHit>) {
    exists keep :: IsFirstFit(hits, keep, Limit(topK), Budget(budget)) && out == Chosen(hits, keep, |hits|)
  }

  method PackStageHits(hits: seq<StageHit>, topK: int, budget: int) returns (out: seq<StageHit>)
    ensures FirstFit(hits, topK, budget, out)
  {
    var limit := if topK <= 0 then 4 else topK;
    var room := if budget <= 0 then 2200 else budget;
    out := [];
    var seenHashes: set<string> := {};
    var usedBudget := 0;
    ghost var keep: seq<bool> := [];
    hide Text, Hash, Greedy, Wanted, FirstOfHash, Chosen, Count, Used, SeenHashes;
    Start(hits, limit, room);
    for n := 0 to |hits|
      invariant |keep| == n && Greedy(hits, keep, n, limit, room)
      invariant out == Chosen(hits, keep, n) && |out| == Count(keep, n) < limit
      invariant usedBudget == Used(hits, keep, n)
      invariant SeenHashes(hits, n, seenHashes)
    {
      var hit := hits[n];
      ghost var before := keep;
      var hash := Hash(hit);
      keep := before + [false];
      OneMoreSeen(hits, n, seenHashes);
      if hash != "" {
        if hash in seenHashes {
          Decide(hits, before, false, limit, room);
          assert seenHashes + {hash} == seenHashes;
          continue;
        }
        seenHashes := seenHashes + {hash};
      }
      var content := Text(hit);
      if content == "" {
        Decide(hits, before, false, limit, room);
        continue;
      }
      if usedBudget + |content| > room && |out| > 0 {
        Decide(hits, before, false, limit, room);
        continue;
      }
      Decide(hits, before, true, limit, room);
      keep := before + [true];
      usedBudget := usedBudget + |content|;
      out := out + [hit];
      if |out| >= limit {
        keep := Full(hits, keep, limit, room);
        assert IsFirstFit(hits, keep, limit, room);
        return;
      }
    }
    assert IsFirstFit(hits, keep, limit, room);
  }

  lemma Start(hits: seq<StageHit>, limit: nat, budget: nat)
    ensures Greedy(hits, [], 0, limit, budget) && Chosen(hits, [], 0) == [] && Count([], 0) == 0 && Used(hits, [], 0) == 0
    ensures SeenHashes(hits, 0, {})
  {
  }

  lemma Decide(hits: seq<StageHit>, keep: seq<bool>, more: bool, limit: nat, budget: nat)
    requires |keep| < |hits| && Greedy(hits, keep, |keep|, limit, budget) && Count(keep, |keep|) < limit
    requires more <==> (FirstOfHash(hits, |keep|) && Text(hits[|keep|]) != ""
        && (Count(keep, |keep|) == 0 || Used(hits, keep, |keep|) + |Text(hits[|keep|])| <= budget))
    ensures Greedy(hits, keep + [more], |keep| + 1, limit, budget)
    ensures Count(keep + [more], |keep| + 1) == Count(keep, |keep|) + if more then 1 else 0
    ensures Used(hits, keep + [more], |keep| + 1) == Used(hits, keep, |keep|) + if more then |Text(hits[|keep|])| else 0
    ensures Chosen(hits, keep + [more], |keep| + 1) == Chosen(hits, keep, |keep|) + if more then [hits[|keep|]] else []
  {
    hide *;
    NextWish(hits, keep, more, limit, budget);
    GreedyStep(hits, keep, more, limit, budget);
    NextTotals(hits, keep, more);
  }

  // ------------------------------------------------------------------------ what it promises

  lemma {:induction false} TotalsGrow(hits: seq<StageHit>, keep: seq<bool>, i: nat, n: nat)
    requires i <= n <= |keep| <= |hits|
    ensures Count(keep, i) <= Count(keep, n) && Used(hits, keep, i) <= Used(hits, keep, n)
    decreases n
  {
    hide Text;
    if i < n {
      TotalsGrow(hits, keep, i, n - 1);
    }
  }

  /** The budget holds unless a single hit is packed. */
  lemma {:induction false} PackedFits(hits: seq<StageHit>, keep: seq<bool>, n: nat, limit: nat, budget: nat)
    requires n <= |keep| <= |hits| && Greedy(hits, keep, n, limit, budget)
    ensures Count(keep, n) <= limit
    ensures Used(hits, keep, n) <= budget || Count(keep, n) == 1
  {
    hide Text, FirstOfHash;
    if n > 0 {
      PackedFits(hits, keep, n - 1, limit, budget);
      assert keep[n - 1] ==> Wanted(hits, keep, n - 1, limit, budget);
    }
  }

  /** An omitted hit with text repeats an earlier hit's hash, or would overflow the final budget,
      unless `limit` hits are packed. */
  lemma PackedIsMaximal(hits: seq<StageHit>, keep: seq<bool>, limit: nat, budget: nat, i: nat)
    requires |keep| == |hits| && Greedy(hits, keep, |hits|, limit, budget)
    requires i < |hits| && !keep[i] && Text(hits[i]) != "" && Count(keep, |hits|) < limit
    ensures
      || (Hash(hits[i]) != "" && exists j :: 0 <= j < i && Hash(hits[j]) == Hash(hits[i]))
      || (Count(keep, |hits|) > 0 && Used(hits, keep, |hits|) + |Text(hits[i])| > budget)
  {
    TotalsGrow(hits, keep, i, |hits|);
    assert !Wanted(hits, keep, i, limit, budget);
    hide Text, Hash, Count, Used;
  }

  /** What is packed keeps its rank order: the p-th packed hit is the kept hit with p kept before it. */
  lemma {:induction false} PackedInOrder(hits: seq<StageHit>, keep: seq<bool>, n: nat, p: nat) returns (i: nat)
    requires n <= |keep| <= |hits| && p < |Chosen(hits, keep, n)|
    ensures i < n && keep[i] && Count(keep, i) == p && Chosen(hits, keep, n)[p] == hits[i]
  {
    ChosenLength(hits, keep, n - 1);
    if p < |Chosen(hits, keep, n - 1)| {
      i := PackedInOrder(hits, keep, n - 1, p);
    } else {
      i := n - 1;
    }
  }

  lemma {:induction false} ChosenLength(hits: seq<StageHit>, keep: seq<bool>, n: nat)
    requires n <= |keep| <= |hits|
    ensures |Chosen(hits, keep, n)| == Count(keep, n)
  {
    if n > 0 {
      ChosenLength(hits, keep, n - 1);
    }
  }

  /** No two packed hits share a content hash. */
  lemma PackedHashesDiffer(hits: seq<StageHit>, keep: seq<bool>, limit: nat, budget: nat, p: nat, q: nat)
    requires |keep| == |hits| && Greedy(hits, keep, |hits|, limit, budget)
    requires p < q < |Chosen(hits, keep, |hits|)| && Hash(Chosen(hits, keep, |hits|)[p]) != ""
    ensures Hash(Chosen(hits, keep, |hits|)[p]) != Hash(Chosen(hits, keep, |hits|)[q])
  {
    var i := PackedInOrder(hits, keep, |hits|, p);
    var j := PackedInOrder(hits, keep, |hits|, q);
    hide Hash, Text, Chosen;
    if j <= i {
      TotalsGrow(hits, keep, j, i);
    }
    assert Wanted(hits, keep, j, limit, budget);
    hide Count, Used;
  }

  function TextTotal(hits: seq<StageHit>): nat {
    if hits == [] then 0 else TextTotal(hits[..|hits| - 1]) + |Text(hits[|hits| - 1])|
  }

  lemma {:induction false} UsedIsText(hits: seq<StageHit>, keep: seq<bool>, n: nat)
    requires n <= |keep| <= |hits|
    ensures TextTotal(Chosen(hits, keep, n)) == Used(hits, keep, n)
  {
    hide Text;
    if n > 0 {
      UsedIsText(hits, keep, n - 1);
      var before := Chosen(hits, keep, n - 1);
      assert before + [] == before && (before + [hits[n - 1]])[..|before|] == before;
    }
  }

  /** Whatever is packed: at most the limit, within budget or a single hit, and no hash twice. */
  lemma PackedPromises(hits: seq<StageHit>, topK: int, budget: int, out: seq<StageHit>)
    requires FirstFit(hits, topK, budget, out)
    ensures |out| <= Limit(topK)
    ensures TextTotal(out) <= Budget(budget) || |out| == 1
    ensures forall p, q :: 0 <= p < q < |out| && Hash(out[p]) != "" ==> Hash(out[p]) != Hash(out[q])
  {
    var limit, room := Limit(topK), Budget(budget);
    var keep :| IsFirstFit(hits, keep, limit, room) && out == Chosen(hits, keep, |hits|);
    hide Limit, Budget, Chosen, Greedy, TextTotal, Hash;
    PackedFits(hits, keep, |hits|, limit, room);
    UsedIsText(hits, keep, |hits|);
    ChosenLength(hits, keep, |hits|);
    forall p, q | 0 <= p < q < |out| && Hash(out[p]) != "" ensures Hash(out[p]) != Hash(out[q]) {
      PackedHashesDiffer(hits, keep, limit, room, p, q);
    }
  }

  lemma {:induction false} KeptIsChosen(hits: seq<StageHit>, keep: seq<bool>, n: nat)
    requires n <= |keep| <= |hits|
    ensures forall h :: h in Chosen(hits, keep, n) <==> exists i :: 0 <= i < n && keep[i] && hits[i] == h
  {
    if n > 0 {
      KeptIsChosen(hits, keep, n - 1);
    }
  }

  /** The same for the numbers that callers pass: zero or less means 4 hits and 2200 characters.  Every packed hit has
      text; and while there is room for more hits, one is left out only if it has no text, repeats an earlier
      hit's content hash, or would overflow the budget. */
  lemma PackedOutcome(hits: seq<StageHit>, topK: int, budget: int, out: seq<StageHit>)
    requires FirstFit(hits, topK, budget, out)
    ensures var most, room := if topK <= 0 then 4 else topK, if budget <= 0 then 2200 else budget;
      && |out| <= most && (TextTotal(out) <= room || |out| == 1)
      && (forall h :: h in out ==> h in hits && Text(h) != "")
      && (forall p, q :: 0 <= p < q < |out| && Entry(out[p].metadata, "content_sha256") == Entry(out[q].metadata, "content_sha256") ==>
            Hash(out[p]) == "")
      && (|out| < most ==> forall i :: 0 <= i < |hits| && hits[i] !in out && Text(hits[i]) != "" ==> LeftOut(hits, i, out, room))
  {
    var limit, room := Limit(topK), Budget(budget);
    var keep :| IsFirstFit(hits, keep, limit, room) && out == Chosen(hits, keep, |hits|);
    assert limit == (if topK <= 0 then 4 else topK) && room == if budget <= 0 then 2200 else budget;
    hide *;
    PackedPromises(hits, topK, budget, out);
    SameEntrySameHash(out);
    PackedHitsHaveText(hits, keep, limit, room, out);
    PackedLeavesOut(hits, keep, limit, room, out);
  }

  lemma PackedHitsHaveText(hits: seq<StageHit>, keep: seq<bool>, limit: nat, room: nat, out: seq<StageHit>)
    requires IsFirstFit(hits, keep, limit, room) && out == Chosen(hits, keep, |hits|)
    ensures forall h :: h in out ==> h in hits && Text(h) != ""
  {
    KeptIsChosen(hits, keep, |hits|);
    hide Chosen, Hash, Text, Count, Used;
    forall h | h in out ensures h in hits && Text(h) != "" {
      var i :| 0 <= i < |hits| && keep[i] && hits[i] == h;
      assert Wanted(hits, keep, i, limit, room);
    }
  }

  /** The hit is left out for want of a new hash or of room. */
  predicate LeftOut(hits: seq<StageHit>, i: nat, out: seq<StageHit>, room: nat)
    requires i < |hits|
  {
    || (Hash(hits[i]) != "" && exists j :: 0 <= j < i && Hash(hits[j]) == Hash(hits[i]))
    || (out != [] && TextTotal(out) + |Text(hits[i])| > room)
  }

  lemma PackedLeavesOut(hits: seq<StageHit>, keep: seq<bool>, limit: nat, room: nat, out: seq<StageHit>)
    requires IsFirstFit(hits, keep, limit, room) && out == Chosen(hits, keep, |hits|)
    ensures |out| < limit ==> forall i :: 0 <= i < |hits| && hits[i] !in out && Text(hits[i]) != "" ==> LeftOut(hits, i, out, room)
  {
    UsedIsText(hits, keep, |hits|);
    ChosenLength(hits, keep, |hits|);
    KeptIsChosen(hits, keep, |hits|);
    hide Chosen, TextTotal, Hash, Text, Count, Used, Wanted, Greedy;
    if |out| < limit {
      forall i | 0 <= i < |hits| && hits[i] !in out && Text(hits[i]) != "" ensures LeftOut(hits, i, out, room) {
        PackedIsMaximal(hits, keep, limit, room, i);
      }
    }
  }

  lemma SameEntrySameHash(out: seq<StageHit>)
    ensures forall p, q :: 0 <= p < q < |out| && Entry(out[p].metadata, "content_sha256") == Entry(out[q].metadata, "content_sha256") ==>
      Hash(out[p]) == Hash(out[q])
  {
  }

  /** The specification leaves no choice. */
  lemma PackedIsDetermined(hits: seq<StageHit>, topK: int, budget: int, out: seq<StageHit>, other: seq<StageHit>)
    requires FirstFit(hits, topK, budget, out) && FirstFit(hits, topK, budget, other)
    ensures out == other
  {
    var limit, room := Limit(topK), Budget(budget);
    var a :| IsFirstFit(hits, a, limit, room) && out == Chosen(hits, a, |hits|);
    var b :| IsFirstFit(hits, b, limit, room) && other == Chosen(hits, b, |hits|);
    hide Greedy, Chosen;
    GreedyIsUnique(hits, a, b, |hits|, limit, room);
    assert a[..|hits|] == a && b[..|hits|] == b;
  }

  // ------------------------------------------------------------------- the evaluator's packer

  datatype RunHit = RunHit(docID: string, score: real)

  function Ids(hits: seq<RunHit>): set<string> { set i | 0 <= i < |hits| :: hits[i].docID }

  /** The first hit of each document, in rank order. */
  function FirstHits(hits: seq<RunHit>): seq<RunHit> {
    if hits == [] then []
    else
      var init, last := hits[..|hits| - 1], hits[|hits| - 1];
      if last.docID in Ids(init) then FirstHits(init) else FirstHits(init) + [last]
  }

  function Length(lenByID: map<string, int>, hit: RunHit): (n: nat)
    ensures n > 0
  {
    if hit.docID in lenByID && lenByID[hit.docID] > 0 then lenByID[hit.docID] else 1
  }

  function Total(lenByID: map<string, int>, hits: seq<RunHit>): nat {
    if hits == [] then 0 else Total(lenByID, hits[..|hits| - 1]) + Length(lenByID, hits[|hits| - 1])
  }

  /** The first `n` hits are within budget; a single hit always is. */
  predicate FitsBudget(lenByID: map<string, int>, hits: seq<RunHit>, budget: int, n: nat) {
    n <= |hits| && (n <= 1 || Total(lenByID, hits[..n]) <= budget)
  }

  /** `out` is the longest prefix of `all` that fits. */
  ghost predicate LongestFit(lenByID: map<string, int>, all: seq<RunHit>, budget: int, out: seq<RunHit>) {
    && out <= all
    && FitsBudget(lenByID, all, budget, |out|)
    && forall m: nat :: FitsBudget(lenByID, all, budget, m) ==> m <= |out|
  }

  lemma {:induction false} TotalMonotone(lenByID: map<string, int>, hits: seq<RunHit>, m: nat, n: nat)
    requires m <= n <= |hits|
    ensures Total(lenByID, hits[..m]) <= Total(lenByID, hits[..n])
    decreases n
  {
    if m < n {
      TotalMonotone(lenByID, hits, m, n - 1);
      assert hits[..n][..n - 1] == hits[..n - 1];
      hide Length;
    }
  }

  lemma OverflowEnds(lenByID: map<string, int>, all: seq<RunHit>, budget: int, n: nat)
    requires 0 < n < |all| && FitsBudget(lenByID, all, budget, n) && Total(lenByID, all[..n + 1]) > budget
    ensures LongestFit(lenByID, all, budget, all[..n])
  {
    hide Total;
    forall m: nat | FitsBudget(lenByID, all, budget, m) ensures m <= n {
      if m > n {
        TotalMonotone(lenByID, all, n + 1, m);
      }
    }
  }

  lemma NextFirstHit(hits: seq<RunHit>, n: nat)
    requires n < |hits|
    ensures FirstHits(hits[..n + 1]) == if hits[n].docID in Ids(hits[..n]) then FirstHits(hits[..n]) else FirstHits(hits[..n]) + [hits[n]]
    ensures Ids(hits[..n + 1]) == Ids(hits[..n]) + {hits[n].docID}
  {
    assert hits[..n + 1][..n] == hits[..n];
    assert hits[..n + 1] == hits[..n] + [hits[n]];
    MoreIds(hits[..n], hits[n]);
  }

  lemma MoreIds(hits: seq<RunHit>, hit: RunHit)
    ensures Ids(hits + [hit]) == Ids(hits) + {hit.docID}
  {
    var all := hits + [hit];
    forall id | id in Ids(hits) + {hit.docID} ensures id in Ids(all) {
      if id in Ids(hits) {
        var i :| 0 <= i < |hits| && hits[i].docID == id;
        assert all[i].docID == id;
      } else {
        assert all[|hits|].docID == id;
      }
    }
  }

  lemma {:induction false} FirstHitsGrow(hits: seq<RunHit>, n: nat)
    requires n <= |hits|
    ensures FirstHits(hits[..n]) <= FirstHits(hits)
    decreases |hits|
  {
    hide Ids;
    if n == |hits| {
      assert hits[..n] == hits;
    } else {
      var init := hits[..|hits| - 1];
      FirstHitsGrow(init, n);
      assert init[..n] == hits[..n];
    }
  }

  /** Without a budget the hits are returned as they are, repeats included; otherwise the longest
      prefix of the deduplicated list that fits. */
  method PackPostRetrievalHits(hits: seq<RunHit>, lenByID: map<string, int>, contextBudget: int) returns (out: seq<RunHit>)
    ensures contextBudget <= 0 ==> out == hits
    ensures contextBudget > 0 ==> LongestFit(lenByID, FirstHits(hits), contextBudget, out)
  {
    if |hits| == 0 {
      return [];
    }
    if contextBudget <= 0 {
      return hits;
    }
    out := [];
    var seen: set<string> := {};
    var used := 0;
    hide *;
    NothingSeen(lenByID, hits, contextBudget);
    for n := 0 to |hits|
      invariant PackedSoFar(lenByID, hits, contextBudget, n, seen, out, used)
    {
      var hit := hits[n];
      if hit.docID in seen {
        OneRepeat(lenByID, hits, contextBudget, n, seen, out, used);
        continue;
      }
      ghost var before := seen;
      seen := seen + {hit.docID};
      var length := Length(lenByID, hit);
      if |out| > 0 && used + length > contextBudget {
        Stopped(lenByID, hits, contextBudget, n, before, out, used);
        return;
      }
      OneMorePacked(lenByID, hits, contextBudget, n, before, out, used);
      used := used + length;
      out := out + [hit];
    }
    AllPacked(lenByID, hits, contextBudget, seen, out, used);
  }

  predicate PackedSoFar(lenByID: map<string, int>, hits: seq<RunHit>, budget: int, n: nat, seen: set<string>, out: seq<RunHit>, used: int) {
    && n <= |hits| && seen == Ids(hits[..n]) && out == FirstHits(hits[..n])
    && used == Total(lenByID, out) && (|out| <= 1 || used <= budget)
  }

  lemma NothingSeen(lenByID: map<string, int>, hits: seq<RunHit>, budget: int)
    ensures PackedSoFar(lenByID, hits, budget, 0, {}, [], 0)
  {
    assert Ids(hits[..0]) == {};
  }

  lemma OneRepeat(lenByID: map<string, int>, hits: seq<RunHit>, budget: int, n: nat, seen: set<string>, out: seq<RunHit>, used: int)
    requires PackedSoFar(lenByID, hits, budget, n, seen, out, used) && n < |hits| && hits[n].docID in seen
    ensures PackedSoFar(lenByID, hits, budget, n + 1, seen, out, used)
  {
    hide Ids, FirstHits, Total;
    NextFirstHit(hits, n);
  }

  lemma OneMorePacked(lenByID: map<string, int>, hits: seq<RunHit>, budget: int, n: nat, seen: set<string>, out: seq<RunHit>, used: int)
    requires PackedSoFar(lenByID, hits, budget, n, seen, out, used) && n < |hits| && hits[n].docID !in seen
    requires |out| == 0 || used + Length(lenByID, hits[n]) <= budget
    ensures PackedSoFar(lenByID, hits, budget, n + 1, seen + {hits[n].docID}, out + [hits[n]], used + Length(lenByID, hits[n]))
  {
    hide Ids, FirstHits, Total, Length;
    NextFirstHit(hits, n);
    NextTotal(lenByID, out, hits[n]);
  }

  lemma AllPacked(lenByID: map<string, int>, hits: seq<RunHit>, budget: int, seen: set<string>, out: seq<RunHit>, used: int)
    requires PackedSoFar(lenByID, hits, budget, |hits|, seen, out, used)
    ensures LongestFit(lenByID, FirstHits(hits), budget, out)
  {
    hide Ids, FirstHits, Total, Length, LongestFit;
    assert hits[..|hits|] == hits;
    assert out == FirstHits(hits) && (|out| <= 1 || Total(lenByID, out) <= budget);
    hide *;
    AllFit(lenByID, out, budget);
  }

  lemma AllFit(lenByID: map<string, int>, all: seq<RunHit>, budget: int)
    requires |all| <= 1 || Total(lenByID, all) <= budget
    ensures LongestFit(lenByID, all, budget, all)
  {
    hide Total;
    assert all[..|all|] == all;
  }

  lemma NextTotal(lenByID: map<string, int>, hits: seq<RunHit>, hit: RunHit)
    ensures Total(lenByID, hits + [hit]) == Total(lenByID, hits) + Length(lenByID, hit)
  {
    assert (hits + [hit])[..|hits|] == hits;
  }

  /** The first hit that overflows ends the longest fitting prefix. */
  lemma Stopped(lenByID: map<string, int>, hits: seq<RunHit>, budget: int, n: nat, seen: set<string>, out: seq<RunHit>, used: int)
    requires PackedSoFar(lenByID, hits, budget, n, seen, out, used) && n < |hits| && hits[n].docID !in seen
    requires |out| > 0 && used + Length(lenByID, hits[n]) > budget
    ensures LongestFit(lenByID, FirstHits(hits), budget, out)
  {
    hide Ids, FirstHits, Total, Length;
    NextFirstHit(hits, n);
    FirstHitsGrow(hits, n + 1);
    NextTotal(lenByID, out, hits[n]);
    var all, k := FirstHits(hits), |out|;
    assert all[..k + 1] == out + [hits[n]] && all[..k] == out;
    hide LongestFit;
    OverflowEnds(lenByID, all, budget, k);
  }

  /** The deduplicated list holds every document once, at its first rank. */
  lemma {:induction false} FirstHitsAreFirst(hits: seq<RunHit>, p: nat) returns (i: nat)
    requires p < |FirstHits(hits)|
    ensures i < |hits| && FirstHits(hits)[p] == hits[i] && hits[i].docID !in Ids(hits[..i])
    ensures p == |FirstHits(hits[..i])|
  {
    var init := hits[..|hits| - 1];
    hide Ids;
    if p < |FirstHits(init)| {
      i := FirstHitsAreFirst(init, p);
      assert init[..i] == hits[..i];
    } else {
      i := |hits| - 1;
    }
  }

  lemma {:induction false} FirstHitsKeepDocuments(hits: seq<RunHit>)
    ensures Ids(FirstHits(hits)) == Ids(hits)
  {
    if hits != [] {
      var n := |hits| - 1;
      FirstHitsKeepDocuments(hits[..n]);
      assert hits[..n + 1] == hits;
      NextFirstHit(hits, n);
      MoreIds(FirstHits(hits[..n]), hits[n]);
    }
  }

  lemma {:induction false} UnknownTotal(lenByID: map<string, int>, hits: seq<RunHit>)
    requires forall h :: h in hits ==> h.docID !in lenByID || lenByID[h.docID] <= 0
    ensures Total(lenByID, hits) == |hits|
  {
    if hits != [] {
      UnknownTotal(lenByID, hits[..|hits| - 1]);
      assert hits[|hits| - 1] in hits;
    }
  }

  /** Documents of unknown length count one each: that many of them are kept, and always the first. */
  lemma UnknownLengthsCountOne(lenByID: map<string, int>, all: seq<RunHit>, budget: int, out: seq<RunHit>)
    requires budget > 0 && LongestFit(lenByID, all, budget, out)
    requires forall h :: h in all ==> h.docID !in lenByID || lenByID[h.docID] <= 0
    ensures out == all[..if |all| <= budget then |all| else budget]
  {
    var n := if |all| <= budget then |all| else budget;
    UnknownTotal(lenByID, all[..n]);
    assert FitsBudget(lenByID, all, budget, n);
    if |out| > n {
      UnknownTotal(lenByID, all[..|out|]);
    }
    hide Total;
    assert out == all[..|out|];
  }

  /** And a known length counts as it is: what is kept adds up to at most the budget, unless it is one document, and the
      next document would not fit. */
  lemma KnownLengthsAddUp(lenByID: map<string, int>, all: seq<RunHit>, budget: int, out: seq<RunHit>)
    requires budget > 0 && LongestFit(lenByID, all, budget, out)
    requires forall h :: h in all ==> h.docID in lenByID && lenByID[h.docID] > 0
    ensures |out| <= 1 || Sum(lenByID, out) <= budget
    ensures out != [] && |out| < |all| ==> Sum(lenByID, out) + lenByID[all[|out|].docID] > budget
    ensures all != [] ==> out != []
  {
    assert out == all[..|out|];
    TotalIsSum(lenByID, out);
    assert FitsBudget(lenByID, all, budget, if all == [] then 0 else 1);
    if out != [] && |out| < |all| {
      var more := all[..|out| + 1];
      assert more[..|out|] == out && more[|out|] in all;
      assert !FitsBudget(lenByID, all, budget, |out| + 1);
      assert Total(lenByID, more) == Total(lenByID, out) + lenByID[more[|out|].docID];
    }
  }

  function Sum(lenByID: map<string, int>, hits: seq<RunHit>): int
    requires forall h :: h in hits ==> h.docID in lenByID
  {
    if hits == [] then 0 else lenByID[hits[0].docID] + Sum(lenByID, hits[1..])
  }

  lemma {:induction false} TotalIsSum(lenByID: map<string, int>, hits: seq<RunHit>)
    requires forall h :: h in hits ==> h.docID in lenByID && lenByID[h.docID] > 0
    ensures Total(lenByID, hits) == Sum(lenByID, hits)
  {
    if hits != [] {
      TotalIsSum(lenByID, hits[1..]);
      TotalFirst(lenByID, hits);
    }
  }

  lemma {:induction false} TotalFirst(lenByID: map<string, int>, hits: seq<RunHit>)
    requires hits != []
    ensures Total(lenByID, hits) == Length(lenByID, hits[0]) + Total(lenByID, hits[1..])
  {
    hide Length;
    if |hits| == 1 {
      assert hits[1..] == [] && hits[..0] == [];
    } else {
      var init := hits[..|hits| - 1];
      TotalFirst(lenByID, init);
      assert hits[1..][..|hits| - 2] == init[1..];
    }
  }
}
