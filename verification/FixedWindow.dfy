/**
 The Redis fixed-window limiter.  A call runs the script atomically at its own time: INCR on
 the key of its time slot, PEXPIRE if that created the key.  Times never decrease.  A Redis
 failure denies the call, whether or not the script had run.
 */
module FixedWindow {

  datatype Fault = NoFault | BeforeScript | AfterScript

  /** One call, as the limiter saw it: `counted` means that the script ran, `lost` that its
      reply did not arrive. */
  datatype Call = Call(key: string, time: nat, counted: bool, lost: bool, admitted: bool)

  datatype Counter = Counter(count: nat, expiresAt: nat)

  function Slot(time: nat, windowMs: nat): nat
    requires windowMs > 0
  {
    time / windowMs
  }

  /** Calls of `key` counted in one slot. */
  function Counted(log: seq<Call>, key: string, slot: nat, windowMs: nat): nat
    requires windowMs > 0
  {
    if log == [] then 0
    else
      var last := log[|log| - 1];
      Counted(log[..|log| - 1], key, slot, windowMs)
      + if last.key == key && last.counted && Slot(last.time, windowMs) == slot then 1 else 0
  }

  function AdmittedInSlot(log: seq<Call>, key: string, slot: nat, windowMs: nat): nat
    requires windowMs > 0
  {
    if log == [] then 0
    else
      var last := log[|log| - 1];
      AdmittedInSlot(log[..|log| - 1], key, slot, windowMs)
      + if last.key == key && last.admitted && Slot(last.time, windowMs) == slot then 1 else 0
  }

  /** Calls of `key` admitted at `from` or later, but before `to`. */
  function AdmittedBetween(log: seq<Call>, key: string, from: nat, to: nat): nat {
    if log == [] then 0
    else
      var last := log[|log| - 1];
      AdmittedBetween(log[..|log| - 1], key, from, to)
      + if last.key == key && last.admitted && from <= last.time < to then 1 else 0
  }

  /** The limiter's promise: a call is admitted if and only if it is among the first `limit` ones counted
      in its slot and its reply was not lost. */
  predicate Conforms(log: seq<Call>, limit: nat, windowMs: nat)
    requires windowMs > 0
  {
    log == [] || (
      var init, last := log[..|log| - 1], log[|log| - 1];
      && Conforms(init, limit, windowMs)
      && (last.admitted <==> last.counted && !last.lost && Counted(init, last.key, Slot(last.time, windowMs), windowMs) < limit))
  }

  predicate Ordered(log: seq<Call>) {
    forall i, j :: 0 <= i < j < |log| ==> log[i].time <= log[j].time
  }

  /** What a limiter's log is like: besides, keys are never blank, and only a script that ran has a reply. */
  predicate Possible(log: seq<Call>, limit: nat, windowMs: nat)
    requires windowMs > 0
  {
    && Conforms(log, limit, windowMs) && Ordered(log)
    && forall i :: 0 <= i < |log| ==> log[i].key != "" && (log[i].lost ==> log[i].counted)
  }

  type Counters = map<(string, nat), Counter>

  function SlotEnd(slot: nat, windowMs: nat): nat { (slot + 1) * windowMs }

  /** A stored counter is the number of calls counted in its slot, and its key outlives the slot:
      expiry never resets a counter that can still be incremented. */
  ghost predicate CountersOk(counters: Counters, log: seq<Call>, windowMs: nat)
    requires windowMs > 0
  {
    && (forall k, s :: (k, s) in counters ==>
          counters[(k, s)].count == Counted(log, k, s, windowMs) > 0 && counters[(k, s)].expiresAt >= SlotEnd(s, windowMs))
    && (forall k, s: nat :: (k, s) !in counters ==> Counted(log, k, s, windowMs) == 0)
  }

  /** The script: INCR, and PEXPIRE if that created the key. */
  function Incremented(counters: Counters, key: (string, nat), now: nat, windowMs: nat): Counters {
    var count := (if key in counters && now < counters[key].expiresAt then counters[key].count else 0) + 1;
    counters[key := Counter(count, if count == 1 || key !in counters then now + windowMs else counters[key].expiresAt)]
  }

  lemma ScriptKeeps(counters: Counters, log: seq<Call>, c: Call, windowMs: nat)
    requires windowMs > 0 && CountersOk(counters, log, windowMs) && c.counted
    ensures var key := (c.key, Slot(c.time, windowMs)); var after := Incremented(counters, key, c.time, windowMs);
      CountersOk(after, log + [c], windowMs) && after[key].count == Counted(log, c.key, key.1, windowMs) + 1
  {
    InsideSlot(c.time, windowMs);
    var slot := Slot(c.time, windowMs);
    forall k, s: nat ensures Counted(log + [c], k, s, windowMs) == Counted(log, k, s, windowMs) + if c.key == k && slot == s then 1 else 0 {
      AddCall(log, c, k, s, windowMs);
    }
    hide Counted, SlotEnd, Slot;
  }

  lemma DeniedKeeps(counters: Counters, log: seq<Call>, c: Call, windowMs: nat)
    requires windowMs > 0 && CountersOk(counters, log, windowMs) && !c.counted
    ensures CountersOk(counters, log + [c], windowMs)
  {
    forall k, s: nat ensures Counted(log + [c], k, s, windowMs) == Counted(log, k, s, windowMs) {
      AddCall(log, c, k, s, windowMs);
    }
    hide Counted, SlotEnd;
  }

  lemma AddConforms(log: seq<Call>, c: Call, limit: nat, windowMs: nat)
    requires windowMs > 0 && Conforms(log, limit, windowMs)
    requires c.admitted <==> c.counted && !c.lost && Counted(log, c.key, Slot(c.time, windowMs), windowMs) < limit
    ensures Conforms(log + [c], limit, windowMs)
  {
    assert (log + [c])[..|log|] == log;
  }

  lemma AddPossible(log: seq<Call>, c: Call, limit: nat, windowMs: nat)
    requires windowMs > 0 && Possible(log, limit, windowMs) && forall i :: 0 <= i < |log| ==> log[i].time <= c.time
    requires c.admitted <==> c.counted && !c.lost && Counted(log, c.key, Slot(c.time, windowMs), windowMs) < limit
    requires c.key != "" && (c.lost ==> c.counted)
    ensures Possible(log + [c], limit, windowMs) && Ordered(log + [c])
  {
    AddConforms(log, c, limit, windowMs);
    LaterCall(log, c);
    hide Conforms, Counted, Slot;
  }

  class FixedWindowLimiter {
    const limit: nat
    const windowMs: nat
    var counters: Counters
    ghost var log: seq<Call>

    ghost predicate Valid()
      reads this
    {
      && limit > 0 && Ordered(log)
      && (windowMs > 0 ==> Possible(log, limit, windowMs) && CountersOk(counters, log, windowMs))
    }

    constructor (limit: nat, windowMs: nat)
      requires limit > 0
      ensures Valid() && log == [] && this.limit == limit && this.windowMs == windowMs
    {
      this.limit, this.windowMs := limit, windowMs;
      counters, log := map[], [];
    }

    /** `key` is already trimmed. */
    method Allow(key: string, now: nat, fault: Fault) returns (admitted: bool)
      requires Valid() && forall i :: 0 <= i < |log| ==> log[i].time <= now
      modifies this
      ensures Valid()
      ensures var k := if key == "" then "unknown" else key;
        && log == old(log) + [Call(k, now, windowMs > 0 && !fault.BeforeScript?, windowMs > 0 && fault.AfterScript?, admitted)]
        && (windowMs > 0 ==> (admitted <==> fault.NoFault? && Counted(old(log), k, Slot(now, windowMs), windowMs) < limit))
        && (windowMs == 0 ==> admitted)
    {
      var k := if key == "" then "unknown" else key;
      hide Possible, CountersOk, Counted, Ordered;
      if windowMs <= 0 {
        LaterCall(log, Call(k, now, false, false, true));
        log := log + [Call(k, now, false, false, true)];
        return true;
      }
      var windowSlot := now / windowMs;
      assert Slot(now, windowMs) == windowSlot;
      hide Slot;
      if fault.BeforeScript? {
        ghost var c := Call(k, now, false, false, false);
        DeniedKeeps(counters, log, c, windowMs);
        AddPossible(log, c, limit, windowMs);
        log := log + [c];
        return false;
      }
      var redisKey := (k, windowSlot);
      var live := redisKey in counters && now < counters[redisKey].expiresAt;
      var count := (if live then counters[redisKey].count else 0) + 1;
      admitted := fault.NoFault? && count <= limit;
      ghost var c := Call(k, now, true, fault.AfterScript?, admitted);
      ScriptKeeps(counters, log, c, windowMs);
      counters := Incremented(counters, redisKey, now, windowMs);
      assert counters[redisKey].count == count;
      hide Incremented;
      AddPossible(log, c, limit, windowMs);
      log := log + [c];
    }
  }

  lemma LaterCall(log: seq<Call>, c: Call)
    requires Ordered(log) && forall i :: 0 <= i < |log| ==> log[i].time <= c.time
    ensures Ordered(log + [c])
  {
  }

  lemma InsideSlot(now: nat, windowMs: nat)
    requires windowMs > 0
    ensures Slot(now, windowMs) * windowMs <= now < (Slot(now, windowMs) + 1) * windowMs <= now + windowMs
  {
    assert now == Slot(now, windowMs) * windowMs + now % windowMs;
  }

  lemma AddCall(log: seq<Call>, c: Call, key: string, slot: nat, windowMs: nat)
    requires windowMs > 0
    ensures Counted(log + [c], key, slot, windowMs)
         == Counted(log, key, slot, windowMs) + if c.key == key && c.counted && Slot(c.time, windowMs) == slot then 1 else 0
  {
    assert (log + [c])[..|log|] == log;
  }

  /** Every log that is possible is the log of some limiter. */
  method Reproduce(log: seq<Call>, limit: nat, windowMs: nat) returns (limiter: FixedWindowLimiter)
    requires limit > 0 && windowMs > 0 && Possible(log, limit, windowMs)
    ensures fresh(limiter) && limiter.Valid() && limiter.log == log && limiter.limit == limit && limiter.windowMs == windowMs
  {
    limiter := new FixedWindowLimiter(limit, windowMs);
    for i := 0 to |log|
      invariant fresh(limiter) && limiter.Valid() && limiter.limit == limit && limiter.windowMs == windowMs
      invariant limiter.log == log[..i]
    {
      ConformsAt(log, i, limit, windowMs);
      hide Conforms, Counted, CountersOk;
      Again(limiter, log[i]);
      assert log[..i + 1] == log[..i] + [log[i]];
    }
  }

  /** The call that a limiter logs as `c`. */
  method Again(limiter: FixedWindowLimiter, c: Call)
    requires limiter.Valid() && limiter.windowMs > 0 && forall i :: 0 <= i < |limiter.log| ==> limiter.log[i].time <= c.time
    requires c.key != "" && (c.lost ==> c.counted)
    requires c.admitted <==>
      c.counted && !c.lost && Counted(limiter.log, c.key, Slot(c.time, limiter.windowMs), limiter.windowMs) < limiter.limit
    modifies limiter
    ensures limiter.Valid() && limiter.log == old(limiter.log) + [c]
  {
    hide Conforms, Counted, CountersOk, Slot;
    var admitted := limiter.Allow(c.key, c.time, if !c.counted then BeforeScript else if c.lost then AfterScript else NoFault);
  }

  lemma {:induction false} ConformsAt(log: seq<Call>, i: nat, limit: nat, windowMs: nat)
    requires windowMs > 0 && i < |log| && Conforms(log, limit, windowMs)
    ensures log[i].admitted <==>
      log[i].counted && !log[i].lost && Counted(log[..i], log[i].key, Slot(log[i].time, windowMs), windowMs) < limit
  {
    hide Counted, Slot;
    var n := |log| - 1;
    if i < n {
      ConformsAt(log[..n], i, limit, windowMs);
      assert log[..n][..i] == log[..i];
    }
  }

  // ------------------------------------------------------------------------- over any run

  /** No slot admits more than `limit` calls of a key, nor more than it counted. */
  lemma {:induction false} SlotBound(log: seq<Call>, key: string, slot: nat, limit: nat, windowMs: nat)
    requires windowMs > 0 && Conforms(log, limit, windowMs)
    ensures AdmittedInSlot(log, key, slot, windowMs) <= limit
    ensures AdmittedInSlot(log, key, slot, windowMs) <= Counted(log, key, slot, windowMs)
  {
    if log != [] {
      SlotBound(log[..|log| - 1], key, slot, limit, windowMs);
    }
  }

  /** No reply to a call of `key` in this slot was lost. */
  predicate NoneLost(log: seq<Call>, key: string, slot: nat, windowMs: nat)
    requires windowMs > 0
  {
    forall i :: 0 <= i < |log| && log[i].key == key && Slot(log[i].time, windowMs) == slot ==> !log[i].lost
  }

  /** A slot in which no reply was lost admits exactly its first `limit` counted calls, faults elsewhere
      notwithstanding. */
  lemma {:induction false} SlotExact(log: seq<Call>, key: string, slot: nat, limit: nat, windowMs: nat)
    requires windowMs > 0 && Conforms(log, limit, windowMs) && NoneLost(log, key, slot, windowMs)
    ensures var n := Counted(log, key, slot, windowMs);
      AdmittedInSlot(log, key, slot, windowMs) == if n < limit then n else limit
  {
    if log != [] {
      var init := log[..|log| - 1];
      assert forall i :: 0 <= i < |init| ==> init[i] == log[i];
      SlotExact(init, key, slot, limit, windowMs);
    }
  }

  /** So do the slots of a limiter, whatever calls it had. */
  lemma LimiterIsExact(limiter: FixedWindowLimiter, key: string, slot: nat, from: nat)
    requires limiter.Valid() && limiter.windowMs > 0
    ensures var n := Counted(limiter.log, key, slot, limiter.windowMs);
      var admitted := AdmittedInSlot(limiter.log, key, slot, limiter.windowMs);
      && admitted <= n && admitted <= limiter.limit
      && (NoneLost(limiter.log, key, slot, limiter.windowMs) ==> admitted == if n < limiter.limit then n else limiter.limit)
    ensures AdmittedBetween(limiter.log, key, from, from + limiter.windowMs) <= 2 * limiter.limit
  {
    var log, limit, windowMs := limiter.log, limiter.limit, limiter.windowMs;
    SlotBound(log, key, slot, limit, windowMs);
    SlidingBound(log, key, from, limit, windowMs);
    if NoneLost(log, key, slot, windowMs) {
      SlotExact(log, key, slot, limit, windowMs);
    }
  }

  lemma CancelLess(a: int, b: int, w: int)
    requires w > 0 && a * w < b * w
    ensures a < b
  {
    assert b * w - a * w == (b - a) * w;
  }

  /** A window-long interval meets at most two slots. */
  lemma TwoSlots(time: nat, from: nat, windowMs: nat)
    requires windowMs > 0 && from <= time < from + windowMs
    ensures Slot(time, windowMs) == Slot(from, windowMs) || Slot(time, windowMs) == Slot(from, windowMs) + 1
  {
    InsideSlot(time, windowMs);
    InsideSlot(from, windowMs);
    var s, t := Slot(from, windowMs), Slot(time, windowMs);
    hide Slot;
    assert (s + 2) * windowMs == (s + 1) * windowMs + windowMs;
    CancelLess(t, s + 2, windowMs);
    CancelLess(s, t + 1, windowMs);
  }

  lemma {:induction false} BetweenIsInSlots(log: seq<Call>, key: string, from: nat, windowMs: nat)
    requires windowMs > 0
    ensures AdmittedBetween(log, key, from, from + windowMs)
         <= AdmittedInSlot(log, key, Slot(from, windowMs), windowMs) + AdmittedInSlot(log, key, Slot(from, windowMs) + 1, windowMs)
  {
    if log != [] {
      var last := log[|log| - 1];
      BetweenIsInSlots(log[..|log| - 1], key, from, windowMs);
      if from <= last.time < from + windowMs {
        TwoSlots(last.time, from, windowMs);
      }
    }
  }

  /** Any interval as long as the window admits at most twice the limit. */
  lemma SlidingBound(log: seq<Call>, key: string, from: nat, limit: nat, windowMs: nat)
    requires windowMs > 0 && Conforms(log, limit, windowMs)
    ensures AdmittedBetween(log, key, from, from + windowMs) <= 2 * limit
  {
    BetweenIsInSlots(log, key, from, windowMs);
    SlotBound(log, key, Slot(from, windowMs), limit, windowMs);
    SlotBound(log, key, Slot(from, windowMs) + 1, limit, windowMs);
  }

  // ------------------------------------------------------------------ the bound is reached

  /** `n` admitted calls at one time. */
  function Burst(key: string, time: nat, n: nat): seq<Call> {
    if n == 0 then [] else Burst(key, time, n - 1) + [Call(key, time, true, false, true)]
  }

  /** What a burst adds to a log. */
  ghost predicate Adds(log: seq<Call>, all: seq<Call>, key: string, time: nat, n: nat, from: nat, windowMs: nat)
    requires windowMs > 0
  {
    && AdmittedBetween(all, key, from, from + windowMs) == AdmittedBetween(log, key, from, from + windowMs) + n
    && (forall s: nat :: Counted(all, key, s, windowMs) == Counted(log, key, s, windowMs) + if s == Slot(time, windowMs) then n else 0)
  }

  lemma OneInBurst(log: seq<Call>, before: seq<Call>, key: string, time: nat, n: nat, from: nat, windowMs: nat)
    requires windowMs > 0 && n > 0 && from <= time < from + windowMs && Adds(log, before, key, time, n - 1, from, windowMs)
    ensures Adds(log, before + [Call(key, time, true, false, true)], key, time, n, from, windowMs)
  {
    var c := Call(key, time, true, false, true);
    var all := before + [c];
    assert all[..|all| - 1] == before;
    assert AdmittedBetween(all, key, from, from + windowMs) == AdmittedBetween(before, key, from, from + windowMs) + 1;
    hide Counted, Slot, AdmittedBetween;
    forall s: nat ensures Counted(all, key, s, windowMs) == Counted(before, key, s, windowMs) + if s == Slot(time, windowMs) then 1 else 0 {
      AddCall(before, c, key, s, windowMs);
    }
  }

  lemma {:induction false} BurstCounts(log: seq<Call>, key: string, time: nat, n: nat, from: nat, limit: nat, windowMs: nat)
    requires windowMs > 0 && Conforms(log, limit, windowMs)
    requires Counted(log, key, Slot(time, windowMs), windowMs) == 0 && n <= limit && from <= time < from + windowMs
    ensures Conforms(log + Burst(key, time, n), limit, windowMs) && Adds(log, log + Burst(key, time, n), key, time, n, from, windowMs)
  {
    hide Conforms, Counted, Slot, AdmittedBetween;
    if n == 0 {
      assert log + Burst(key, time, n) == log;
    } else {
      var before, c := log + Burst(key, time, n - 1), Call(key, time, true, false, true);
      BurstCounts(log, key, time, n - 1, from, limit, windowMs);
      AddConforms(before, c, limit, windowMs);
      hide Adds;
      OneInBurst(log, before, key, time, n, from, windowMs);
      assert log + Burst(key, time, n) == before + [c];
    }
  }

  lemma {:induction false} BurstIs(key: string, time: nat, n: nat)
    ensures |Burst(key, time, n)| == n && forall i :: 0 <= i < n ==> Burst(key, time, n)[i] == Call(key, time, true, false, true)
  {
    if n > 0 {
      BurstIs(key, time, n - 1);
    }
  }

  lemma BurstsAreOrdered(key: string, time: nat, later: nat, n: nat)
    requires time <= later
    ensures var log := Burst(key, time, n) + Burst(key, later, n);
      Ordered(log) && forall i :: 0 <= i < |log| ==> log[i].key == key && log[i].counted && !log[i].lost
  {
    BurstIs(key, time, n);
    BurstIs(key, later, n);
    hide Burst;
  }

  /** A time inside a slot, and the start of the next one. */
  lemma NextSlot(time: nat, windowMs: nat)
    requires windowMs > 0
    ensures var next := (Slot(time, windowMs) + 1) * windowMs;
      && Slot(next, windowMs) == Slot(time, windowMs) + 1 && time < next
      && next <= time + windowMs && (next == time + windowMs <==> time % windowMs == 0)
  {
    InsideSlot(time, windowMs);
    var k, next := Slot(time, windowMs), (Slot(time, windowMs) + 1) * windowMs;
    assert time == k * windowMs + time % windowMs && next == k * windowMs + windowMs;
    InsideSlot(next, windowMs);
    hide Slot;
    Between(Slot(next, windowMs), k + 1, windowMs, next);
  }

  lemma Between(a: nat, b: nat, w: nat, x: nat)
    requires w > 0 && a * w <= x < (a + 1) * w && x == b * w
    ensures a == b
  {
    assert (b + 1) * w == b * w + w;
    CancelLess(b, a + 1, w);
    CancelLess(a, b + 1, w);
  }

  lemma TwoBursts(key: string, from: nat, limit: nat, windowMs: nat)
    requires windowMs > 0 && from % windowMs != 0
    ensures var log := Burst(key, from, limit) + Burst(key, (Slot(from, windowMs) + 1) * windowMs, limit);
      Conforms(log, limit, windowMs) && AdmittedBetween(log, key, from, from + windowMs) == 2 * limit
  {
    assert Conforms([], limit, windowMs) && AdmittedBetween([], key, from, from + windowMs) == 0;
    assert forall slot: nat :: Counted([], key, slot, windowMs) == 0;
    NextSlot(from, windowMs);
    hide Conforms, Slot, Burst, Counted, AdmittedBetween;
    var first, next := Burst(key, from, limit), (Slot(from, windowMs) + 1) * windowMs;
    BurstCounts([], key, from, limit, from, limit, windowMs);
    assert [] + first == first;
    BurstCounts(first, key, next, limit, from, limit, windowMs);
  }

  /** Twice the limit really is admitted, without any fault, in any window-long interval that does not
      start with a slot: `limit` calls at its start and `limit` at the start of the next slot. */
  lemma SlidingBoundIsReached(key: string, from: nat, limit: nat, windowMs: nat) returns (log: seq<Call>)
    requires windowMs > 0 && from % windowMs != 0
    ensures Conforms(log, limit, windowMs) && Ordered(log)
    ensures forall i :: 0 <= i < |log| ==> log[i].key == key && log[i].counted && !log[i].lost
    ensures AdmittedBetween(log, key, from, from + windowMs) == 2 * limit
  {
    NextSlot(from, windowMs);
    var next := (Slot(from, windowMs) + 1) * windowMs;
    hide *;
    BurstsAreOrdered(key, from, next, limit);
    log := Burst(key, from, limit) + Burst(key, next, limit);
    TwoBursts(key, from, limit, windowMs);
  }

  lemma {:induction false} AlignedIsSlot(log: seq<Call>, key: string, from: nat, windowMs: nat)
    requires windowMs > 0 && from % windowMs == 0
    ensures AdmittedBetween(log, key, from, from + windowMs) == AdmittedInSlot(log, key, Slot(from, windowMs), windowMs)
  {
    if log != [] {
      AlignedIsSlot(log[..|log| - 1], key, from, windowMs);
      SlotOfAligned(log[|log| - 1].time, from, windowMs);
      hide Slot;
    }
  }

  lemma SlotOfAligned(time: nat, from: nat, windowMs: nat)
    requires windowMs > 0 && from % windowMs == 0
    ensures Slot(time, windowMs) == Slot(from, windowMs) <==> from <= time < from + windowMs
  {
    InsideSlot(time, windowMs);
    InsideSlot(from, windowMs);
    var k := Slot(from, windowMs);
    assert from == k * windowMs + from % windowMs;
    assert (k + 1) * windowMs == from + windowMs;
    hide Slot;
    if from <= time < from + windowMs {
      CancelLess(k, Slot(time, windowMs) + 1, windowMs);
      CancelLess(Slot(time, windowMs), k + 1, windowMs);
    }
  }

  /** How many calls of `key` the interval of the window's length from `from` admits. */
  function AdmittedInWindow(log: seq<Call>, key: string, from: nat, windowMs: nat): nat {
    AdmittedBetween(log, key, from, from + windowMs)
  }

  /** A window-long interval admits at most the limit in every log that a limiter can have exactly if the
      interval starts with a slot. */
  lemma WindowBoundIff(from: nat, limit: nat, windowMs: nat)
    requires windowMs > 0 && limit > 0
    ensures (forall log, key :: Possible(log, limit, windowMs) ==> AdmittedInWindow(log, key, from, windowMs) <= limit)
       <==> from % windowMs == 0
  {
    hide Conforms, Ordered, AdmittedBetween, AdmittedInSlot;
    if from % windowMs == 0 {
      forall log, key | Possible(log, limit, windowMs) ensures AdmittedInWindow(log, key, from, windowMs) <= limit {
        AlignedIsSlot(log, key, from, windowMs);
        SlotBound(log, key, Slot(from, windowMs), limit, windowMs);
      }
    } else {
      var log := SlidingBoundIsReached("client", from, limit, windowMs);
      assert AdmittedInWindow(log, "client", from, windowMs) > limit;
    }
  }
}
