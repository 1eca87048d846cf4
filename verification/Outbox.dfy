/**
 Leases on outbox messages.  A claim reads the clock, then selects and updates its batch in one
 transaction; the selected rows stay locked until the transaction ends, other transactions skip
 them, and other updates of them wait.  Times are milliseconds on one clock that never goes back.
 */
module Outbox {
  import opened Options
  import Sorting

  type MessageID = string
  type TxID = nat

  datatype Message = Message(
    topic: string, attempts: nat, availableAt: int, lockedAt: Option<int>, dispatchedAt: Option<int>, lastError: string)

  type Rows = map<MessageID, Message>

  const DEFAULT_LIMIT := 20
  const DEFAULT_LEASE := 30000

  function EffectiveLimit(limit: int): int { if limit <= 0 then DEFAULT_LIMIT else limit }

  function EffectiveLease(lease: int): int { if lease <= 0 then DEFAULT_LEASE else lease }

  // ----------------------------------------------------------------------- the statements

  /** The WHERE clause of the claim. */
  predicate Eligible(m: Message, topic: string, now: int, lease: int) {
    m.topic == topic && m.dispatchedAt.None? && m.availableAt <= now && (m.lockedAt.None? || m.lockedAt.value < now - lease)
  }

  predicate Candidate(rows: Rows, skip: set<MessageID>, id: MessageID, topic: string, now: int, lease: int) {
    id in rows && id !in skip && Eligible(rows[id], topic, now, lease)
  }

  /** A possible answer of the locking SELECT, which skips the rows in `skip`: candidates in the
      order of availableAt, at most `limit`, and as many and as early as there are. */
  ghost predicate IsBatch(rows: Rows, skip: set<MessageID>, topic: string, now: int, limit: nat, lease: int, batch: seq<MessageID>) {
    && Sorting.Distinct(batch) && |batch| <= limit
    && (forall i :: 0 <= i < |batch| ==> Candidate(rows, skip, batch[i], topic, now, lease))
    && (forall i, j :: 0 <= i < j < |batch| ==> rows[batch[i]].availableAt <= rows[batch[j]].availableAt)
    && (forall id :: Candidate(rows, skip, id, topic, now, lease) && id !in batch ==>
          |batch| == limit && forall i :: 0 <= i < |batch| ==> rows[batch[i]].availableAt <= rows[id].availableAt)
  }

  function Fetch(rows: Rows, batch: seq<MessageID>): seq<Message>
    requires forall i :: 0 <= i < |batch| ==> batch[i] in rows
  {
    seq(|batch|, i requires 0 <= i < |batch| => rows[batch[i]])
  }

  function ClaimedMessage(m: Message, now: int): Message {
    m.(lockedAt := Some(now), attempts := m.attempts + 1, lastError := "")
  }

  function Claim(rows: Rows, batch: seq<MessageID>, now: int): Rows {
    map id | id in rows :: if id in batch then ClaimedMessage(rows[id], now) else rows[id]
  }

  function Dispatch(rows: Rows, id: MessageID, now: int): Rows {
    if id in rows then rows[id := rows[id].(dispatchedAt := Some(now), lockedAt := None, lastError := "")] else rows
  }

  function Release(rows: Rows, id: MessageID, error: string, availableAt: int): Rows {
    if id in rows then rows[id := rows[id].(lockedAt := None, availableAt := availableAt, lastError := error)] else rows
  }

  // -------------------------------------------------------------------------- the protocol

  datatype Tx =
    | Timed(topic: string, limit: int, lease: int, now: int)
    | Selected(batch: seq<MessageID>, lease: int, now: int)

  datatype Event =
    | Claimed(id: MessageID, at: int, lease: int)
    | Dispatched(id: MessageID)
    | Released(id: MessageID)

  /** `log` is history: the committed changes to each message, oldest first. */
  datatype System = System(rows: Rows, clock: int, txs: map<TxID, Tx>, log: seq<Event>)

  datatype Action =
    | Tick(now: int)
    | Append(id: MessageID, topic: string, availableAt: int)
    | Begin(tx: TxID, topic: string, limit: int, lease: int)
    | Select(tx: TxID, batch: seq<MessageID>)
    | Commit(tx: TxID)
    | Rollback(tx: TxID)
    | MarkDispatched(id: MessageID)
    | MarkReleased(id: MessageID, error: string, retryAt: Option<int>)

  const INIT := System(map[], 0, map[], [])

  function Batch(t: Tx): seq<MessageID> {
    if t.Selected? then t.batch else []
  }

  ghost predicate Locked(s: System, id: MessageID) {
    exists t :: t in s.txs && id in Batch(s.txs[t])
  }

  ghost function LockedRows(s: System): set<MessageID> {
    set id | id in s.rows && Locked(s, id)
  }

  ghost predicate Can(s: System, a: Action) {
    match a
    case Tick(now) => now >= s.clock
    case Append(id, _, _) => id !in s.rows
    case Begin(t, _, _, _) => t !in s.txs
    case Select(t, batch) =>
      t in s.txs && s.txs[t].Timed?
      && IsBatch(s.rows, LockedRows(s), s.txs[t].topic, s.txs[t].now, EffectiveLimit(s.txs[t].limit), EffectiveLease(s.txs[t].lease), batch)
    case Commit(t) => t in s.txs && s.txs[t].Selected?
    case Rollback(t) => t in s.txs
    case MarkDispatched(id) => id in s.rows && !Locked(s, id)
    case MarkReleased(id, _, _) => id in s.rows && !Locked(s, id)
  }

  function ClaimEvents(batch: seq<MessageID>, at: int, lease: int): seq<Event> {
    seq(|batch|, i requires 0 <= i < |batch| => Claimed(batch[i], at, lease))
  }

  function Step(s: System, a: Action): System {
    match a
    case Tick(now) => s.(clock := now)
    case Append(id, topic, at) => s.(rows := s.rows[id := Message(topic, 0, at, None, None, "")])
    case Begin(t, topic, limit, lease) => s.(txs := s.txs[t := Timed(topic, limit, lease, s.clock)])
    case Select(t, batch) =>
      if t in s.txs && s.txs[t].Timed?
      then s.(txs := s.txs[t := Selected(batch, EffectiveLease(s.txs[t].lease), s.txs[t].now)]) else s
    case Commit(t) =>
      if t in s.txs && s.txs[t].Selected? then
        var x := s.txs[t];
        s.(rows := Claim(s.rows, x.batch, x.now), txs := s.txs - {t}, log := s.log + ClaimEvents(x.batch, x.now, x.lease))
      else s
    case Rollback(t) => s.(txs := s.txs - {t})
    case MarkDispatched(id) => s.(rows := Dispatch(s.rows, id, s.clock), log := s.log + [Dispatched(id)])
    case MarkReleased(id, error, at) =>
      s.(rows := Release(s.rows, id, error, if at.None? then s.clock else at.value), log := s.log + [Released(id)])
  }

  // ---------------------------------------------------------------------------- invariant

  /** The state of one message's lease after a log. */
  datatype Lease = Lease(claims: nat, heldSince: Option<int>, dispatched: bool)

  function After(l: Lease, e: Event, id: MessageID): Lease {
    if e.id != id then l
    else
      match e
      case Claimed(_, at, _) => Lease(l.claims + 1, Some(at), l.dispatched)
      case Dispatched(_) => Lease(l.claims, None, true)
      case Released(_) => Lease(l.claims, None, l.dispatched)
  }

  function LeaseOf(log: seq<Event>, id: MessageID): Lease {
    if log == [] then Lease(0, None, false) else After(LeaseOf(log[..|log| - 1], id), log[|log| - 1], id)
  }

  /** A log in which every claim respects the lease that the previous events left. */
  predicate Respects(log: seq<Event>) {
    log == [] || (
      var init, e := log[..|log| - 1], log[|log| - 1];
      && Respects(init)
      && (e.Claimed? ==>
            var l := LeaseOf(init, e.id);
            !l.dispatched && e.lease > 0 && (l.heldSince.Some? ==> e.at - l.heldSince.value > e.lease)))
  }

  predicate RowOk(m: Message, l: Lease) {
    m.attempts == l.claims && m.lockedAt == l.heldSince && (m.dispatchedAt.Some? <==> l.dispatched)
  }

  /** The rows show the leases that the log leaves. */
  ghost predicate RowsShow(rows: Rows, log: seq<Event>) {
    && (forall id :: id in rows ==> RowOk(rows[id], LeaseOf(log, id)))
    && (forall id :: id !in rows ==> LeaseOf(log, id) == Lease(0, None, false))
  }

  ghost predicate TxsOk(rows: Rows, clock: int, txs: map<TxID, Tx>) {
    && (forall t :: t in txs ==> txs[t].now <= clock)
    && (forall t :: t in txs && txs[t].Selected? ==> TxOk(rows, txs[t]))
  }

  ghost predicate DisjointBatches(txs: map<TxID, Tx>) {
    forall t, u, id :: t in txs && u in txs && id in Batch(txs[t]) && id in Batch(txs[u]) ==> t == u
  }

  ghost predicate Inv(s: System) {
    Respects(s.log) && RowsShow(s.rows, s.log) && TxsOk(s.rows, s.clock, s.txs) && DisjointBatches(s.txs)
  }

  /** The rows of an open transaction are still as the SELECT found them. */
  predicate TxOk(rows: Rows, x: Tx)
    requires x.Selected?
  {
    x.lease > 0 && Sorting.Distinct(x.batch) && forall id :: id in x.batch ==> id in rows && Eligible(rows[id], rows[id].topic, x.now, x.lease)
  }

  // ------------------------------------------------------------------------- preservation

  lemma OneMore(log: seq<Event>, e: Event, id: MessageID)
    ensures LeaseOf(log + [e], id) == After(LeaseOf(log, id), e, id)
    ensures Respects(log + [e]) <==> Respects(log) && (e.Claimed? ==>
              var l := LeaseOf(log, e.id);
              !l.dispatched && e.lease > 0 && (l.heldSince.Some? ==> e.at - l.heldSince.value > e.lease))
  {
    assert (log + [e])[..|log|] == log;
  }

  lemma Logged(log: seq<Event>, e: Event)
    ensures forall id :: LeaseOf(log + [e], id) == After(LeaseOf(log, id), e, id)
    ensures !e.Claimed? ==> (Respects(log + [e]) <==> Respects(log))
  {
    hide LeaseOf, Respects, After;
    forall id ensures LeaseOf(log + [e], id) == After(LeaseOf(log, id), e, id) {
      OneMore(log, e, id);
    }
    OneMore(log, e, e.id);
  }

  /** Claiming a batch of distinct eligible messages. */
  lemma {:induction false} ClaimsRespect(log: seq<Event>, rows: Rows, x: Tx, n: nat)
    requires x.Selected? && TxOk(rows, x) && n <= |x.batch| && Respects(log)
    requires forall id :: id in rows ==> RowOk(rows[id], LeaseOf(log, id))
    ensures var log' := log + ClaimEvents(x.batch, x.now, x.lease)[..n];
      && Respects(log')
      && (forall id :: LeaseOf(log', id) ==
            if id in x.batch[..n] then After(LeaseOf(log, id), Claimed(id, x.now, x.lease), id) else LeaseOf(log, id))
  {
    var events := ClaimEvents(x.batch, x.now, x.lease);
    if n == 0 {
      assert log + events[..0] == log;
    } else {
      hide LeaseOf, Respects;
      ClaimsRespect(log, rows, x, n - 1);
      var before, e := log + events[..n - 1], Claimed(x.batch[n - 1], x.now, x.lease);
      NextClaim(log, x, n);
      Logged(before, e);
      OneMore(before, e, e.id);
      assert LeaseOf(before, e.id) == LeaseOf(log, e.id);
      EligibleRespects(rows[e.id], LeaseOf(log, e.id), x);
      hide RowOk, TxOk, After, ClaimEvents;
    }
  }

  /** A message that the SELECT finds has a lease that lets it be claimed. */
  lemma EligibleRespects(m: Message, l: Lease, x: Tx)
    requires x.Selected? && RowOk(m, l) && Eligible(m, m.topic, x.now, x.lease)
    ensures !l.dispatched && (l.heldSince.Some? ==> x.now - l.heldSince.value > x.lease)
  {
  }

  lemma NextClaim(log: seq<Event>, x: Tx, n: nat)
    requires x.Selected? && 0 < n <= |x.batch| && Sorting.Distinct(x.batch)
    ensures var events := ClaimEvents(x.batch, x.now, x.lease);
      log + events[..n] == log + events[..n - 1] + [Claimed(x.batch[n - 1], x.now, x.lease)]
    ensures x.batch[n - 1] !in x.batch[..n - 1] && x.batch[n - 1] in x.batch
    ensures forall id :: id in x.batch[..n] <==> id in x.batch[..n - 1] || id == x.batch[n - 1]
  {
    var events := ClaimEvents(x.batch, x.now, x.lease);
    assert events[..n] == events[..n - 1] + [events[n - 1]];
    hide ClaimEvents;
    assert x.batch[..n] == x.batch[..n - 1] + [x.batch[n - 1]];
  }

  /** The whole batch. */
  lemma AllClaimed(log: seq<Event>, rows: Rows, x: Tx)
    requires x.Selected? && TxOk(rows, x) && Respects(log)
    requires forall id :: id in rows ==> RowOk(rows[id], LeaseOf(log, id))
    ensures var log' := log + ClaimEvents(x.batch, x.now, x.lease);
      && Respects(log')
      && (forall id :: LeaseOf(log', id) ==
            if id in x.batch then After(LeaseOf(log, id), Claimed(id, x.now, x.lease), id) else LeaseOf(log, id))
  {
    ClaimsRespect(log, rows, x, |x.batch|);
    hide LeaseOf, Respects, After, RowOk, TxOk;
    var events := ClaimEvents(x.batch, x.now, x.lease);
    assert x.batch[..|x.batch|] == x.batch && events[..|x.batch|] == events;
  }

  lemma CommitKeeps(s: System, t: TxID)
    requires Inv(s) && Can(s, Commit(t))
    ensures Inv(Step(s, Commit(t)))
  {
    var s', x := Step(s, Commit(t)), s.txs[t];
    assert s'.rows == Claim(s.rows, x.batch, x.now) && s'.log == s.log + ClaimEvents(x.batch, x.now, x.lease);
    assert s'.txs == s.txs - {t} && s'.clock == s.clock && TxOk(s.rows, x);
    forall u | u in s'.txs && s'.txs[u].Selected? ensures TxOk(s'.rows, s'.txs[u]) {
      hide Step, Can, RowsShow, ClaimEvents, Claim, LeaseOf, Respects;
      OtherTx(s, t, u);
    }
    hide Step, Can, TxOk, ClaimEvents, LeaseOf, Respects;
    CommitShows(s.log, s.rows, x);
    hide RowsShow, Claim, Batch;
  }

  lemma CommitShows(log: seq<Event>, rows: Rows, x: Tx)
    requires x.Selected? && TxOk(rows, x) && Respects(log) && RowsShow(rows, log)
    ensures var log' := log + ClaimEvents(x.batch, x.now, x.lease);
      Respects(log') && RowsShow(Claim(rows, x.batch, x.now), log')
  {
    AllClaimed(log, rows, x);
    assert forall id :: id !in rows ==> id !in x.batch;
    hide LeaseOf, Respects, ClaimEvents, TxOk;
  }

  lemma OtherTx(s: System, t: TxID, u: TxID)
    requires Inv(s) && t in s.txs && u in s.txs && t != u && s.txs[t].Selected? && s.txs[u].Selected?
    ensures TxOk(Claim(s.rows, s.txs[t].batch, s.txs[t].now), s.txs[u])
  {
    hide LeaseOf, Respects, RowOk;
    forall id | id in s.txs[u].batch ensures id !in s.txs[t].batch {
      assert id in Batch(s.txs[u]);
      assert id in Batch(s.txs[t]) ==> t == u;
    }
    assert TxOk(s.rows, s.txs[u]);
  }

  lemma MarkKeeps(s: System, a: Action)
    requires Inv(s) && Can(s, a) && (a.MarkDispatched? || a.MarkReleased?)
    ensures Inv(Step(s, a))
  {
    var s' := Step(s, a);
    var e := if a.MarkDispatched? then Dispatched(a.id) else Released(a.id);
    assert s'.log == s.log + [e] && s'.txs == s.txs && s'.clock == s.clock;
    assert a.id in s.rows && !Locked(s, a.id);
    MarkedRow(s, a);
    hide Step, Can, LeaseOf, RowsShow, TxsOk, DisjointBatches, Locked, Respects;
    MarkShows(s.rows, s'.rows, s.log, e);
    MarkTxs(s, s'.rows, a.id);
    Logged(s.log, e);
  }

  /** What marking does to the rows. */
  lemma MarkedRow(s: System, a: Action)
    requires (a.MarkDispatched? || a.MarkReleased?) && a.id in s.rows
    ensures var rows := Step(s, a).rows; var e := if a.MarkDispatched? then Dispatched(a.id) else Released(a.id);
      && rows.Keys == s.rows.Keys
      && (forall id :: id in rows && id != a.id ==> rows[id] == s.rows[id])
      && (RowOk(s.rows[a.id], LeaseOf(s.log, a.id)) ==> RowOk(rows[a.id], After(LeaseOf(s.log, a.id), e, a.id)))
  {
    hide LeaseOf;
  }

  lemma MarkShows(rows: Rows, rows': Rows, log: seq<Event>, e: Event)
    requires RowsShow(rows, log) && e.id in rows && rows'.Keys == rows.Keys
    requires forall id :: id in rows && id != e.id ==> rows'[id] == rows[id]
    requires RowOk(rows[e.id], LeaseOf(log, e.id)) ==> RowOk(rows'[e.id], After(LeaseOf(log, e.id), e, e.id))
    ensures RowsShow(rows', log + [e])
  {
    hide LeaseOf, RowOk;
    forall id ensures LeaseOf(log + [e], id) == if id == e.id then After(LeaseOf(log, id), e, id) else LeaseOf(log, id) {
      OneMore(log, e, id);
    }
    hide After;
  }

  lemma MarkTxs(s: System, rows: Rows, id: MessageID)
    requires TxsOk(s.rows, s.clock, s.txs) && !Locked(s, id) && rows.Keys == s.rows.Keys
    requires forall i :: i in rows && i != id ==> rows[i] == s.rows[i]
    ensures TxsOk(rows, s.clock, s.txs)
  {
    forall u | u in s.txs && s.txs[u].Selected? ensures TxOk(rows, s.txs[u]) {
      assert id !in Batch(s.txs[u]);
      TxUntouched(s.rows, rows, s.txs[u], id);
    }
    hide TxOk;
  }

  lemma TxUntouched(rows: Rows, rows': Rows, x: Tx, id: MessageID)
    requires x.Selected? && TxOk(rows, x) && id !in x.batch && rows'.Keys == rows.Keys
    requires forall i :: i in rows && i != id ==> rows'[i] == rows[i]
    ensures TxOk(rows', x)
  {
    hide Eligible, Sorting.Distinct;
  }

  lemma SelectedOk(s: System, t: TxID, batch: seq<MessageID>)
    requires Can(s, Select(t, batch))
    ensures Step(s, Select(t, batch)).txs[t].Selected? && TxOk(s.rows, Step(s, Select(t, batch)).txs[t])
    ensures forall u, id :: u in s.txs && id in batch ==> id !in Batch(s.txs[u])
  {
    var x := s.txs[t];
    forall id | id in batch
      ensures id in s.rows && Eligible(s.rows[id], s.rows[id].topic, x.now, EffectiveLease(x.lease)) && !Locked(s, id)
    {
      assert Candidate(s.rows, LockedRows(s), id, x.topic, x.now, EffectiveLease(x.lease));
    }
    hide IsBatch, Eligible;
  }

  lemma SelectKeeps(s: System, t: TxID, batch: seq<MessageID>)
    requires Inv(s) && Can(s, Select(t, batch))
    ensures Inv(Step(s, Select(t, batch)))
  {
    SelectedOk(s, t, batch);
    hide LeaseOf, Respects, TxOk, RowOk, IsBatch, Locked, LockedRows;
  }

  lemma StepInv(s: System, a: Action)
    requires Inv(s) && Can(s, a)
    ensures Inv(Step(s, a))
  {
    match a {
      case Select(t, batch) => SelectKeeps(s, t, batch);
      case Commit(t) => CommitKeeps(s, t);
      case MarkDispatched(_) => MarkKeeps(s, a);
      case MarkReleased(_, _, _) => MarkKeeps(s, a);
      case _ => hide LeaseOf, Respects, Eligible;
    }
  }

  // ------------------------------------------------------------------------ safety of logs

  lemma {:induction false} RespectsPrefix(log: seq<Event>, n: nat)
    requires Respects(log) && n <= |log|
    ensures Respects(log[..n])
    ensures n < |log| && log[n].Claimed? ==>
              var l := LeaseOf(log[..n], log[n].id);
              !l.dispatched && log[n].lease > 0 && (l.heldSince.Some? ==> log[n].at - l.heldSince.value > log[n].lease)
  {
    if n == |log| {
      assert log[..n] == log;
    } else if n < |log| - 1 {
      RespectsPrefix(log[..|log| - 1], n);
      assert log[..|log| - 1][..n] == log[..n];
    }
  }

  /** Between a claim and a later point without release or dispatch, the lease is held, since
      the first claim or later. */
  lemma {:induction false} StaysHeld(log: seq<Event>, i: nat, j: nat)
    requires Respects(log) && i < j <= |log| && log[i].Claimed?
    requires forall k :: i < k < j ==> log[k] != Released(log[i].id) && log[k] != Dispatched(log[i].id)
    ensures LeaseOf(log[..j], log[i].id).heldSince.Some? && LeaseOf(log[..j], log[i].id).heldSince.value >= log[i].at
  {
    var m := j - 1;
    assert log[..j] == log[..m] + [log[m]];
    OneMore(log[..m], log[m], log[i].id);
    if i < m {
      StaysHeld(log, i, m);
      RespectsPrefix(log, m);
    }
  }

  lemma {:induction false} StaysDispatched(log: seq<Event>, i: nat, j: nat)
    requires i < j <= |log| && log[i].Dispatched?
    ensures LeaseOf(log[..j], log[i].id).dispatched
  {
    var m := j - 1;
    assert log[..j] == log[..m] + [log[m]];
    OneMore(log[..m], log[m], log[i].id);
    if i < m {
      StaysDispatched(log, i, m);
    }
  }

  /** A dispatched message is never claimed again. */
  lemma NeverClaimedAfterDispatch(log: seq<Event>, i: nat, j: nat)
    requires Respects(log) && i < j < |log| && log[i].Dispatched? && log[j].id == log[i].id
    ensures !log[j].Claimed?
  {
    StaysDispatched(log, i, j);
    RespectsPrefix(log, j);
  }

  /** Two claims of one message without a release between them are more than the later claim's
      lease apart. */
  lemma LeaseSeparates(log: seq<Event>, i: nat, j: nat)
    requires Respects(log) && i < j < |log| && log[i].Claimed? && log[j].Claimed? && log[j].id == log[i].id
    requires forall k :: i < k < j ==> log[k] != Released(log[i].id)
    ensures log[j].at - log[i].at > log[j].lease
  {
    forall k | i < k < j ensures log[k] != Dispatched(log[i].id) {
      if log[k] == Dispatched(log[i].id) {
        NeverClaimedAfterDispatch(log, k, j);
      }
    }
    StaysHeld(log, i, j);
    RespectsPrefix(log, j);
  }

  // ---------------------------------------------------------------------------------- runs

  ghost predicate CanRun(run: seq<Action>)
    decreases |run|, 0
  {
    run == [] || (CanRun(run[..|run| - 1]) && Can(Run(run[..|run| - 1]), run[|run| - 1]))
  }

  ghost function Run(run: seq<Action>): System
    requires CanRun(run)
    decreases |run|, 1
  {
    if run == [] then INIT else Step(Run(run[..|run| - 1]), run[|run| - 1])
  }

  lemma {:induction false} RunInv(run: seq<Action>)
    requires CanRun(run)
    ensures Inv(Run(run))
  {
    if run != [] {
      RunInv(run[..|run| - 1]);
      StepInv(Run(run[..|run| - 1]), run[|run| - 1]);
    }
  }

  /** However transactions interleave, the committed claims respect the leases, so the log
      theorems above hold of every run; and open transactions have disjoint batches. */
  lemma RunsRespectLeases(run: seq<Action>)
    requires CanRun(run)
    ensures Respects(Run(run).log)
    ensures var txs := Run(run).txs;
      forall t, u, id :: t in txs && u in txs && id in Batch(txs[t]) && id in Batch(txs[u]) ==> t == u
  {
    RunInv(run);
  }

  /** At any time, an undispatched message can be selected exactly after max(availableAt,
      lockedAt + lease); whoever asks for it then gets it, unless an open transaction has it or
      the limit is filled with messages that became available no later. */
  lemma ClaimableAfterLease(s: System, t: TxID, batch: seq<MessageID>, id: MessageID)
    requires Inv(s) && Can(s, Select(t, batch)) && id in s.rows && s.rows[id].topic == s.txs[t].topic
    ensures var x, m := s.txs[t], s.rows[id]; var lease := EffectiveLease(x.lease);
      var due := LeaseOf(s.log, id);
      var open := !due.dispatched && x.now >= m.availableAt && (due.heldSince.Some? ==> x.now > due.heldSince.value + lease);
      && (id in batch ==> open && !Locked(s, id))
      && (open && !Locked(s, id) && id !in batch ==>
            |batch| == EffectiveLimit(x.limit) && forall i :: 0 <= i < |batch| ==> batch[i] in s.rows && s.rows[batch[i]].availableAt <= m.availableAt)
  {
    hide LeaseOf, Respects;
    var x := s.txs[t];
    assert RowOk(s.rows[id], LeaseOf(s.log, id));
    assert id in LockedRows(s) <==> Locked(s, id);
    if id in batch {
      var i :| 0 <= i < |batch| && batch[i] == id;
      assert Candidate(s.rows, LockedRows(s), batch[i], x.topic, x.now, EffectiveLease(x.lease));
    } else if !Locked(s, id) && Eligible(s.rows[id], x.topic, x.now, EffectiveLease(x.lease)) {
      assert Candidate(s.rows, LockedRows(s), id, x.topic, x.now, EffectiveLease(x.lease));
    }
  }

  /** What one claim does, for the limit and the lease that its caller asks for: zero or less means 20 messages and
      30 seconds.  The batch is in the order in which its messages become available.  It takes only undispatched messages of the topic whose time has come and whose lease, if any, is
      older than the one asked for; it leaves out another such message only if a transaction holds it or the batch is full
      of messages that came no later; it locks and counts what it takes and changes nothing else. */
  lemma ClaimOutcome(rows: Rows, skip: set<MessageID>, topic: string, now: int, limit: int, lease: int, batch: seq<MessageID>, id: MessageID)
    requires IsBatch(rows, skip, topic, now, EffectiveLimit(limit), EffectiveLease(lease), batch) && id in rows
    ensures var most, age := if limit <= 0 then 20 else limit, if lease <= 0 then 30000 else lease;
      var m := rows[id];
      var due := m.topic == topic && m.dispatchedAt == None && m.availableAt <= now && (m.lockedAt.None? || now - m.lockedAt.value > age);
      var after := Claim(rows, batch, now);
      && |batch| <= most && after.Keys == rows.Keys
      && (forall i, j :: 0 <= i < j < |batch| && batch[i] in rows && batch[j] in rows ==> rows[batch[i]].availableAt <= rows[batch[j]].availableAt)
      && (id in batch ==> due && id !in skip && after[id] == Message(topic, m.attempts + 1, m.availableAt, Some(now), None, ""))
      && (id !in batch ==> after[id] == m)
      && (due && id !in skip && id !in batch ==>
            |batch| == most && forall i :: 0 <= i < |batch| ==> batch[i] in rows && rows[batch[i]].availableAt <= m.availableAt)
  {
    var age := EffectiveLease(lease);
    if id in batch {
      var i :| 0 <= i < |batch| && batch[i] == id;
      assert Candidate(rows, skip, batch[i], topic, now, age);
    } else if id !in skip && Eligible(rows[id], topic, now, age) {
      assert Candidate(rows, skip, id, topic, now, age);
      forall i | 0 <= i < |batch| ensures batch[i] in rows {
        assert Candidate(rows, skip, batch[i], topic, now, age);
      }
    }
  }

  /** Release does not ask who holds the lease: it reopens the message at once, for everybody,
      exactly if it is undispatched and its new availableAt has come. */
  lemma ReleaseReopens(s: System, id: MessageID, error: string, retryAt: Option<int>, lease: int)
    requires Can(s, MarkReleased(id, error, retryAt))
    ensures var m := Step(s, MarkReleased(id, error, retryAt)).rows[id];
      Eligible(m, m.topic, s.clock, lease) <==> s.rows[id].dispatchedAt.None? && (retryAt.None? || retryAt.value <= s.clock)
  {
  }

  // ------------------------------------------------------------------------ the Go methods

  /** The table as the store's methods change it.  `run` and `sys` are ghost: the steps taken so far, by
      these calls and by the transactions of other processes, and where they have led. */
  class GormStore {
    var rows: Rows
    ghost var run: seq<Action>
    ghost var sys: System

    ghost predicate Valid()
      reads this
    {
      CanRun(run) && sys == Run(run) && sys.rows == rows
    }

    constructor ()
      ensures Valid() && sys == INIT
    {
      rows, run, sys := map[], [], INIT;
    }

    ghost method Did(a: Action)
      requires CanRun(run) && sys == Run(run) && Can(sys, a)
      modifies this`run, this`sys
      ensures CanRun(run) && sys == Run(run) && run == old(run) + [a] && sys == Step(old(sys), a)
    {
      assert (run + [a])[..|run|] == run;
      run, sys := run + [a], Step(sys, a);
    }

    /** Time passes, and other processes begin, select and roll back. */
    ghost method Elsewhere(a: Action)
      requires Valid() && Can(sys, a) && (a.Tick? || a.Begin? || a.Select? || a.Rollback?)
      modifies this`run, this`sys
      ensures Valid() && sys == Step(old(sys), a)
    {
      Did(a);
    }

    /** Another process commits the batch it has selected. */
    method CommitElsewhere(batch: seq<MessageID>, now: int, ghost lease: int, ghost t: TxID)
      requires Valid() && t in sys.txs && sys.txs[t] == Selected(batch, lease, now)
      modifies this
      ensures Valid() && sys == Step(old(sys), Commit(t)) && rows == Claim(old(rows), batch, now)
    {
      Did(Commit(t));
      rows := Claim(rows, batch, now);
    }

    method Append(id: MessageID, topic: string, availableAt: int)
      requires Valid() && id !in rows
      modifies this
      ensures Valid() && sys == Step(old(sys), Action.Append(id, topic, availableAt))
      ensures rows == old(rows)[id := Message(topic, 0, availableAt, None, None, "")]
    {
      Did(Action.Append(id, topic, availableAt));
      rows := rows[id := Message(topic, 0, availableAt, None, None, "")];
    }

    /** `batch` is the database's answer to the SELECT, which skips what open transactions hold. */
    method ClaimOutboxMessages(topic: string, limit: int, lease: int, now: int, batch: seq<MessageID>, ghost t: TxID)
      returns (items: seq<Message>)
      requires Valid() && t !in sys.txs && now >= sys.clock
      requires IsBatch(rows, LockedRows(sys), topic, now, EffectiveLimit(limit), EffectiveLease(lease), batch)
      modifies this
      ensures Valid() && sys.clock == now && sys.txs == old(sys.txs)
      ensures sys.log == old(sys.log) + ClaimEvents(batch, now, if lease <= 0 then 30000 else lease)
      ensures rows == Claim(old(rows), batch, now)
      ensures (forall i :: 0 <= i < |batch| ==> batch[i] in rows) && items == Fetch(rows, batch)
      ensures |items| == |batch| && forall i :: 0 <= i < |batch| ==> items[i] == rows[batch[i]]
    {
      ClaimSteps(sys, topic, limit, lease, now, batch, t);
      hide Can, Step, CanRun, Run, IsBatch, LockedRows, ClaimEvents;
      Did(Tick(now));
      Did(Begin(t, topic, limit, lease));
      Did(Select(t, batch));
      Did(Commit(t));
      items := ClaimBatch(batch, now);
    }

    /** The updates of the transaction, and the models it returns. */
    method ClaimBatch(batch: seq<MessageID>, now: int) returns (items: seq<Message>)
      requires forall i :: 0 <= i < |batch| ==> batch[i] in rows
      modifies this`rows
      ensures rows == Claim(old(rows), batch, now)
      ensures (forall i :: 0 <= i < |batch| ==> batch[i] in rows) && items == Fetch(rows, batch)
    {
      var models := Fetch(rows, batch);
      if |models| == 0 {
        assert rows == Claim(rows, batch, now);
        return [];
      }
      rows := Claim(rows, batch, now);
      items := [];
      for i := 0 to |models|
        invariant |items| == i
        invariant forall k :: 0 <= k < i ==> batch[k] in rows && items[k] == rows[batch[k]]
      {
        assert batch[i] in batch;
        items := items + [models[i].(attempts := models[i].attempts + 1, lockedAt := Some(now), lastError := "")];
      }
    }

    /** The UPDATE waits while an open transaction holds the row; an unknown id updates nothing. */
    method MarkOutboxDispatched(id: MessageID, now: int)
      requires Valid() && !Locked(sys, id) && now >= sys.clock
      modifies this
      ensures Valid() && sys.clock == now && sys.txs == old(sys.txs)
      ensures sys.log == old(sys.log) + if id in old(rows) then [Dispatched(id)] else []
      ensures rows == Dispatch(old(rows), id, now)
      ensures rows.Keys == old(rows).Keys && forall i :: i in rows && i != id ==> rows[i] == old(rows)[i]
      ensures id in rows ==>
        rows[id].dispatchedAt == Some(now) && rows[id].lockedAt == None && rows[id].attempts == old(rows)[id].attempts
    {
      MarkSteps(sys, id, now, "", None);
      hide Can, CanRun, Run, Locked;
      Did(Tick(now));
      if id in rows {
        Did(MarkDispatched(id));
        rows := rows[id := rows[id].(dispatchedAt := Some(now), lockedAt := None, lastError := "")];
      }
    }

    /** No `availableAt`, the zero time, means now. */
    method ReleaseOutboxMessage(id: MessageID, error: string, availableAt: Option<int>, now: int)
      requires Valid() && !Locked(sys, id) && now >= sys.clock
      modifies this
      ensures Valid() && sys.clock == now && sys.txs == old(sys.txs)
      ensures sys.log == old(sys.log) + if id in old(rows) then [Released(id)] else []
      ensures rows == Release(old(rows), id, error, if availableAt.None? then now else availableAt.value)
      ensures rows.Keys == old(rows).Keys && forall i :: i in rows && i != id ==> rows[i] == old(rows)[i]
      ensures id in rows ==>
        && rows[id].availableAt == (if availableAt.None? then now else availableAt.value) && rows[id].lockedAt == None
        && rows[id].lastError == error && rows[id].dispatchedAt == old(rows)[id].dispatchedAt
    {
      MarkSteps(sys, id, now, error, availableAt);
      hide Can, CanRun, Run, Locked;
      Did(Tick(now));
      var from := if availableAt.None? then now else availableAt.value;
      if id in rows {
        Did(MarkReleased(id, error, availableAt));
        rows := rows[id := rows[id].(lockedAt := None, availableAt := from, lastError := error)];
      }
    }
  }

  lemma ClaimSteps(s: System, topic: string, limit: int, lease: int, now: int, batch: seq<MessageID>, t: TxID)
    requires t !in s.txs && now >= s.clock
    requires IsBatch(s.rows, LockedRows(s), topic, now, EffectiveLimit(limit), EffectiveLease(lease), batch)
    ensures Can(s, Tick(now))
    ensures var s1 := Step(s, Tick(now)); var s2 := Step(s1, Begin(t, topic, limit, lease)); var s3 := Step(s2, Select(t, batch));
      && Can(s1, Begin(t, topic, limit, lease)) && Can(s2, Select(t, batch)) && Can(s3, Commit(t))
      && Step(s3, Commit(t)) == s.(rows := Claim(s.rows, batch, now), clock := now,
                                   log := s.log + ClaimEvents(batch, now, EffectiveLease(lease)))
    ensures forall i :: 0 <= i < |batch| ==> batch[i] in s.rows
  {
    assert forall i :: 0 <= i < |batch| ==> Candidate(s.rows, LockedRows(s), batch[i], topic, now, EffectiveLease(lease));
    var s2 := Step(Step(s, Tick(now)), Begin(t, topic, limit, lease));
    SameLocks(s, s2, t, Timed(topic, limit, lease, now));
    hide IsBatch, Claim, ClaimEvents, Locked, LockedRows;
  }

  lemma SameLocks(s: System, s2: System, t: TxID, x: Tx)
    requires t !in s.txs && s2.rows == s.rows && x.Timed? && s2.txs == s.txs[t := x]
    ensures LockedRows(s2) == LockedRows(s)
  {
    forall id ensures Locked(s2, id) <==> Locked(s, id) {
      if Locked(s, id) {
        var u :| u in s.txs && id in Batch(s.txs[u]);
        assert u in s2.txs && id in Batch(s2.txs[u]);
      }
    }
    hide Locked;
  }

  lemma MarkSteps(s: System, id: MessageID, now: int, error: string, retryAt: Option<int>)
    requires now >= s.clock && !Locked(s, id)
    ensures Can(s, Tick(now))
    ensures id in s.rows ==> Can(Step(s, Tick(now)), MarkDispatched(id)) && Can(Step(s, Tick(now)), MarkReleased(id, error, retryAt))
  {
  }

  /** Read off the table, whatever methods were called and whatever other processes did: claims of one
      message with no release between them are more than the later lease apart, none follows a dispatch,
      and a row counts its claims and shows its lease. */
  lemma StoreRespectsLeases(store: GormStore, i: nat, j: nat)
    requires store.Valid() && i < j < |store.sys.log| && store.sys.log[j].Claimed? && store.sys.log[i].id == store.sys.log[j].id
    ensures !store.sys.log[i].Dispatched?
    ensures store.sys.log[i].Claimed? && (forall k :: i < k < j ==> store.sys.log[k] != Released(store.sys.log[i].id)) ==>
      store.sys.log[j].at - store.sys.log[i].at > store.sys.log[j].lease
    ensures var id := store.sys.log[j].id; id in store.rows && RowOk(store.rows[id], LeaseOf(store.sys.log, id))
  {
    var log := store.sys.log;
    RunInv(store.run);
    hide Run, CanRun;
    if log[i].Dispatched? {
      NeverClaimedAfterDispatch(log, i, j);
    } else if log[i].Claimed? && forall k :: i < k < j ==> log[k] != Released(log[i].id) {
      LeaseSeparates(log, i, j);
    }
    ClaimsCount(log, j);
  }

  lemma {:induction false} ClaimsCount(log: seq<Event>, j: nat)
    requires j < |log| && log[j].Claimed?
    ensures LeaseOf(log, log[j].id).claims > 0
  {
    if j < |log| - 1 {
      ClaimsCount(log[..|log| - 1], j);
    }
  }
}
