/**
 The job queue and its store as objects whose methods change them.  Every call is a sequence of the
 steps of module JobQueue, so what is proved there of all runs holds of these objects.
 */
module RabbitMQQueue {
  import opened JobQueue
  import opened Options
  import Sorting

  /** How a store call goes: a failing one may have taken effect. */
  datatype Call = Works | Fails(applied: bool)

  datatype Marking = MarkedJob(job: Job) | JobTerminal | MarkError

  // ---------------------------------------------------------------------- the job store

  function RowsAfterMarking(rows: Rows, j: JobID, call: Call): Rows {
    if call == Fails(false) || j !in rows || Terminal(rows, j) then rows else Marked(rows, j)
  }

  function RowsAfterUpdate(rows: Rows, j: JobID, status: Status, call: Call): Rows {
    if call == Fails(false) then rows else Updated(rows, j, status)
  }

  /** The rows a query for active jobs of the key selects. */
  function ActiveOf(rows: Rows, key: Key): set<JobID> {
    set j | j in rows && Active(rows, j) && rows[j].key == key
  }

  lemma NoneActive(rows: Rows, key: Key)
    requires ActiveOf(rows, key) == {}
    ensures IsFound(rows, key, None)
  {
    forall i | i in rows && Active(rows, i) ensures rows[i].key != key {
      assert i !in ActiveOf(rows, key);
    }
  }

  lemma FoundIff(rows: Rows, key: Key, found: Option<JobID>)
    requires IsFound(rows, key, found)
    ensures if found.Some? then found.value in ActiveOf(rows, key) else ActiveOf(rows, key) == {}
  {
  }

  lemma OthersCollide(rows: Rows, j: JobID, key: Key)
    ensures ActiveOf(rows, key) - {j} != {} <==> Collides(rows, j, key)
  {
    if Collides(rows, j, key) {
      var i :| i in rows && i != j && Active(rows, i) && rows[i].key == key;
      assert i in ActiveOf(rows, key) - {j};
    } else if i :| i in ActiveOf(rows, key) - {j} {
      assert false;
    }
  }

  /** The step a worker's store call makes. */
  function MarkAction(w: WorkerID, call: Call): Action {
    if call.Fails? then StoreError(w, call.applied) else Action.MarkProcessing(w)
  }

  lemma MarkStep(s: System, w: WorkerID, j: JobID, call: Call, maxRetries: nat)
    requires w in s.workers && s.workers[w] == Got(j)
    ensures Can(s, MarkAction(w, call))
    ensures var s' := Step(s, MarkAction(w, call), maxRetries);
      && s'.rows == RowsAfterMarking(s.rows, j, call)
      && s'.main == s.main && s'.dlq == s.dlq && s'.flight == s.flight
      && s'.workers == s.workers[w :=
        if call.Fails? || j !in s.rows then Requeueing(j)
        else if Terminal(s.rows, j) then Acking(j)
        else Handling(j, s.rows[j].attempts + 1)]
  {
    hide AfterUpdate, AfterError, AfterSettling, AfterCrash, AfterDelivery, CallerStep, CallerAt, Bump;
    if call.Fails? {
      hide AfterMark;
    } else {
      hide AfterStoreError;
    }
  }

  lemma HandleStep(s: System, w: WorkerID, j: JobID, attempts: nat, handled: bool, maxRetries: nat)
    requires w in s.workers && s.workers[w] == Handling(j, attempts)
    ensures Can(s, Handle(w, handled))
    ensures Step(s, Handle(w, handled), maxRetries)
      == s.(workers := s.workers[w := if handled then Succeeded(j, attempts) else Erred(j, attempts)])
  {
  }

  function UpdateAction(w: WorkerID, handled: bool, call: Call): Action {
    if call.Fails? then StoreError(w, call.applied) else if handled then MarkDone(w) else HandleError(w)
  }

  /** What a worker writes at the end of a delivery. */
  function Outcome(handled: bool, attempts: nat, maxRetries: nat): Status {
    if handled then Done else if attempts >= maxRetries then Failed else Queued
  }

  lemma UpdateStep(s: System, w: WorkerID, j: JobID, attempts: nat, handled: bool, call: Call, maxRetries: nat)
    requires w in s.workers && s.workers[w] == if handled then Succeeded(j, attempts) else Erred(j, attempts)
    ensures Can(s, UpdateAction(w, handled, call))
    ensures var s' := Step(s, UpdateAction(w, handled, call), maxRetries);
      var status := Outcome(handled, attempts, maxRetries);
      && s'.rows == RowsAfterUpdate(s.rows, j, status, call)
      && s'.main == s.main && s'.dlq == s.dlq && s'.flight == s.flight
      && s'.workers == s.workers[w :=
        if call.Fails? || status.Queued? then Requeueing(j) else if handled then Acking(j) else DeadLettering(j)]
  {
    hide Collides, Rejected, Updated, AfterMark, AfterSettling, AfterCrash, AfterDelivery, CallerStep, CallerAt, Bump;
    if call.Fails? {
      hide AfterError;
    } else {
      hide AfterStoreError;
    }
  }

  /** The rows after a whole delivery. */
  function RowsAfterDelivery(rows: Rows, j: JobID, mark: Call, handled: bool, update: Call, maxRetries: nat): Rows {
    if mark.Fails? || j !in rows || Terminal(rows, j) then RowsAfterMarking(rows, j, mark)
    else RowsAfterUpdate(Marked(rows, j), j, Outcome(handled, rows[j].attempts + 1, maxRetries), update)
  }

  datatype Settlement = Acked | Requeued | DeadLettered

  /** What becomes of the message. */
  function HowSettled(rows: Rows, j: JobID, mark: Call, handled: bool, update: Call, maxRetries: nat): Settlement {
    if mark.Fails? || j !in rows then Requeued
    else if Terminal(rows, j) then Acked
    else AfterHandling(rows[j].attempts + 1, handled, update, maxRetries)
  }

  function AfterHandling(attempts: nat, handled: bool, update: Call, maxRetries: nat): Settlement {
    if update.Fails? then Requeued
    else match Outcome(handled, attempts, maxRetries)
      case Done => Acked
      case Failed => DeadLettered
      case _ => Requeued
  }

  /** A delivery without faults of a job that is queued or in process: the handler's success makes the job done
      and its message acknowledged, its failure makes the job failed and the message dead-lettered on the last
      attempt, and before that both are queued again.  One attempt is counted, and no other row changes. */
  lemma DeliveryOutcome(rows: Rows, j: JobID, handled: bool, maxRetries: nat)
    requires UniqueActive(rows) && Active(rows, j)
    ensures var attempts := rows[j].attempts + 1;
      var status := if handled then Done else if attempts >= maxRetries then Failed else Queued;
      && RowsAfterDelivery(rows, j, Works, handled, Works, maxRetries) == rows[j := Job(rows[j].key, status, attempts)]
      && HowSettled(rows, j, Works, handled, Works, maxRetries)
        == (if handled then Acked else if attempts >= maxRetries then DeadLettered else Requeued)
  {
    assert !Collides(Marked(rows, j), j, rows[j].key) by {
      forall i | i in rows && i != j && Active(Marked(rows, j), i) ensures rows[i].key != rows[j].key {
        assert Active(rows, i);
      }
    }
  }

  /** A message is acknowledged only for a job that is done or failed, and dead-lettered only for one
      that failed on its last attempt; each delivery without faults uses up one attempt.  The message of a finished
      job is acknowledged, and any store error puts the message back. */
  lemma DeliverySettles(rows: Rows, j: JobID, mark: Call, handled: bool, update: Call, maxRetries: nat)
    ensures var how := HowSettled(rows, j, mark, handled, update, maxRetries);
      var rows' := RowsAfterDelivery(rows, j, mark, handled, update, maxRetries);
      && (how.Acked? ==> Terminal(rows', j))
      && (how.DeadLettered? ==> j in rows' && rows'[j].status.Failed? && rows'[j].attempts >= maxRetries)
      && (Terminal(rows, j) ==> rows' == rows)
      && (mark.Works? && Active(rows, j) ==> rows'[j].attempts == rows[j].attempts + 1)
      && (mark.Works? && update.Works? && Active(rows, j) ==> (how.Requeued? <==> !handled && rows[j].attempts + 1 < maxRetries))
      && (mark.Works? && Terminal(rows, j) ==> how.Acked?)
      && (mark.Fails? || j !in rows || (Active(rows, j) && update.Fails?) ==> how.Requeued?)
  {
    hide Collides;
  }

  datatype Creation = CreatedJob(job: JobID) | FoundJob(job: JobID) | CreateError

  /** Whether the first query finds an active job. */
  predicate SomeActive(rows: Rows, key: Key) { ActiveOf(rows, key) != {} }

  function RowsAfterCreate(rows: Rows, key: Key, id: JobID, find: Call, create: Call): Rows {
    if find.Fails? || SomeActive(rows, key) || create == Fails(false) then rows else rows[id := Job(key, Queued, 0)]
  }

  /** The answers CreateOrGetActiveJob may give: an active row if there is one, the new row, or, when
      the insert failed although it took effect, that row found again. */
  predicate CreationOk(rows: Rows, key: Key, id: JobID, find: Call, create: Call, refind: Call, r: Creation) {
    if find.Fails? then r == CreateError
    else if SomeActive(rows, key) then r.FoundJob? && r.job in ActiveOf(rows, key)
    else if create.Works? then r == CreatedJob(id)
    else if create.applied && refind.Works? then r == FoundJob(id)
    else r == CreateError
  }

  /** The same when other processes write in between: the insert also fails by losing the race, and the
      second find then answers with the winner, or with an error if the winner has ended by then. */
  predicate RaceOk(rows: Rows, others: Rows, later: Rows, key: Key, id: JobID, find: Call, create: Call, refind: Call, r: Creation) {
    if find.Fails? then r == CreateError
    else if SomeActive(rows, key) then r.FoundJob? && r.job in ActiveOf(rows, key)
    else if create.Works? && !Collides(others, id, key) then r == CreatedJob(id)
    else if refind.Works? && SomeActive(later, key) then r.FoundJob? && r.job in ActiveOf(later, key)
    else r == CreateError
  }

  function RowsAfterRace(rows: Rows, others: Rows, later: Rows, key: Key, id: JobID, find: Call, create: Call): Rows {
    if find.Fails? || SomeActive(rows, key) then rows
    else if create.Works? && !Collides(others, id, key) then others[id := Job(key, Queued, 0)]
    else later
  }

  /** Without other writers nobody loses the race. */
  lemma QuietRace(rows: Rows, key: Key, id: JobID, find: Call, create: Call, refind: Call, r: Creation)
    requires id !in rows
    requires RaceOk(rows, rows, RowsAfterCreate(rows, key, id, find, create), key, id, find, create, refind, r)
    ensures CreationOk(rows, key, id, find, create, refind, r)
    ensures RowsAfterRace(rows, rows, RowsAfterCreate(rows, key, id, find, create), key, id, find, create)
      == RowsAfterCreate(rows, key, id, find, create)
  {
    if !SomeActive(rows, key) {
      NewRowIsActive(rows, key, id);
    }
    hide Collides, ActiveOf;
  }

  /** An insert that others have raced is rejected exactly when one of them is active, so a row that is created
      is the only active one of its key; without one the table is as the others leave it. */
  lemma RaceKeepsUnique(rows: Rows, others: Rows, later: Rows, key: Key, id: JobID, find: Call, create: Call, refind: Call, r: Creation)
    requires UniqueActive(others) && id !in others
    requires RaceOk(rows, others, later, key, id, find, create, refind, r)
    ensures find.Works? && create.Works? && !SomeActive(rows, key) ==>
      (r.CreatedJob? <==> !exists i :: i in others && Active(others, i) && others[i].key == key)
    ensures var after := RowsAfterRace(rows, others, later, key, id, find, create);
      if r.CreatedJob? then UniqueActive(after) && forall i :: i in after && Active(after, i) && after[i].key == key <==> i == id
      else after in {rows, later}
  {
    var after := RowsAfterRace(rows, others, later, key, id, find, create);
    if i :| i in others && Active(others, i) && others[i].key == key {
      assert i != id;
    }
    if r.CreatedJob? {
      assert after == others[id := Job(key, Queued, 0)];
    }
  }

  lemma CreatedIsNew(rows: Rows, key: Key, id: JobID, find: Call, create: Call, refind: Call, r: Creation)
    requires CreationOk(rows, key, id, find, create, refind, r)
    ensures r.CreatedJob? ==> r.job == id
  {
    hide ActiveOf;
  }

  lemma NewRowIsActive(rows: Rows, key: Key, id: JobID)
    requires id !in rows && !SomeActive(rows, key)
    ensures !Collides(rows, id, key) && ActiveOf(rows[id := Job(key, Queued, 0)], key) == {id}
  {
    var rows' := rows[id := Job(key, Queued, 0)];
    OthersCollide(rows, id, key);
    assert forall i :: i in rows && i in ActiveOf(rows', key) ==> i in ActiveOf(rows, key) || i == id;
    assert id in ActiveOf(rows', key);
  }

  class PostgresJobStore {
    var rows: Rows

    constructor ()
      ensures rows == map[]
    {
      rows := map[];
    }

    /** Any active row of the key. */
    method FindActive(key: Key, call: Call) returns (found: Option<JobID>)
      ensures call.Works? ==> IsFound(rows, key, found)
      ensures call.Fails? ==> found == None
    {
      if call.Fails? {
        return None;
      }
      var active := ActiveOf(rows, key);
      if active == {} {
        NoneActive(rows, key);
        return None;
      }
      var j :| j in active;
      return Some(j);
    }

    /** Create of a queued row; the unique index may reject it. */
    method Create(key: Key, id: JobID, call: Call) returns (ok: bool)
      requires id !in rows
      modifies this
      ensures ok == (call.Works? && !Collides(old(rows), id, key))
      ensures rows == if call == Fails(false) || Collides(old(rows), id, key) then old(rows) else old(rows)[id := Job(key, Queued, 0)]
    {
      var others := ActiveOf(rows, key) - {id};
      OthersCollide(rows, id, key);
      if call == Fails(false) || others != {} {
        return false;
      }
      rows := rows[id := Job(key, Queued, 0)];
      return call.Works?;
    }

    /** Find, else create, else find again; `id` is the fresh id of the new row.  Other processes write
        between these calls: `others` is the table as they leave it before the insert, `later` before
        the second find. */
    method CreateOrGetActiveJob(key: Key, id: JobID, find: Call, create: Call, refind: Call, others: Rows, later: Rows)
      returns (r: Creation)
      requires id !in others
      modifies this
      ensures rows == RowsAfterRace(old(rows), others, later, key, id, find, create)
      ensures RaceOk(old(rows), others, later, key, id, find, create, refind, r)
    {
      if find.Fails? {
        return CreateError;
      }
      var existing := FindActive(key, find);
      FoundIff(rows, key, existing);
      hide Collides, ActiveOf, IsFound;
      if existing.Some? {
        return FoundJob(existing.value);
      }
      rows := others;
      var ok := Create(key, id, create);
      if !ok {
        rows := later;
        if refind.Fails? {
          return CreateError;
        }
        var race := FindActive(key, refind);
        FoundIff(rows, key, race);
        if race.Some? {
          return FoundJob(race.value);
        }
        return CreateError;
      }
      return CreatedJob(id);
    }

    method MarkProcessing(j: JobID, call: Call) returns (r: Marking)
      modifies this
      ensures rows == RowsAfterMarking(old(rows), j, call)
      ensures r ==
        if call.Fails? || j !in old(rows) then MarkError
        else if Terminal(old(rows), j) then JobTerminal
        else MarkedJob(rows[j])
      ensures r.MarkedJob? ==>
        j in old(rows) && rows == old(rows)[j := Job(old(rows)[j].key, Processing, old(rows)[j].attempts + 1)]
      ensures r.JobTerminal? ==> rows == old(rows)
    {
      if call == Fails(false) || j !in rows {
        return MarkError;
      }
      if rows[j].status.Done? || rows[j].status.Failed? {
        return if call.Fails? then MarkError else JobTerminal;
      }
      var job := rows[j];
      job := job.(attempts := job.attempts + 1);
      job := job.(status := Processing);
      rows := rows[j := job];
      return if call.Fails? then MarkError else MarkedJob(job);
    }

    method UpdateState(j: JobID, status: Status, call: Call) returns (ok: bool)
      modifies this
      ensures rows == RowsAfterUpdate(old(rows), j, status, call)
      ensures ok == (call.Works? && !Rejected(old(rows), j, status))
      ensures ok && j in old(rows) ==> rows == old(rows)[j := Job(old(rows)[j].key, status, old(rows)[j].attempts)]
      ensures j !in old(rows) ==> rows == old(rows)
    {
      if call == Fails(false) || j !in rows {
        return call.Works?;
      }
      if status.Queued? || status.Processing? {
        var others := ActiveOf(rows, rows[j].key) - {j};
        OthersCollide(rows, j, rows[j].key);
        if others != {} {
          return false;
        }
      }
      rows := rows[j := rows[j].(status := status)];
      return call.Works?;
    }
  }

  // -------------------------------------------------------------------------- the queue

  datatype Publish = NotSent | SentUnconfirmed | Confirmed

  class RabbitMQJobQueue {
    const maxRetries: nat
    const store: PostgresJobStore
    var main: multiset<JobID>
    var dlq: multiset<JobID>
    var flight: set<JobID>

    /** The run so far and where it has got to. */
    ghost var log: seq<Action>
    ghost var sys: System

    ghost predicate Valid()
      reads this, store
    {
      && maxRetries > 0
      && CanRun(INIT, log, maxRetries) && sys == Run(INIT, log, maxRetries)
      && sys.rows == store.rows && sys.main == main && sys.dlq == dlq && sys.flight == flight
    }

    constructor (maxRetries: int)
      ensures Valid() && fresh(store) && this.maxRetries == (if maxRetries <= 0 then 3 else maxRetries) && sys == INIT
    {
      this.maxRetries := if maxRetries <= 0 then 3 else maxRetries;
      store := new PostgresJobStore();
      main, dlq, flight := multiset{}, multiset{}, {};
      log, sys := [], INIT;
    }

    /** The next step of the run. */
    ghost method Did(a: Action)
      requires maxRetries > 0 && CanRun(INIT, log, maxRetries) && sys == Run(INIT, log, maxRetries) && Can(sys, a)
      modifies this`log, this`sys
      ensures log == old(log) + [a] && CanRun(INIT, log, maxRetries) && sys == Run(INIT, log, maxRetries)
      ensures sys == Step(old(sys), a, maxRetries)
    {
      assert (log + [a])[..|log|] == log;
      log := log + [a];
      sys := Step(sys, a, maxRetries);
    }

    /** Consumers register, at least one; `names` are their tags. */
    method Start(concurrency: int, ghost names: seq<WorkerID>)
      requires Valid() && |names| == (if concurrency <= 0 then 1 else concurrency)
      requires Sorting.Distinct(names) && forall i :: 0 <= i < |names| ==> names[i] !in sys.workers
      modifies this`log, this`sys
      ensures Valid()
      ensures sys == old(sys).(workers := sys.workers)
      ensures forall w :: w in sys.workers <==> w in old(sys.workers) || w in names
      ensures forall w :: w in sys.workers ==> sys.workers[w] == if w in names then Free else old(sys.workers)[w]
    {
      var n := if concurrency <= 0 then 1 else concurrency;
      hide Step, Can, Run, CanRun;
      for i := 0 to n
        invariant Valid()
        invariant sys == old(sys).(workers := sys.workers)
        invariant forall w :: w in sys.workers <==> w in old(sys.workers) || w in names[..i]
        invariant forall w :: w in sys.workers ==> sys.workers[w] == if w in names[..i] then Free else old(sys.workers)[w]
      {
        StartStep(sys, names[i], maxRetries);
        Did(JobQueue.Start(names[i]));
        assert names[..i + 1] == names[..i] + [names[i]];
      }
      assert names[..n] == names;
    }

    /** A consumer takes a message from the main queue. */
    method Receive(j: JobID, ghost w: WorkerID)
      requires Valid() && w in sys.workers && sys.workers[w].Free? && j in main
      modifies this
      ensures Valid() && sys.workers == old(sys.workers)[w := Got(j)]
      ensures main == old(main) - multiset{j} && unchanged(`dlq) && unchanged(`flight)
    {
      Did(Deliver(w, j));
      main := main - multiset{j};
    }

    method Settled(j: JobID, how: Settlement, ghost w: WorkerID)
      requires Valid() && w in sys.workers
      requires sys.workers[w] == (match how case Acked => Acking(j) case Requeued => Requeueing(j) case DeadLettered => DeadLettering(j))
      modifies this
      ensures Valid() && sys.workers == old(sys.workers)[w := Free] && sys.rows == old(sys.rows)
      ensures main == old(main) + if how.Requeued? then multiset{j} else multiset{}
      ensures dlq == old(dlq) + if how.DeadLettered? then multiset{j} else multiset{}
      ensures old(log) < log
    {
      Did(Settle(w));
      match how
      case Acked =>
      case Requeued => main := main + multiset{j};
      case DeadLettered => dlq := dlq + multiset{j};
    }

    /** One delivery, handled by consumer `w` to its end.  `mark` and `update` are how the two store
        calls go, `handled` whether the handler succeeds. */
    method HandleDelivery(j: JobID, mark: Call, handled: bool, update: Call, ghost w: WorkerID) returns (how: Settlement)
      requires Valid() && w in sys.workers && sys.workers[w] == Got(j)
      modifies this, store
      ensures Valid() && old(log) < log && sys.workers == old(sys.workers)[w := Free]
      ensures store.rows == RowsAfterDelivery(old(store.rows), j, mark, handled, update, maxRetries)
      ensures how == HowSettled(old(store.rows), j, mark, handled, update, maxRetries)
      ensures main == old(main) + if how.Requeued? then multiset{j} else multiset{}
      ensures dlq == old(dlq) + if how.DeadLettered? then multiset{j} else multiset{}
    {
      hide Step, Can, Run, CanRun, Collides, Updated, Outcome, AfterHandling, RowsAfterUpdate;
      var job := store.MarkProcessing(j, mark);
      MarkStep(sys, w, j, mark, maxRetries);
      Did(MarkAction(w, mark));
      match job {
        case JobTerminal =>
          how := Acked;
        case MarkError =>
          how := Requeued;
        case MarkedJob(marked) =>
          how := Process(j, marked, handled, update, w);
      }
      Settled(j, how, w);
    }

    /** The handler, and what its outcome makes of the job. */
    method Process(j: JobID, marked: Job, handled: bool, update: Call, ghost w: WorkerID) returns (how: Settlement)
      requires Valid() && w in sys.workers && sys.workers[w] == Handling(j, marked.attempts)
      modifies this`log, this`sys, store
      ensures Valid() && old(log) < log
      ensures sys.workers == old(sys.workers)[w :=
        match how case Acked => Acking(j) case Requeued => Requeueing(j) case DeadLettered => DeadLettering(j)]
      ensures store.rows == RowsAfterUpdate(old(store.rows), j, Outcome(handled, marked.attempts, maxRetries), update)
      ensures how == AfterHandling(marked.attempts, handled, update, maxRetries)
    {
      hide Step, Can, Run, CanRun, Collides, Updated;
      HandleStep(sys, w, j, marked.attempts, handled, maxRetries);
      Did(Handle(w, handled));
      UpdateStep(sys, w, j, marked.attempts, handled, update, maxRetries);
      if !handled {
        how := HandleProcessingError(j, marked, update);
      } else {
        var ok := store.UpdateState(j, Done, update);
        how := if ok then Acked else Requeued;
      }
      Did(UpdateAction(w, handled, update));
    }

    /** handleProcessingError: fail the job after its last attempt, queue it again before. */
    method HandleProcessingError(j: JobID, job: Job, update: Call) returns (how: Settlement)
      modifies store
      ensures store.rows == RowsAfterUpdate(old(store.rows), j, Outcome(false, job.attempts, maxRetries), update)
      ensures how == if update.Works? && job.attempts >= maxRetries then DeadLettered else Requeued
    {
      if job.attempts >= maxRetries {
        var ok := store.UpdateState(j, Failed, update);
        return if ok then DeadLettered else Requeued;
      }
      var ok := store.UpdateState(j, Queued, update);
      return Requeued;
    }

    // ------------------------------------------------------------------------ enqueueing

    /** EnqueueWithPayload, from caller `c`; the key's resource id is already trimmed.  The calls are
        how the find, the insert, the second find and the final MarkFailed go. */
    method EnqueueWithPayload(key: Key, id: JobID, find: Call, create: Call, refind: Call, publish: Publish, fail: Call, ghost c: CallerID)
      returns (answer: Answer, ghost r: Creation)
      requires Valid() && c !in sys.callers && id !in store.rows
      modifies this, store
      ensures Valid() && old(log) < log && sys.callers == old(sys.callers)[c := Returned(answer)]
      ensures key.resourceID == "" ==> answer == Error && store.rows == old(store.rows)
      ensures key.resourceID != "" ==> CreationOk(old(store.rows), key, id, find, create, refind, r) && answer == AnswerOf(r, publish)
      ensures key.resourceID != "" ==> var rows := RowsAfterCreate(old(store.rows), key, id, find, create);
        store.rows == if r.CreatedJob? then RowsAfterPublish(rows, id, publish, fail) else rows
      ensures main == old(main) + if answer.Created? then multiset{id} else multiset{}
      ensures dlq == old(dlq)
    {
      hide Step, Can, Run, CanRun, Collides, ActiveOf, RowsAfterCreate, CreationOk, SomeActive, RowsAfterPublish, RaceOk, RowsAfterRace;
      EnqueueStep(sys, c, key, maxRetries);
      Did(Enqueue(c, key));
      if key.resourceID == "" {
        return Error, CreateError;
      }
      var after := RowsAfterCreate(store.rows, key, id, find, create);
      ghost var before := store.rows;
      var creation := store.CreateOrGetActiveJob(key, id, find, create, refind, store.rows, after);
      QuietRace(before, key, id, find, create, refind, creation);
      CreatedIsNew(before, key, id, find, create, refind, creation);
      r := creation;
      FollowCreate(key, id, find, create, refind, r, c);
      if creation.CreateError? {
        return Error, r;
      }
      if creation.FoundJob? {
        return Existing(creation.job), r;
      }
      var ok := PublishOrFail(id, publish, fail, c);
      return if ok then Created(id) else Error, r;
    }

    /** Publish; when that fails, mark the job failed, whatever comes of it. */
    method PublishOrFail(id: JobID, publish: Publish, fail: Call, ghost c: CallerID) returns (ok: bool)
      requires Valid() && c in sys.callers && sys.callers[c] == Publishing(id)
      modifies this, store
      ensures Valid() && old(log) < log && ok == publish.Confirmed?
      ensures store.rows == RowsAfterPublish(old(store.rows), id, publish, fail)
      ensures sys.callers == old(sys.callers)[c := Returned(if ok then Created(id) else Error)]
      ensures main == old(main) + if ok then multiset{id} else multiset{}
      ensures dlq == old(dlq)
    {
      hide Step, Can, Run, CanRun, Updated;
      ok := PublishJob(id, publish, c);
      if !ok {
        ghost var spare := SpareID(store.rows);
        FailStep(sys, c, id, fail, spare, maxRetries);
        Did(FailAction(c, fail, spare));
        var _ := store.UpdateState(id, Failed, fail);
      }
    }

    /** The caller's steps of CreateOrGetActiveJob. */
    ghost method FollowCreate(key: Key, id: JobID, find: Call, create: Call, refind: Call, r: Creation, c: CallerID)
      requires maxRetries > 0 && CanRun(INIT, log, maxRetries) && sys == Run(INIT, log, maxRetries)
      requires c in sys.callers && sys.callers[c] == Finding(key) && id !in sys.rows
      requires CreationOk(sys.rows, key, id, find, create, refind, r)
      modifies this`log, this`sys
      ensures CanRun(INIT, log, maxRetries) && sys == Run(INIT, log, maxRetries) && old(log) < log
      ensures sys == old(sys).(rows := RowsAfterCreate(old(sys.rows), key, id, find, create), callers := old(sys.callers)[c := CallerAfter(r)])
    {
      hide Step, Can, Run, CanRun, ActiveOf, Collides;
      if find.Fails? {
        FindErrorStep(sys, c, id, maxRetries);
        Did(CallError(c, id, false));
        return;
      }
      var found := if SomeActive(sys.rows, key) then Some(r.job) else None;
      FindStep(sys, c, key, found, maxRetries);
      Did(Find(c, found));
      if found.None? {
        FollowInsert(key, id, create, refind, r, c);
      }
    }

    /** The insert, and the second find after a failed one. */
    ghost method FollowInsert(key: Key, id: JobID, create: Call, refind: Call, r: Creation, c: CallerID)
      requires maxRetries > 0 && CanRun(INIT, log, maxRetries) && sys == Run(INIT, log, maxRetries)
      requires c in sys.callers && sys.callers[c] == Inserting(key) && id !in sys.rows && !SomeActive(sys.rows, key)
      requires r == if create.Works? then CreatedJob(id) else if create.applied && refind.Works? then FoundJob(id) else CreateError
      modifies this`log, this`sys
      ensures CanRun(INIT, log, maxRetries) && sys == Run(INIT, log, maxRetries) && old(log) < log
      ensures sys == old(sys).(rows := if create == Fails(false) then old(sys.rows) else old(sys.rows)[id := Job(key, Queued, 0)],
                               callers := old(sys.callers)[c := CallerAfter(r)])
    {
      hide Step, Can, Run, CanRun, ActiveOf;
      InsertStep(sys, c, key, id, create, maxRetries);
      Did(InsertAction(c, id, create));
      if create.Fails? {
        if refind.Fails? {
          var spare := SpareID(sys.rows);
          FindErrorStep(sys, c, spare, maxRetries);
          Did(CallError(c, spare, false));
        } else {
          var again := if create.applied then Some(id) else None;
          FindStep(sys, c, key, again, maxRetries);
          Did(Find(c, again));
        }
      }
    }

    /** Whether the publish of a new job's message was confirmed. */
    method PublishJob(id: JobID, publish: Publish, ghost c: CallerID) returns (ok: bool)
      requires Valid() && c in sys.callers && sys.callers[c] == Publishing(id)
      modifies this
      ensures Valid() && old(log) < log && ok == publish.Confirmed? && sys.rows == old(sys.rows)
      ensures sys.callers == old(sys.callers)[c := if ok then Returned(Created(id)) else Failing(id)]
      ensures main == old(main) + if ok then multiset{id} else multiset{}
      ensures flight == if publish.NotSent? then old(flight) else if ok then old(flight) - {id} else old(flight) + {id}
      ensures dlq == old(dlq)
    {
      hide Step, Can, Run, CanRun;
      SendStep(sys, c, id, maxRetries);
      if publish.NotSent? {
        PublishFailsStep(sys, c, id, maxRetries);
        Did(PublishFails(c));
        return false;
      }
      Did(Send(c));
      flight := flight + {id};
      PublishFailsStep(sys, c, id, maxRetries);
      if publish.SentUnconfirmed? {
        Did(PublishFails(c));
        return false;
      }
      ArriveSteps(sys, c, id, maxRetries);
      Did(Arrive(id));
      flight := flight - {id};
      main := main + multiset{id};
      Did(Confirm(c));
      return true;
    }
  }

  // ------------------------------------------------------------------- the caller's steps

  function CallerAfter(r: Creation): Caller {
    match r
    case CreatedJob(j) => Publishing(j)
    case FoundJob(j) => Returned(Existing(j))
    case CreateError => Returned(Error)
  }

  function AnswerOf(r: Creation, publish: Publish): Answer {
    match r
    case CreatedJob(j) => if publish.Confirmed? then Created(j) else Error
    case FoundJob(j) => Existing(j)
    case CreateError => Error
  }

  function RowsAfterPublish(rows: Rows, id: JobID, publish: Publish, fail: Call): Rows {
    if publish.Confirmed? then rows else RowsAfterUpdate(rows, id, Failed, fail)
  }

  /** Enqueueing a key without faults: an active job of the key is answered and nothing is written; otherwise
      the new job is queued, and after a failed publish it is failed and its caller told so. */
  lemma EnqueueOutcome(rows: Rows, key: Key, id: JobID, r: Creation, publish: Publish)
    requires id !in rows && CreationOk(rows, key, id, Works, Works, Works, r)
    ensures var created := RowsAfterCreate(rows, key, id, Works, Works);
      if exists j :: Active(rows, j) && rows[j].key == key then
        created == rows && exists j :: Active(rows, j) && rows[j].key == key && AnswerOf(r, publish) == Existing(j)
      else
        && created == rows[id := Job(key, Queued, 0)]
        && RowsAfterPublish(created, id, publish, Works)
          == rows[id := Job(key, if publish.Confirmed? then Queued else Failed, 0)]
        && AnswerOf(r, publish) == if publish.Confirmed? then Created(id) else Error
  {
    if j :| Active(rows, j) && rows[j].key == key {
      assert j in ActiveOf(rows, key);
    }
  }

  lemma SpareID(rows: Rows) returns (j: JobID)
    ensures j !in rows
  {
    j := Above(rows.Keys);
  }

  lemma {:induction false} Above(ids: set<JobID>) returns (j: JobID)
    ensures forall i :: i in ids ==> i < j
  {
    j := 0;
    if ids != {} {
      var k :| k in ids;
      var above := Above(ids - {k});
      j := if above <= k then k + 1 else above;
      forall i | i in ids ensures i < j {
        assert i == k || i in ids - {k};
      }
    }
  }

  lemma EnqueueStep(s: System, c: CallerID, key: Key, maxRetries: nat)
    requires c !in s.callers
    ensures Can(s, Enqueue(c, key))
    ensures Step(s, Enqueue(c, key), maxRetries)
      == s.(callers := s.callers[c := if key.resourceID == "" then Returned(Error) else Finding(key)])
  {
  }

  predicate Querying(s: System, c: CallerID, key: Key) {
    c in s.callers && (s.callers[c] == Finding(key) || s.callers[c] == Refinding(key))
  }

  lemma StartStep(s: System, w: WorkerID, maxRetries: nat)
    requires w !in s.workers
    ensures Can(s, Start(w)) && Step(s, Start(w), maxRetries) == s.(workers := s.workers[w := Free])
  {
  }

  lemma FindErrorStep(s: System, c: CallerID, spare: JobID, maxRetries: nat)
    requires c in s.callers && (s.callers[c].Finding? || s.callers[c].Refinding?) && spare !in s.rows
    ensures Can(s, CallError(c, spare, false))
    ensures Step(s, CallError(c, spare, false), maxRetries) == s.(callers := s.callers[c := Returned(Error)])
  {
  }

  lemma FindStep(s: System, c: CallerID, key: Key, found: Option<JobID>, maxRetries: nat)
    requires Querying(s, c, key)
    requires if found.Some? then found.value in ActiveOf(s.rows, key) else ActiveOf(s.rows, key) == {}
    ensures Can(s, Find(c, found))
    ensures Step(s, Find(c, found), maxRetries) == s.(callers := s.callers[c :=
      if found.Some? then Returned(Existing(found.value))
      else if s.callers[c].Finding? then Inserting(key) else Returned(Error)])
  {
    if found.None? {
      NoneActive(s.rows, key);
    }
    hide Active;
  }

  function InsertAction(c: CallerID, id: JobID, create: Call): Action {
    if create.Fails? then CallError(c, id, create.applied) else Insert(c, id)
  }

  lemma InsertStep(s: System, c: CallerID, key: Key, id: JobID, create: Call, maxRetries: nat)
    requires c in s.callers && s.callers[c] == Inserting(key) && id !in s.rows && !SomeActive(s.rows, key)
    ensures Can(s, InsertAction(c, id, create))
    ensures Step(s, InsertAction(c, id, create), maxRetries) == s.(
      rows := RowsAfterCreate(s.rows, key, id, Works, create),
      callers := s.callers[c := if create.Fails? then Refinding(key) else Publishing(id)])
    ensures ActiveOf(RowsAfterCreate(s.rows, key, id, Works, create), key) == if create == Fails(false) then {} else {id}
  {
    NewRowIsActive(s.rows, key, id);
    hide Collides;
  }

  lemma SendStep(s: System, c: CallerID, id: JobID, maxRetries: nat)
    requires c in s.callers && s.callers[c] == Publishing(id)
    ensures Can(s, Send(c))
    ensures Step(s, Send(c), maxRetries) == s.(callers := s.callers[c := Awaiting(id)], flight := s.flight + {id})
  {
  }

  lemma PublishFailsStep(s: System, c: CallerID, id: JobID, maxRetries: nat)
    requires c in s.callers && (s.callers[c] == Publishing(id) || s.callers[c] == Awaiting(id))
    ensures Can(s, PublishFails(c))
    ensures Step(s, PublishFails(c), maxRetries) == s.(callers := s.callers[c := Failing(id)])
  {
  }

  lemma ArriveSteps(s: System, c: CallerID, id: JobID, maxRetries: nat)
    requires c in s.callers && s.callers[c] == Awaiting(id) && id in s.flight
    ensures Can(s, Arrive(id))
    ensures var s' := Step(s, Arrive(id), maxRetries);
      && s' == s.(flight := s.flight - {id}, main := s.main + multiset{id}, placed := s.placed + {id})
      && Can(s', Confirm(c))
      && Step(s', Confirm(c), maxRetries) == s'.(callers := s.callers[c := Returned(Created(id))])
  {
  }

  function FailAction(c: CallerID, fail: Call, spare: JobID): Action {
    if fail.Fails? then CallError(c, spare, fail.applied) else MarkFailed(c)
  }

  lemma FailStep(s: System, c: CallerID, id: JobID, fail: Call, spare: JobID, maxRetries: nat)
    requires c in s.callers && s.callers[c] == Failing(id) && spare !in s.rows
    ensures Can(s, FailAction(c, fail, spare))
    ensures Step(s, FailAction(c, fail, spare), maxRetries)
      == s.(rows := RowsAfterUpdate(s.rows, id, Failed, fail), callers := s.callers[c := Returned(Error)])
  {
    hide Collides;
  }

  /** What is proved of runs, read off the objects: one active row per key, and every active job whose
      message was placed still has it in the main queue or in a consumer's hands. */
  lemma ObjectsKeepJobs(q: RabbitMQJobQueue, j: JobID)
    requires q.Valid()
    ensures UniqueActive(q.store.rows)
    ensures j in q.sys.placed && Active(q.store.rows, j) ==>
      q.dlq[j] == 0 && (q.main[j] == 1 || (q.main[j] == 0 && exists w :: Holds(q.sys, w, j)))
    ensures j in q.store.rows ==> q.store.rows[j].attempts <= q.maxRetries + Faults(q.sys, j)
    ensures j in q.dlq ==> Terminal(q.store.rows, j) && q.store.rows[j].attempts >= q.maxRetries
  {
    hide Run, CanRun, Active, Holds, UniqueActive, Count;
    NoJobIsLost(q.log, q.maxRetries, j);
    OneActiveJobPerKey(q.log, q.maxRetries);
    SettledIsTerminal(q.log, q.maxRetries, j);
    AttemptsAreBounded(q.log, q.maxRetries, j);
  }
}
