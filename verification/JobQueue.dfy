/**
 The job queue: at-least-once delivery of messages over a durable job table with a partial
 unique index on active jobs.  Workers and enqueuers are interleaved command by command;
 workers may crash, store calls may fail before or after they took effect, and a publish may
 be confirmed, fail, or fail although its message arrives later.
 */
module JobQueue {
  import opened Options

  type JobID = nat
  type WorkerID = nat
  type CallerID = nat

  datatype Key = Key(jobType: string, resourceType: string, resourceID: string)

  datatype Status = Queued | Processing | Done | Failed

  datatype Job = Job(key: Key, status: Status, attempts: nat)

  type Rows = map<JobID, Job>

  // ---------------------------------------------------------------------- the job store

  predicate Active(rows: Rows, j: JobID) {
    j in rows && (rows[j].status.Queued? || rows[j].status.Processing?)
  }

  predicate Terminal(rows: Rows, j: JobID) {
    j in rows && (rows[j].status.Done? || rows[j].status.Failed?)
  }

  /** The partial unique index. */
  predicate UniqueActive(rows: Rows) {
    forall i, j :: i in rows && j in rows && Active(rows, i) && Active(rows, j) && rows[i].key == rows[j].key ==> i == j
  }

  /** Whether a write of `key` as active at `j` collides with another active row. */
  predicate Collides(rows: Rows, j: JobID, key: Key) {
    exists i :: i in rows && i != j && Active(rows, i) && rows[i].key == key
  }

  /** MarkProcessing of a job that is not terminal. */
  function Marked(rows: Rows, j: JobID): Rows
    requires j in rows
  {
    rows[j := rows[j].(status := Processing, attempts := rows[j].attempts + 1)]
  }

  /** updateState is an unconditional update, but the index rejects a second active row. */
  predicate Rejected(rows: Rows, j: JobID, status: Status) {
    j in rows && (status.Queued? || status.Processing?) && Collides(rows, j, rows[j].key)
  }

  function Updated(rows: Rows, j: JobID, status: Status): Rows {
    if j in rows && !Rejected(rows, j, status) then rows[j := rows[j].(status := status)] else rows
  }

  // -------------------------------------------------------------------------- the system

  /** Where a consumer is in handleDelivery; all but `Free` hold the message of `job`. */
  datatype Worker =
    | Free
    | Got(job: JobID)
    | Handling(job: JobID, attempts: nat)
    | Succeeded(job: JobID, attempts: nat)
    | Erred(job: JobID, attempts: nat)
    | Acking(job: JobID)
    | Requeueing(job: JobID)
    | DeadLettering(job: JobID)

  datatype Answer = Created(job: JobID) | Existing(job: JobID) | Error

  /** Where a caller is in EnqueueWithPayload. */
  datatype Caller =
    | Finding(key: Key)
    | Inserting(key: Key)
    | Refinding(key: Key)
    | Publishing(job: JobID)
    | Awaiting(job: JobID)
    | Failing(job: JobID)
    | Returned(answer: Answer)

  /** `flight` holds messages sent but not yet placed.  The last four fields are history: jobs
      whose message was ever placed, acknowledged jobs, and per job the number of committed
      MarkProcessing updates and of faults (crashes and store errors of its workers). */
  datatype System = System(
    rows: Rows,
    main: multiset<JobID>,
    dlq: multiset<JobID>,
    flight: set<JobID>,
    workers: map<WorkerID, Worker>,
    callers: map<CallerID, Caller>,
    placed: set<JobID>,
    acked: set<JobID>,
    marks: map<JobID, nat>,
    faults: map<JobID, nat>)

  const INIT := System(map[], multiset{}, multiset{}, {}, map[], map[], {}, {}, map[], map[])

  datatype Action =
    | Start(worker: WorkerID)
    | Deliver(worker: WorkerID, job: JobID)
    | MarkProcessing(worker: WorkerID)
    | Handle(worker: WorkerID, ok: bool)
    | MarkDone(worker: WorkerID)
    | HandleError(worker: WorkerID)
    | Settle(worker: WorkerID)
    | StoreError(worker: WorkerID, applied: bool)
    | Crash(worker: WorkerID)
    | Enqueue(caller: CallerID, key: Key)
    | Find(caller: CallerID, found: Option<JobID>)
    | Insert(caller: CallerID, job: JobID)
    | Send(caller: CallerID)
    | Arrive(job: JobID)
    | Lose(job: JobID)
    | Confirm(caller: CallerID)
    | PublishFails(caller: CallerID)
    | MarkFailed(caller: CallerID)
    | CallError(caller: CallerID, job: JobID, applied: bool)
    | Stop(caller: CallerID)

  function Count(m: map<JobID, nat>, j: JobID): nat {
    if j in m then m[j] else 0
  }

  function Bump(m: map<JobID, nat>, j: JobID): map<JobID, nat> {
    m[j := Count(m, j) + 1]
  }

  predicate Holds(s: System, w: WorkerID, j: JobID) {
    w in s.workers && !s.workers[w].Free? && s.workers[w].job == j
  }

  predicate IsFound(rows: Rows, key: Key, found: Option<JobID>) {
    match found
    case Some(j) => Active(rows, j) && rows[j].key == key
    case None => forall i :: i in rows && Active(rows, i) ==> rows[i].key != key
  }

  predicate WorkerAt(s: System, a: Action) {
    match a
    case Deliver(w, j) => w in s.workers && s.workers[w].Free? && j in s.main
    case MarkProcessing(w) => w in s.workers && s.workers[w].Got?
    case Handle(w, _) => w in s.workers && s.workers[w].Handling?
    case MarkDone(w) => w in s.workers && s.workers[w].Succeeded?
    case HandleError(w) => w in s.workers && s.workers[w].Erred?
    case Settle(w) => w in s.workers && (s.workers[w].Acking? || s.workers[w].Requeueing? || s.workers[w].DeadLettering?)
    case StoreError(w, _) => w in s.workers && (s.workers[w].Got? || s.workers[w].Succeeded? || s.workers[w].Erred?)
    case Crash(w) => w in s.workers && !s.workers[w].Free?
    case _ => false
  }

  predicate CallerAt(s: System, a: Action) {
    match a
    case Find(c, found) =>
      c in s.callers && (s.callers[c].Finding? || s.callers[c].Refinding?) && IsFound(s.rows, s.callers[c].key, found)
    case Insert(c, j) => c in s.callers && s.callers[c].Inserting? && j !in s.rows
    case Send(c) => c in s.callers && s.callers[c].Publishing?
    case Confirm(c) => c in s.callers && s.callers[c].Awaiting? && s.callers[c].job in s.placed
    case PublishFails(c) => c in s.callers && (s.callers[c].Publishing? || s.callers[c].Awaiting?)
    case MarkFailed(c) => c in s.callers && s.callers[c].Failing?
    case CallError(c, j, _) =>
      c in s.callers && j !in s.rows
      && (s.callers[c].Finding? || s.callers[c].Inserting? || s.callers[c].Refinding? || s.callers[c].Failing?)
    case Stop(c) => c in s.callers
    case _ => false
  }

  predicate Can(s: System, a: Action) {
    match a
    case Start(w) => w !in s.workers
    case Enqueue(c, key) => c !in s.callers || s.callers[c].Returned?
    case Arrive(j) => j in s.flight
    case Lose(j) => j in s.flight
    case _ => WorkerAt(s, a) || CallerAt(s, a)
  }

  function Go(s: System, w: WorkerID, p: Worker): System {
    s.(workers := s.workers[w := p])
  }

  predicate Busy(s: System, w: WorkerID) { w in s.workers && !s.workers[w].Free? }

  function AfterDelivery(s: System, w: WorkerID, j: JobID): System {
    s.(workers := s.workers[w := Got(j)], main := s.main - multiset{j})
  }

  function AfterMark(s: System, w: WorkerID): System
    requires Busy(s, w)
  {
    var j := s.workers[w].job;
    if j !in s.rows then Go(s, w, Requeueing(j))
    else if Terminal(s.rows, j) then Go(s, w, Acking(j))
    else
      s.(workers := s.workers[w := Handling(j, s.rows[j].attempts + 1)],
         rows := Marked(s.rows, j), marks := Bump(s.marks, j))
  }

  /** updateState followed by the worker's next counter. */
  function AfterUpdate(s: System, w: WorkerID, status: Status, p: Worker): System
    requires Busy(s, w)
  {
    s.(workers := s.workers[w := p], rows := Updated(s.rows, s.workers[w].job, status))
  }

  /** handleProcessingError. */
  function AfterError(s: System, w: WorkerID, maxRetries: nat): System
    requires Busy(s, w) && s.workers[w].Erred?
  {
    var p := s.workers[w];
    if p.attempts >= maxRetries then AfterUpdate(s, w, Failed, DeadLettering(p.job))
    else AfterUpdate(s, w, Queued, Requeueing(p.job))
  }

  /** Ack, nack without and nack with requeueing. */
  function AfterSettling(s: System, w: WorkerID): System
    requires Busy(s, w)
  {
    var p := s.workers[w];
    if p.Acking? then s.(workers := s.workers[w := Free], acked := s.acked + {p.job})
    else if p.DeadLettering? then s.(workers := s.workers[w := Free], dlq := s.dlq + multiset{p.job})
    else s.(workers := s.workers[w := Free], main := s.main + multiset{p.job})
  }

  /** A store call fails, possibly after it took effect; the message is nacked for requeueing. */
  function AfterStoreError(s: System, w: WorkerID, applied: bool, maxRetries: nat): System
    requires Busy(s, w)
  {
    var p := s.workers[w];
    var s' := s.(workers := s.workers[w := Requeueing(p.job)], faults := Bump(s.faults, p.job));
    if !applied then s'
    else if p.Got? then
      if p.job in s.rows && !Terminal(s.rows, p.job)
      then s'.(rows := Marked(s.rows, p.job), marks := Bump(s.marks, p.job)) else s'
    else if p.Succeeded? then s'.(rows := Updated(s.rows, p.job, Done))
    else if p.Erred? then s'.(rows := Updated(s.rows, p.job, if p.attempts >= maxRetries then Failed else Queued))
    else s'
  }

  /** The worker dies; the broker puts its message back. */
  function AfterCrash(s: System, w: WorkerID): System
    requires Busy(s, w)
  {
    var j := s.workers[w].job;
    s.(workers := s.workers[w := Free], main := s.main + multiset{j}, faults := Bump(s.faults, j))
  }

  /** One command of handleDelivery or handleProcessingError, or a fault of its worker. */
  function WorkerStep(s: System, a: Action, maxRetries: nat): System
    requires WorkerAt(s, a)
  {
    var w := a.worker;
    var p := s.workers[w];
    match a
    case Deliver(_, j) => AfterDelivery(s, w, j)
    case MarkProcessing(_) => AfterMark(s, w)
    case Handle(_, ok) => Go(s, w, if ok then Succeeded(p.job, p.attempts) else Erred(p.job, p.attempts))
    case MarkDone(_) => AfterUpdate(s, w, Done, Acking(p.job))
    case HandleError(_) => AfterError(s, w, maxRetries)
    case Settle(_) => AfterSettling(s, w)
    case StoreError(_, applied) => AfterStoreError(s, w, applied, maxRetries)
    case Crash(_) => AfterCrash(s, w)
  }

  function Move(s: System, c: CallerID, p: Caller): System {
    s.(callers := s.callers[c := p])
  }

  /** Create: a new row, unless the index rejects it. */
  function AfterInsert(s: System, c: CallerID, j: JobID, p: Caller): System
    requires c in s.callers && s.callers[c].Inserting?
  {
    var key := s.callers[c].key;
    if Collides(s.rows, j, key) then Move(s, c, Refinding(key))
    else s.(callers := s.callers[c := p], rows := s.rows[j := Job(key, Queued, 0)])
  }

  /** MarkFailed after a failed publish; its own error is ignored. */
  function AfterFailing(s: System, c: CallerID): System
    requires c in s.callers && s.callers[c].Failing?
  {
    s.(callers := s.callers[c := Returned(Error)], rows := Updated(s.rows, s.callers[c].job, Failed))
  }

  /** One command of EnqueueWithPayload and CreateOrGetActiveJob, or a fault of the caller. */
  function CallerStep(s: System, a: Action): System
    requires CallerAt(s, a)
  {
    var c := a.caller;
    var p := s.callers[c];
    match a
    case Find(_, Some(j)) => Move(s, c, Returned(Existing(j)))
    case Find(_, None) => Move(s, c, if p.Finding? then Inserting(p.key) else Returned(Error))
    case Insert(_, j) => AfterInsert(s, c, j, Publishing(j))
    case Send(_) => s.(callers := s.callers[c := Awaiting(p.job)], flight := s.flight + {p.job})
    case Confirm(_) => Move(s, c, Returned(Created(p.job)))
    case PublishFails(_) => Move(s, c, Failing(p.job))
    case MarkFailed(_) => AfterFailing(s, c)
    case CallError(_, j, applied) =>
      if p.Inserting? then if applied then AfterInsert(s, c, j, Refinding(p.key)) else Move(s, c, Refinding(p.key))
      else if p.Failing? && applied then AfterFailing(s, c)
      else Move(s, c, Returned(Error))
    case Stop(_) => s.(callers := s.callers - {c})
  }

  function Step(s: System, a: Action, maxRetries: nat): System
    requires Can(s, a)
  {
    match a
    case Start(w) => Go(s, w, Free)
    case Enqueue(c, key) => Move(s, c, if key.resourceID == "" then Returned(Error) else Finding(key))
    case Arrive(j) => s.(flight := s.flight - {j}, main := s.main + multiset{j}, placed := s.placed + {j})
    case Lose(j) => s.(flight := s.flight - {j})
    case _ => if WorkerAt(s, a) then WorkerStep(s, a, maxRetries) else CallerStep(s, a)
  }

  // ---------------------------------------------------------------------------- invariant

  function Faults(s: System, j: JobID): nat { Count(s.faults, j) }

  predicate WorkerOk(s: System, p: Worker, maxRetries: nat)
    requires !p.Free? && p.job in s.rows
  {
    var job := s.rows[p.job];
    match p
    case Got(j) => Active(s.rows, j) ==> job.attempts < maxRetries + Faults(s, j)
    case Handling(_, n) => n == job.attempts
    case Succeeded(_, n) => n == job.attempts
    case Erred(_, n) => n == job.attempts
    case Acking(j) => Terminal(s.rows, j)
    case Requeueing(j) => Active(s.rows, j) ==> job.attempts < maxRetries + Faults(s, j)
    case DeadLettering(_) => job.status.Failed? && job.attempts >= maxRetries
  }

  predicate Settled(s: System, j: JobID) { j in s.acked || j in s.dlq }

  /** A placed message is in exactly one place: the main queue, the dead-letter queue, the
      acknowledged ones, or one worker's hands. */
  ghost predicate PlaceOk(s: System, j: JobID) {
    var n := s.main[j] + s.dlq[j] + if j in s.acked then 1 else 0;
    && (j !in s.placed ==> n == 0 && forall w :: !Holds(s, w, j))
    && (j in s.placed ==> j in s.rows && j !in s.flight && n <= 1)
    && (j in s.flight ==> j in s.rows)
    && (n == 1 ==> forall w :: !Holds(s, w, j))
    && (j in s.placed && n == 0 ==> exists w :: Holds(s, w, j))
    && (forall v, w :: Holds(s, v, j) && Holds(s, w, j) ==> v == w)
  }

  ghost predicate JobOk(s: System, j: JobID, maxRetries: nat) {
    && PlaceOk(s, j)
    && Count(s.marks, j) == (if j in s.rows then s.rows[j].attempts else 0)
    && Count(s.marks, j) <= maxRetries + Faults(s, j)
    && (j !in s.placed ==> Count(s.marks, j) == 0)
    && (Settled(s, j) ==> Terminal(s.rows, j))
    && (j in s.dlq ==> s.rows[j].status.Failed? && s.rows[j].attempts >= maxRetries)
    && (j in s.main && Active(s.rows, j) ==> s.rows[j].attempts < maxRetries + Faults(s, j))
    && (forall w :: Holds(s, w, j) ==> WorkerOk(s, s.workers[w], maxRetries))
  }

  predicate Owns(p: Caller, j: JobID) {
    (p.Publishing? || p.Awaiting? || p.Failing?) && p.job == j
  }

  predicate CallerOk(s: System, p: Caller) {
    match p
    case Publishing(j) => j in s.rows && j !in s.flight && j !in s.placed
    case Awaiting(j) => j in s.rows
    case Failing(j) => j in s.rows
    case Returned(Created(j)) => j in s.placed
    case Returned(Existing(j)) => j in s.rows
    case _ => true
  }

  ghost predicate CallersOk(s: System) {
    && (forall c :: c in s.callers ==> CallerOk(s, s.callers[c]))
    && (forall c, d, j :: c in s.callers && d in s.callers && Owns(s.callers[c], j) && Owns(s.callers[d], j) ==> c == d)
  }

  ghost predicate Inv(s: System, maxRetries: nat) {
    UniqueActive(s.rows) && (forall j :: JobOk(s, j, maxRetries)) && CallersOk(s)
  }

  // ------------------------------------------------------------------------- preservation

  /** Nothing about job `i` changes. */
  ghost predicate Unaffected(s: System, s': System, i: JobID) {
    && (i in s.rows <==> i in s'.rows) && (i in s.rows ==> s.rows[i] == s'.rows[i])
    && s.main[i] == s'.main[i] && s.dlq[i] == s'.dlq[i]
    && (i in s.flight <==> i in s'.flight) && (i in s.placed <==> i in s'.placed) && (i in s.acked <==> i in s'.acked)
    && Count(s.marks, i) == Count(s'.marks, i) && Count(s.faults, i) == Count(s'.faults, i)
    && (forall w :: Holds(s, w, i) <==> Holds(s', w, i))
    && (forall w :: Holds(s, w, i) ==> s.workers[w] == s'.workers[w])
  }

  lemma UnaffectedOk(s: System, s': System, i: JobID, maxRetries: nat)
    requires JobOk(s, i, maxRetries) && Unaffected(s, s', i)
    ensures JobOk(s', i, maxRetries)
  {
  }

  predicate SameKeys(rows: Rows, rows': Rows) {
    rows.Keys == rows'.Keys && forall i :: i in rows ==> rows[i].key == rows'[i].key
  }

  lemma UpdatedLocal(rows: Rows, j: JobID, status: Status)
    ensures SameKeys(rows, Updated(rows, j, status))
    ensures forall i :: i != j && i in rows ==> Updated(rows, j, status)[i] == rows[i]
    ensures j in rows ==> SameKeys(rows, Marked(rows, j)) && forall i :: i != j && i in rows ==> Marked(rows, j)[i] == rows[i]
  {
  }

  /** A worker's step writes only its own counter and facts about its own job. */
  ghost predicate Local(s: System, s': System, w: WorkerID, j: JobID) {
    && LocalWorkers(s.workers, s'.workers, w, j)
    && LocalTable(s, s', j)
    && (forall i :: i != j ==> s'.main[i] == s.main[i] && s'.dlq[i] == s.dlq[i] && (i in s'.acked <==> i in s.acked))
    && s'.flight == s.flight && s'.placed == s.placed && s'.callers == s.callers
  }

  ghost predicate LocalWorkers(ws: map<WorkerID, Worker>, ws': map<WorkerID, Worker>, w: WorkerID, j: JobID) {
    && w in ws && w in ws' && (ws[w].Free? || ws[w].job == j) && (ws'[w].Free? || ws'[w].job == j)
    && (forall v :: v != w ==> (v in ws' <==> v in ws) && (v in ws ==> ws'[v] == ws[v]))
  }

  ghost predicate LocalTable(s: System, s': System, j: JobID) {
    && SameKeys(s.rows, s'.rows)
    && (forall i :: i != j && i in s.rows ==> s'.rows[i] == s.rows[i])
    && (forall i :: i != j ==> Count(s'.marks, i) == Count(s.marks, i) && Count(s'.faults, i) == Count(s.faults, i))
  }

  lemma DeliveryLocal(s: System, w: WorkerID, j: JobID)
    requires w in s.workers && s.workers[w].Free?
    ensures Local(s, AfterDelivery(s, w, j), w, j)
  {
  }

  lemma BumpOther(m: map<JobID, nat>, j: JobID)
    ensures forall i :: i != j ==> Count(Bump(m, j), i) == Count(m, i)
  {
  }

  lemma StoreLocal(s: System, s': System, w: WorkerID, p': Worker, j: JobID)
    requires Busy(s, w) && s.workers[w].job == j && !p'.Free? && p'.job == j
    requires s' == s.(workers := s.workers[w := p'], rows := s'.rows, marks := s'.marks, faults := s'.faults)
    requires SameKeys(s.rows, s'.rows) && forall i :: i != j && i in s.rows ==> s'.rows[i] == s.rows[i]
    requires (s'.marks == s.marks || s'.marks == Bump(s.marks, j)) && (s'.faults == s.faults || s'.faults == Bump(s.faults, j))
    ensures Local(s, s', w, j)
  {
    BumpOther(s.marks, j);
    BumpOther(s.faults, j);
    hide Bump, Count, SameKeys;
  }

  lemma MarkLocal(s: System, w: WorkerID)
    requires Busy(s, w)
    ensures Local(s, AfterMark(s, w), w, s.workers[w].job)
  {
    var j := s.workers[w].job;
    UpdatedLocal(s.rows, j, Done);
    assert SameKeys(s.rows, s.rows);
    hide Marked, Local, Bump, Count;
    if j !in s.rows {
      GoLocal(s, w, Requeueing(j));
    } else if Terminal(s.rows, j) {
      GoLocal(s, w, Acking(j));
    } else {
      StoreLocal(s, AfterMark(s, w), w, Handling(j, s.rows[j].attempts + 1), j);
    }
  }

  lemma GoLocal(s: System, w: WorkerID, p: Worker)
    requires Busy(s, w) && !p.Free? && p.job == s.workers[w].job
    ensures Local(s, Go(s, w, p), w, p.job)
  {
  }

  lemma UpdateLocal(s: System, w: WorkerID, status: Status, p: Worker)
    requires Busy(s, w) && !p.Free? && p.job == s.workers[w].job
    ensures Local(s, AfterUpdate(s, w, status, p), w, p.job)
  {
    UpdatedLocal(s.rows, p.job, status);
    hide Updated;
  }

  lemma SettlingLocal(s: System, w: WorkerID)
    requires Busy(s, w)
    ensures Local(s, AfterSettling(s, w), w, s.workers[w].job)
  {
    var j := s.workers[w].job;
    AckLocal(s, w, j);
    DeadLetterLocal(s, w, j);
    RequeueLocal(s, w, j);
    hide Local;
  }

  lemma AckLocal(s: System, w: WorkerID, j: JobID)
    requires Busy(s, w) && s.workers[w].job == j
    ensures Local(s, s.(workers := s.workers[w := Free], acked := s.acked + {j}), w, j)
  {
  }

  lemma DeadLetterLocal(s: System, w: WorkerID, j: JobID)
    requires Busy(s, w) && s.workers[w].job == j
    ensures Local(s, s.(workers := s.workers[w := Free], dlq := s.dlq + multiset{j}), w, j)
  {
  }

  lemma RequeueLocal(s: System, w: WorkerID, j: JobID)
    requires Busy(s, w) && s.workers[w].job == j
    ensures Local(s, s.(workers := s.workers[w := Free], main := s.main + multiset{j}), w, j)
  {
  }

  lemma CrashLocal(s: System, w: WorkerID)
    requires Busy(s, w)
    ensures Local(s, AfterCrash(s, w), w, s.workers[w].job)
  {
    BumpOther(s.faults, s.workers[w].job);
    hide Bump, Count;
  }

  lemma StoreErrorLocal(s: System, w: WorkerID, applied: bool, maxRetries: nat)
    requires Busy(s, w)
    ensures Local(s, AfterStoreError(s, w, applied, maxRetries), w, s.workers[w].job)
  {
    var j := s.workers[w].job;
    UpdatedLocal(s.rows, j, Done);
    UpdatedLocal(s.rows, j, Failed);
    UpdatedLocal(s.rows, j, Queued);
    assert SameKeys(s.rows, s.rows);
    hide Updated, Marked, Terminal, Bump, Count, Local;
    StoreLocal(s, AfterStoreError(s, w, applied, maxRetries), w, Requeueing(j), j);
  }

  function Subject(s: System, a: Action): JobID
    requires WorkerAt(s, a)
  {
    if a.Deliver? then a.job else s.workers[a.worker].job
  }

  lemma WorkerStepLocal(s: System, a: Action, maxRetries: nat)
    requires WorkerAt(s, a)
    ensures Local(s, WorkerStep(s, a, maxRetries), a.worker, Subject(s, a))
  {
    var w := a.worker;
    hide Local, AfterDelivery, AfterMark, Go, AfterUpdate, AfterSettling, AfterCrash, AfterStoreError;
    match a {
      case Deliver(_, j) => DeliveryLocal(s, w, j);
      case MarkProcessing(_) => MarkLocal(s, w);
      case Handle(_, ok) =>
        var p := s.workers[w];
        GoLocal(s, w, if ok then Succeeded(p.job, p.attempts) else Erred(p.job, p.attempts));
      case MarkDone(_) => UpdateLocal(s, w, Done, Acking(s.workers[w].job));
      case HandleError(_) =>
        UpdateLocal(s, w, Failed, DeadLettering(s.workers[w].job));
        UpdateLocal(s, w, Queued, Requeueing(s.workers[w].job));
      case Settle(_) => SettlingLocal(s, w);
      case Crash(_) => CrashLocal(s, w);
      case StoreError(_, applied) => StoreErrorLocal(s, w, applied, maxRetries);
      case _ =>
    }
  }

  lemma OthersUnaffected(s: System, s': System, w: WorkerID, j: JobID, i: JobID)
    requires Local(s, s', w, j) && i != j
    ensures Unaffected(s, s', i)
  {
  }

  lemma UpdatedUnique(rows: Rows, j: JobID, status: Status)
    requires UniqueActive(rows)
    ensures UniqueActive(Updated(rows, j, status))
  {
  }

  lemma MarkedUnique(rows: Rows, j: JobID)
    requires UniqueActive(rows) && Active(rows, j)
    ensures UniqueActive(Marked(rows, j))
  {
  }

  /** A step that is local to job `j` keeps the invariant if it keeps it for `j`. */
  lemma Focus(s: System, s': System, w: WorkerID, j: JobID, maxRetries: nat)
    requires Inv(s, maxRetries) && Local(s, s', w, j)
    requires JobOk(s', j, maxRetries) && UniqueActive(s'.rows)
    ensures Inv(s', maxRetries)
  {
    assert CallersOk(s');
    hide JobOk, UniqueActive, Local, CallersOk;
    forall i ensures JobOk(s', i, maxRetries) {
      if i != j {
        OthersUnaffected(s, s', w, j, i);
        UnaffectedOk(s, s', i, maxRetries);
      }
    }
  }

  lemma DeliveryKeeps(s: System, w: WorkerID, j: JobID, maxRetries: nat)
    requires Inv(s, maxRetries) && w in s.workers && s.workers[w].Free? && j in s.main
    ensures Inv(AfterDelivery(s, w, j), maxRetries)
  {
    var s' := AfterDelivery(s, w, j);
    assert JobOk(s, j, maxRetries);
    forall v ensures Holds(s', v, j) <==> v == w {
      assert !Holds(s, v, j);
    }
    assert Holds(s', w, j);
    assert JobOk(s', j, maxRetries);
    DeliveryLocal(s, w, j);
    hide JobOk, Local;
    Focus(s, s', w, j, maxRetries);
  }

  /** A step that keeps the message in the worker's hands. */
  lemma KeepHolding(s: System, s': System, w: WorkerID, p': Worker, maxRetries: nat)
    requires Inv(s, maxRetries) && Busy(s, w) && !p'.Free? && p'.job == s.workers[w].job
    requires s' == s.(workers := s.workers[w := p'], rows := s'.rows, marks := s'.marks, faults := s'.faults)
    requires Local(s, s', w, p'.job) && UniqueActive(s'.rows)
    requires p'.job in s'.rows && Count(s'.marks, p'.job) == s'.rows[p'.job].attempts <= maxRetries + Faults(s', p'.job)
    requires WorkerOk(s', p', maxRetries)
    ensures Inv(s', maxRetries)
  {
    var j := p'.job;
    assert JobOk(s, j, maxRetries) && Holds(s, w, j) && Holds(s', w, j);
    forall v ensures Holds(s', v, j) <==> Holds(s, v, j) {
    }
    assert JobOk(s', j, maxRetries);
    hide JobOk, Local;
    Focus(s, s', w, j, maxRetries);
  }

  lemma HeldJob(s: System, w: WorkerID, maxRetries: nat)
    requires Inv(s, maxRetries) && Busy(s, w)
    ensures var p := s.workers[w];
      p.job in s.rows && WorkerOk(s, p, maxRetries) && UniqueActive(s.rows)
      && Count(s.marks, p.job) == s.rows[p.job].attempts <= maxRetries + Faults(s, p.job)
  {
    assert JobOk(s, s.workers[w].job, maxRetries) && Holds(s, w, s.workers[w].job);
  }

  lemma MarkKeeps(s: System, w: WorkerID, maxRetries: nat)
    requires Inv(s, maxRetries) && Busy(s, w) && s.workers[w].Got?
    ensures Inv(AfterMark(s, w), maxRetries)
  {
    HeldJob(s, w, maxRetries);
    var s' := AfterMark(s, w);
    if Active(s.rows, s.workers[w].job) {
      MarkedUnique(s.rows, s.workers[w].job);
    }
    MarkLocal(s, w);
    hide Inv, UniqueActive, Local;
    KeepHolding(s, s', w, s'.workers[w], maxRetries);
  }

  lemma HandleKeeps(s: System, w: WorkerID, p: Worker, maxRetries: nat)
    requires Inv(s, maxRetries) && Busy(s, w) && s.workers[w].Handling?
    requires p == Succeeded(s.workers[w].job, s.workers[w].attempts) || p == Erred(s.workers[w].job, s.workers[w].attempts)
    ensures Inv(Go(s, w, p), maxRetries)
  {
    HeldJob(s, w, maxRetries);
    GoLocal(s, w, p);
    hide Inv, UniqueActive, Local;
    KeepHolding(s, Go(s, w, p), w, p, maxRetries);
  }

  lemma UpdateKeeps(s: System, w: WorkerID, status: Status, p: Worker, maxRetries: nat)
    requires Inv(s, maxRetries) && Busy(s, w)
    requires var q := s.workers[w];
      || (q.Succeeded? && status.Done? && p == Acking(q.job))
      || (q.Erred? && q.attempts >= maxRetries && status.Failed? && p == DeadLettering(q.job))
      || (q.Erred? && q.attempts < maxRetries && status.Queued? && p == Requeueing(q.job))
    ensures Inv(AfterUpdate(s, w, status, p), maxRetries)
  {
    HeldJob(s, w, maxRetries);
    var s' := AfterUpdate(s, w, status, p);
    UpdatedUnique(s.rows, p.job, status);
    UpdateLocal(s, w, status, p);
    hide Inv, UniqueActive, Collides, Local;
    KeepHolding(s, s', w, p, maxRetries);
  }

  lemma StoreErrorKeeps(s: System, w: WorkerID, applied: bool, maxRetries: nat)
    requires Inv(s, maxRetries) && Busy(s, w)
    requires s.workers[w].Got? || s.workers[w].Succeeded? || s.workers[w].Erred?
    ensures Inv(AfterStoreError(s, w, applied, maxRetries), maxRetries)
  {
    HeldJob(s, w, maxRetries);
    var p, s' := s.workers[w], AfterStoreError(s, w, applied, maxRetries);
    StoreErrorUnique(s, w, applied, maxRetries);
    StoreErrorJob(s, w, applied, maxRetries);
    StoreErrorLocal(s, w, applied, maxRetries);
    assert s' == s.(workers := s.workers[w := Requeueing(p.job)], rows := s'.rows, marks := s'.marks, faults := s'.faults);
    hide Inv, UniqueActive, Local, AfterStoreError, WorkerOk;
    KeepHolding(s, s', w, Requeueing(p.job), maxRetries);
  }

  lemma StoreErrorUnique(s: System, w: WorkerID, applied: bool, maxRetries: nat)
    requires Busy(s, w) && UniqueActive(s.rows) && s.workers[w].job in s.rows
    ensures UniqueActive(AfterStoreError(s, w, applied, maxRetries).rows)
  {
    var j := s.workers[w].job;
    if Active(s.rows, j) {
      MarkedUnique(s.rows, j);
    }
    UpdatedUnique(s.rows, j, Done);
    UpdatedUnique(s.rows, j, Failed);
    UpdatedUnique(s.rows, j, Queued);
    hide UniqueActive, Updated, Marked;
  }

  lemma StoreErrorJob(s: System, w: WorkerID, applied: bool, maxRetries: nat)
    requires Busy(s, w) && s.workers[w].job in s.rows && WorkerOk(s, s.workers[w], maxRetries)
    requires s.workers[w].Got? || s.workers[w].Succeeded? || s.workers[w].Erred?
    requires var j := s.workers[w].job; Count(s.marks, j) == s.rows[j].attempts <= maxRetries + Faults(s, j)
    ensures var s', j := AfterStoreError(s, w, applied, maxRetries), s.workers[w].job;
      && j in s'.rows && Count(s'.marks, j) == s'.rows[j].attempts <= maxRetries + Faults(s', j)
      && WorkerOk(s', Requeueing(j), maxRetries)
  {
    hide Collides;
  }

  /** The message leaves the worker's hands for exactly one other place. */
  lemma LetGo(s: System, s': System, w: WorkerID, maxRetries: nat)
    requires Inv(s, maxRetries) && Busy(s, w)
    requires (s' == AfterSettling(s, w) && (s.workers[w].Acking? || s.workers[w].DeadLettering? || s.workers[w].Requeueing?))
             || s' == AfterCrash(s, w)
    ensures Inv(s', maxRetries)
  {
    var j := s.workers[w].job;
    HeldJob(s, w, maxRetries);
    assert JobOk(s, j, maxRetries) && Holds(s, w, j);
    if s' == AfterCrash(s, w) {
      CrashedJob(s, w, maxRetries);
      CrashLocal(s, w);
    } else {
      SettledJob(s, w, maxRetries);
      SettlingLocal(s, w);
    }
    assert UniqueActive(s'.rows);
    hide JobOk, Local, AfterCrash, AfterSettling, Inv;
    Focus(s, s', w, j, maxRetries);
  }

  lemma CrashedJob(s: System, w: WorkerID, maxRetries: nat)
    requires Busy(s, w) && JobOk(s, s.workers[w].job, maxRetries)
    ensures JobOk(AfterCrash(s, w), s.workers[w].job, maxRetries)
  {
    var s', j := AfterCrash(s, w), s.workers[w].job;
    assert Holds(s, w, j);
    forall v ensures !Holds(s', v, j) {
      assert v != w ==> !Holds(s, v, j);
    }
  }

  lemma SettledJob(s: System, w: WorkerID, maxRetries: nat)
    requires Busy(s, w) && JobOk(s, s.workers[w].job, maxRetries)
    requires s.workers[w].Acking? || s.workers[w].DeadLettering? || s.workers[w].Requeueing?
    ensures JobOk(AfterSettling(s, w), s.workers[w].job, maxRetries)
  {
    var s', j := AfterSettling(s, w), s.workers[w].job;
    assert Holds(s, w, j);
    forall v ensures !Holds(s', v, j) {
      assert v != w ==> !Holds(s, v, j);
    }
  }

  lemma WorkerStepInv(s: System, a: Action, maxRetries: nat)
    requires Inv(s, maxRetries) && WorkerAt(s, a)
    ensures Inv(WorkerStep(s, a, maxRetries), maxRetries)
  {
    hide Inv;
    var w := a.worker;
    match a {
      case Deliver(_, j) => DeliveryKeeps(s, w, j, maxRetries);
      case MarkProcessing(_) => MarkKeeps(s, w, maxRetries);
      case Handle(_, ok) => HandleKeeps(s, w, WorkerStep(s, a, maxRetries).workers[w], maxRetries);
      case MarkDone(_) => UpdateKeeps(s, w, Done, Acking(s.workers[w].job), maxRetries);
      case HandleError(_) =>
        var p := s.workers[w];
        if p.attempts >= maxRetries {
          UpdateKeeps(s, w, Failed, DeadLettering(p.job), maxRetries);
        } else {
          UpdateKeeps(s, w, Queued, Requeueing(p.job), maxRetries);
        }
      case StoreError(_, applied) => StoreErrorKeeps(s, w, applied, maxRetries);
      case Settle(_) => LetGo(s, AfterSettling(s, w), w, maxRetries);
      case Crash(_) => LetGo(s, AfterCrash(s, w), w, maxRetries);
      case _ =>
    }
  }

  /** A step of a caller or of the network, local to job `j`. */
  lemma FocusCaller(s: System, s': System, j: JobID, maxRetries: nat)
    requires Inv(s, maxRetries)
    requires s' == s.(rows := s'.rows, main := s'.main, flight := s'.flight, placed := s'.placed, callers := s'.callers)
    requires forall i :: i != j ==> (i in s.rows <==> i in s'.rows) && (i in s.rows ==> s.rows[i] == s'.rows[i])
    requires forall i :: i != j ==> s.main[i] == s'.main[i]
    requires forall i :: i != j ==> (i in s.flight <==> i in s'.flight) && (i in s.placed <==> i in s'.placed)
    requires JobOk(s', j, maxRetries) && UniqueActive(s'.rows) && CallersOk(s')
    ensures Inv(s', maxRetries)
  {
    hide JobOk, UniqueActive, CallersOk;
    forall i ensures JobOk(s', i, maxRetries) {
      if i != j {
        assert Unaffected(s, s', i);
        UnaffectedOk(s, s', i, maxRetries);
      }
    }
  }

  /** A caller moves on without touching anything else. */
  lemma MoveKeeps(s: System, c: CallerID, p: Caller, maxRetries: nat)
    requires Inv(s, maxRetries) && CallerOk(s, p)
    requires forall j :: Owns(p, j) ==> c in s.callers && Owns(s.callers[c], j)
    ensures Inv(Move(s, c, p), maxRetries)
  {
    var s' := Move(s, c, p);
    assert CallersOk(s');
    hide UniqueActive, CallersOk;
    forall j ensures JobOk(s', j, maxRetries) {
      hide JobOk;
      assert Unaffected(s, s', j);
      UnaffectedOk(s, s', j, maxRetries);
    }
  }

  /** The row is inserted; the caller goes on to publish it, or misses that it was. */
  lemma InsertKeeps(s: System, c: CallerID, j: JobID, p: Caller, maxRetries: nat)
    requires Inv(s, maxRetries) && c in s.callers && s.callers[c].Inserting? && j !in s.rows
    requires !Collides(s.rows, j, s.callers[c].key) && (p == Publishing(j) || p.Refinding?)
    ensures Inv(AfterInsert(s, c, j, p), maxRetries)
  {
    var s' := AfterInsert(s, c, j, p);
    assert JobOk(s, j, maxRetries);
    forall w ensures !Holds(s', w, j) {
      assert !Holds(s, w, j);
    }
    assert JobOk(s', j, maxRetries);
    assert CallersOk(s');
    assert UniqueActive(s'.rows);
    hide JobOk, UniqueActive, CallersOk;
    FocusCaller(s, s', j, maxRetries);
  }

  lemma SendKeeps(s: System, c: CallerID, maxRetries: nat)
    requires Inv(s, maxRetries) && c in s.callers && s.callers[c].Publishing?
    ensures Inv(CallerStep(s, Send(c)), maxRetries)
  {
    var j := s.callers[c].job;
    var s' := CallerStep(s, Send(c));
    assert CallerOk(s, s.callers[c]) && Owns(s.callers[c], j);
    assert JobOk(s, j, maxRetries);
    assert forall w :: Holds(s', w, j) <==> Holds(s, w, j);
    assert JobOk(s', j, maxRetries);
    assert CallersOk(s');
    hide JobOk, UniqueActive, CallersOk;
    FocusCaller(s, s', j, maxRetries);
  }

  /** A caller whose publish failed marks its job failed, whatever happened to the message. */
  lemma FailKeeps(s: System, c: CallerID, maxRetries: nat)
    requires Inv(s, maxRetries) && c in s.callers && s.callers[c].Failing?
    ensures Inv(AfterFailing(s, c), maxRetries)
  {
    var j := s.callers[c].job;
    var s' := AfterFailing(s, c);
    assert CallerOk(s, s.callers[c]);
    UpdatedUnique(s.rows, j, Failed);
    assert JobOk(s, j, maxRetries);
    assert forall w :: Holds(s', w, j) <==> Holds(s, w, j);
    assert JobOk(s', j, maxRetries);
    assert CallersOk(s');
    hide JobOk, UniqueActive, CallersOk;
    FocusCaller(s, s', j, maxRetries);
  }

  lemma NetworkKeeps(s: System, a: Action, maxRetries: nat)
    requires Inv(s, maxRetries) && Can(s, a) && (a.Arrive? || a.Lose?) && maxRetries > 0
    ensures Inv(Step(s, a, maxRetries), maxRetries)
  {
    var s', j := Step(s, a, maxRetries), a.job;
    assert JobOk(s, j, maxRetries);
    assert forall w :: Holds(s', w, j) <==> Holds(s, w, j);
    assert JobOk(s', j, maxRetries);
    assert CallersOk(s');
    hide JobOk, UniqueActive, CallersOk;
    FocusCaller(s, s', j, maxRetries);
  }

  lemma CallerStepInv(s: System, a: Action, maxRetries: nat)
    requires Inv(s, maxRetries) && CallerAt(s, a)
    ensures Inv(CallerStep(s, a), maxRetries)
  {
    var c := a.caller;
    var p := s.callers[c];
    assert CallerOk(s, p);
    hide Inv, Collides, UniqueActive;
    match a {
      case Insert(_, j) =>
        if Collides(s.rows, j, p.key) {
          MoveKeeps(s, c, Refinding(p.key), maxRetries);
        } else {
          InsertKeeps(s, c, j, Publishing(j), maxRetries);
        }
      case Send(_) => SendKeeps(s, c, maxRetries);
      case MarkFailed(_) => FailKeeps(s, c, maxRetries);
      case CallError(_, j, applied) =>
        if p.Inserting? && applied && !Collides(s.rows, j, p.key) {
          InsertKeeps(s, c, j, Refinding(p.key), maxRetries);
        } else if p.Failing? && applied {
          FailKeeps(s, c, maxRetries);
        } else {
          MoveKeeps(s, c, CallerStep(s, a).callers[c], maxRetries);
        }
      case Stop(_) => StopKeeps(s, c, maxRetries);
      case Find(_, _) => MoveKeeps(s, c, CallerStep(s, a).callers[c], maxRetries);
      case Confirm(_) => MoveKeeps(s, c, Returned(Created(p.job)), maxRetries);
      case PublishFails(_) => MoveKeeps(s, c, Failing(p.job), maxRetries);
      case _ =>
    }
  }

  lemma StopKeeps(s: System, c: CallerID, maxRetries: nat)
    requires Inv(s, maxRetries) && c in s.callers
    ensures Inv(s.(callers := s.callers - {c}), maxRetries)
  {
    var s' := s.(callers := s.callers - {c});
    assert CallersOk(s');
    hide UniqueActive, CallersOk;
    forall j ensures JobOk(s', j, maxRetries) {
      hide JobOk;
      assert Unaffected(s, s', j);
      UnaffectedOk(s, s', j, maxRetries);
    }
  }

  lemma StartKeeps(s: System, w: WorkerID, maxRetries: nat)
    requires Inv(s, maxRetries) && w !in s.workers
    ensures Inv(Go(s, w, Free), maxRetries)
  {
    var s' := Go(s, w, Free);
    assert CallersOk(s');
    hide UniqueActive, CallersOk;
    forall j ensures JobOk(s', j, maxRetries) {
      hide JobOk;
      assert Unaffected(s, s', j);
      UnaffectedOk(s, s', j, maxRetries);
    }
  }

  lemma StepInv(s: System, a: Action, maxRetries: nat)
    requires Inv(s, maxRetries) && Can(s, a) && maxRetries > 0
    ensures Inv(Step(s, a, maxRetries), maxRetries)
  {
    hide Inv;
    match a {
      case Start(w) => StartKeeps(s, w, maxRetries);
      case Enqueue(c, key) => MoveKeeps(s, c, if key.resourceID == "" then Returned(Error) else Finding(key), maxRetries);
      case Arrive(_) => NetworkKeeps(s, a, maxRetries);
      case Lose(_) => NetworkKeeps(s, a, maxRetries);
      case _ =>
        if WorkerAt(s, a) {
          WorkerStepInv(s, a, maxRetries);
        } else {
          CallerStepInv(s, a, maxRetries);
        }
    }
  }

  // ---------------------------------------------------------------------- runs and safety

  ghost predicate CanRun(s: System, run: seq<Action>, maxRetries: nat)
    decreases |run|, 0
  {
    run == [] || (CanRun(s, run[..|run| - 1], maxRetries) && Can(Run(s, run[..|run| - 1], maxRetries), run[|run| - 1]))
  }

  ghost function Run(s: System, run: seq<Action>, maxRetries: nat): System
    requires CanRun(s, run, maxRetries)
    decreases |run|, 1
  {
    if run == [] then s else Step(Run(s, run[..|run| - 1], maxRetries), run[|run| - 1], maxRetries)
  }

  lemma {:induction false} RunInv(s: System, run: seq<Action>, maxRetries: nat)
    requires Inv(s, maxRetries) && CanRun(s, run, maxRetries) && maxRetries > 0
    ensures Inv(Run(s, run, maxRetries), maxRetries)
  {
    if run != [] {
      RunInv(s, run[..|run| - 1], maxRetries);
      StepInv(Run(s, run[..|run| - 1], maxRetries), run[|run| - 1], maxRetries);
    }
  }

  /** No job is lost: after any run, an active job whose message was ever placed has exactly
      one message, in the main queue or in one worker's hands, and it is not settled. */
  lemma NoJobIsLost(run: seq<Action>, maxRetries: nat, j: JobID)
    requires CanRun(INIT, run, maxRetries) && maxRetries > 0
    ensures var s := Run(INIT, run, maxRetries);
      j in s.placed && Active(s.rows, j) ==>
        && !Settled(s, j)
        && (s.main[j] == 1 || (s.main[j] == 0 && exists w :: Holds(s, w, j)))
        && (forall v, w :: Holds(s, v, j) && Holds(s, w, j) ==> v == w)
        && (s.main[j] == 1 ==> forall w :: !Holds(s, w, j))
  {
    RunInv(INIT, run, maxRetries);
    assert JobOk(Run(INIT, run, maxRetries), j, maxRetries);
  }

  /** A message is acknowledged or dead-lettered, once and not both, only for a terminal job
      (now and in every later state); a dead-lettered job is failed with its retries used up. */
  lemma SettledIsTerminal(run: seq<Action>, maxRetries: nat, j: JobID)
    requires CanRun(INIT, run, maxRetries) && maxRetries > 0
    ensures var s := Run(INIT, run, maxRetries);
      && (Settled(s, j) ==> Terminal(s.rows, j) && s.main[j] == 0 && forall w :: !Holds(s, w, j))
      && (j in s.dlq ==> s.dlq[j] == 1 && j !in s.acked && s.rows[j].status.Failed? && s.rows[j].attempts >= maxRetries)
  {
    RunInv(INIT, run, maxRetries);
    assert JobOk(Run(INIT, run, maxRetries), j, maxRetries);
  }

  /** Attempts count the committed MarkProcessing updates, and exceed the retry limit by at
      most the number of faults. */
  lemma AttemptsAreBounded(run: seq<Action>, maxRetries: nat, j: JobID)
    requires CanRun(INIT, run, maxRetries) && maxRetries > 0
    ensures var s := Run(INIT, run, maxRetries);
      j in s.rows ==> s.rows[j].attempts == Count(s.marks, j) <= maxRetries + Faults(s, j)
  {
    RunInv(INIT, run, maxRetries);
    assert JobOk(Run(INIT, run, maxRetries), j, maxRetries);
  }

  /** At most one active job per key; a caller told that its job was created can rely on its
      message having been placed. */
  lemma OneActiveJobPerKey(run: seq<Action>, maxRetries: nat)
    requires CanRun(INIT, run, maxRetries) && maxRetries > 0
    ensures var s := Run(INIT, run, maxRetries);
      && UniqueActive(s.rows)
      && (forall c :: c in s.callers && s.callers[c].Returned? && s.callers[c].answer.Created? ==> s.callers[c].answer.job in s.placed)
  {
    RunInv(INIT, run, maxRetries);
    var s := Run(INIT, run, maxRetries);
    forall c | c in s.callers && s.callers[c].Returned? && s.callers[c].answer.Created? ensures s.callers[c].answer.job in s.placed {
      assert CallerOk(s, s.callers[c]);
    }
  }

  // ----------------------------------------------------------------- creating and finding

  /** The row that a step creates, with its key. */
  predicate Creates(s: System, a: Action, j: JobID, maxRetries: nat)
    requires Can(s, a)
  {
    j !in s.rows && j in Step(s, a, maxRetries).rows
  }

  predicate Inserted(s: System, c: CallerID, j: JobID, rows: Rows) {
    c in s.callers && s.callers[c].Inserting? && j !in s.rows && !Collides(s.rows, j, s.callers[c].key)
    && rows == s.rows[j := Job(s.callers[c].key, Queued, 0)]
  }

  /** A caller's step changes its own counter, and inserts a row or fails its own job at most. */
  ghost predicate CallerMoves(s: System, s': System, c: CallerID) {
    && s' == s.(rows := s'.rows, flight := s'.flight, callers := s'.callers) && c in s.callers
    && (forall d :: d != c ==> (d in s'.callers <==> d in s.callers) && (d in s.callers ==> s'.callers[d] == s.callers[d]))
    && (forall j :: c in s'.callers && Owns(s'.callers[c], j) ==> Owns(s.callers[c], j) || j !in s.rows)
    && s.flight <= s'.flight && (forall j :: j in s'.flight && j !in s.flight ==> Owns(s.callers[c], j))
  }

  predicate RowsMove(s: System, c: CallerID, i: JobID, rows: Rows) {
    || rows == s.rows
    || (c in s.callers && s.callers[c].Failing? && rows == Updated(s.rows, s.callers[c].job, Failed))
    || Inserted(s, c, i, rows)
  }

  lemma MoveMoves(s: System, c: CallerID, p: Caller)
    requires c in s.callers && (forall j :: Owns(p, j) ==> Owns(s.callers[c], j))
    ensures CallerMoves(s, Move(s, c, p), c)
  {
  }

  lemma InsertMoves(s: System, c: CallerID, j: JobID, p: Caller)
    requires c in s.callers && s.callers[c].Inserting? && j !in s.rows && (p == Publishing(j) || p.Refinding?)
    ensures CallerMoves(s, AfterInsert(s, c, j, p), c) && RowsMove(s, c, j, AfterInsert(s, c, j, p).rows)
  {
    hide Collides;
  }

  lemma FailingMoves(s: System, c: CallerID)
    requires c in s.callers && s.callers[c].Failing?
    ensures CallerMoves(s, AfterFailing(s, c), c)
  {
    hide Updated;
  }

  function NewJob(a: Action): JobID {
    match a
    case Insert(_, j) => j
    case CallError(_, j, _) => j
    case _ => 0
  }

  lemma SendMoves(s: System, c: CallerID, j: JobID)
    requires c in s.callers && s.callers[c] == Publishing(j)
    ensures CallerMoves(s, s.(callers := s.callers[c := Awaiting(j)], flight := s.flight + {j}), c)
  {
  }

  lemma StopMoves(s: System, c: CallerID)
    requires c in s.callers
    ensures CallerMoves(s, s.(callers := s.callers - {c}), c)
  {
  }

  lemma CallerStepMoves(s: System, a: Action)
    requires CallerAt(s, a)
    ensures CallerMoves(s, CallerStep(s, a), a.caller) && RowsMove(s, a.caller, NewJob(a), CallerStep(s, a).rows)
  {
    var c := a.caller;
    var p := s.callers[c];
    hide CallerMoves;
    match a {
      case Stop(_) => StopMoves(s, c);
      case Insert(_, j) => InsertMoves(s, c, j, Publishing(j));
      case Send(_) => SendMoves(s, c, p.job);
      case MarkFailed(_) => FailingMoves(s, c);
      case CallError(_, j, applied) =>
        MoveMoves(s, c, Refinding(if p.Inserting? then p.key else Key("", "", "")));
        MoveMoves(s, c, Returned(Error));
        if p.Inserting? {
          InsertMoves(s, c, j, Refinding(p.key));
        } else if p.Failing? {
          FailingMoves(s, c);
        }
      case Find(_, found) => MoveMoves(s, c, CallerStep(s, a).callers[c]);
      case Confirm(_) => MoveMoves(s, c, Returned(Created(p.job)));
      case PublishFails(_) => MoveMoves(s, c, Failing(p.job));
      case _ =>
    }
    hide CallerMoves, Updated, Collides, IsFound;
  }

  /** Rows are never deleted, their keys never change, and only inserts add one. */
  lemma StepRows(s: System, a: Action, maxRetries: nat)
    requires Can(s, a)
    ensures var rows := Step(s, a, maxRetries).rows;
      SameKeys(s.rows, rows) || ((a.Insert? || a.CallError?) && Inserted(s, a.caller, NewJob(a), rows))
  {
    assert SameKeys(s.rows, s.rows);
    if WorkerAt(s, a) {
      WorkerStepLocal(s, a, maxRetries);
      hide WorkerStep;
    } else if CallerAt(s, a) {
      CallerStepMoves(s, a);
      if s.callers[a.caller].Failing? {
        UpdatedLocal(s.rows, s.callers[a.caller].job, Failed);
      }
      hide CallerStep, SameKeys, Updated, Collides, CallerMoves;
    }
  }

  lemma RowsPersist(s: System, a: Action, maxRetries: nat, j: JobID)
    requires Can(s, a) && j in s.rows
    ensures j in Step(s, a, maxRetries).rows && Step(s, a, maxRetries).rows[j].key == s.rows[j].key
  {
    StepRows(s, a, maxRetries);
    hide Step;
  }

  lemma {:induction false} RunPersists(s: System, run: seq<Action>, maxRetries: nat, j: JobID)
    requires CanRun(s, run, maxRetries) && j in s.rows
    ensures j in Run(s, run, maxRetries).rows && Run(s, run, maxRetries).rows[j].key == s.rows[j].key
  {
    if run != [] {
      RunPersists(s, run[..|run| - 1], maxRetries, j);
      RowsPersist(Run(s, run[..|run| - 1], maxRetries), run[|run| - 1], maxRetries, j);
    }
  }

  /** A second job for a key is created only when the first one has turned terminal. */
  lemma CreationsAreSeparated(s: System, run: seq<Action>, a: Action, maxRetries: nat, first: JobID, second: JobID)
    requires CanRun(s, run, maxRetries) && first in s.rows
    requires Can(Run(s, run, maxRetries), a) && Creates(Run(s, run, maxRetries), a, second, maxRetries)
    requires Step(Run(s, run, maxRetries), a, maxRetries).rows[second].key == s.rows[first].key
    ensures Terminal(Run(s, run, maxRetries).rows, first)
  {
    RunPersists(s, run, maxRetries, first);
    CreationFindsNoActive(Run(s, run, maxRetries), a, maxRetries, first, second);
  }

  lemma CreationFindsNoActive(s: System, a: Action, maxRetries: nat, first: JobID, second: JobID)
    requires Can(s, a) && Creates(s, a, second, maxRetries) && first in s.rows
    requires Step(s, a, maxRetries).rows[second].key == s.rows[first].key
    ensures Terminal(s.rows, first)
  {
    StepRows(s, a, maxRetries);
    hide Step, Can;
  }

  /** An existing job is returned only if it is active, with the caller's key, at that very step. */
  lemma ExistingIsActive(s: System, a: Action, maxRetries: nat, c: CallerID, j: JobID)
    requires Can(s, a) && c in s.callers && !s.callers[c].Returned?
    requires c in Step(s, a, maxRetries).callers && Step(s, a, maxRetries).callers[c] == Returned(Existing(j))
    ensures (s.callers[c].Finding? || s.callers[c].Refinding?) && Active(s.rows, j) && s.rows[j].key == s.callers[c].key
  {
    if WorkerAt(s, a) {
      WorkerStepLocal(s, a, maxRetries);
      hide WorkerStep;
    } else if CallerAt(s, a) {
      hide CallerStep, WorkerAt;
      if a.caller != c {
        OtherCaller(s, a, c);
      } else {
        OwnAnswer(s, a, j);
      }
    }
  }

  /** Only finding it makes a caller answer with an existing job. */
  lemma OwnAnswer(s: System, a: Action, j: JobID)
    requires CallerAt(s, a) && a.caller in s.callers && !s.callers[a.caller].Returned?
    requires a.caller in CallerStep(s, a).callers && CallerStep(s, a).callers[a.caller] == Returned(Existing(j))
    ensures a == Find(a.caller, Some(j))
  {
    var p := s.callers[a.caller];
    if a.CallError? {
      hide CallerStep, CallerAt;
      ErrorAnswers(s, a);
    } else if a.Insert? {
      InsertAnswers(s, a.caller, a.job, Publishing(a.job));
    } else if a.MarkFailed? {
      FailingAnswers(s, a.caller);
    }
    hide AfterInsert, AfterFailing, IsFound;
  }

  lemma ErrorAnswers(s: System, a: Action)
    requires CallerAt(s, a) && a.CallError?
    ensures a.caller in CallerStep(s, a).callers
    ensures CallerStep(s, a).callers[a.caller].Refinding? || CallerStep(s, a).callers[a.caller] == Returned(Error)
  {
    var p := s.callers[a.caller];
    if p.Inserting? {
      InsertAnswers(s, a.caller, a.job, Refinding(p.key));
    } else if p.Failing? {
      FailingAnswers(s, a.caller);
    }
    hide AfterInsert, AfterFailing;
  }

  lemma InsertAnswers(s: System, c: CallerID, j: JobID, p: Caller)
    requires c in s.callers && s.callers[c].Inserting?
    ensures c in AfterInsert(s, c, j, p).callers && AfterInsert(s, c, j, p).callers[c] in {p, Refinding(s.callers[c].key)}
  {
    hide Collides;
  }

  lemma FailingAnswers(s: System, c: CallerID)
    requires c in s.callers && s.callers[c].Failing?
    ensures c in AfterFailing(s, c).callers && AfterFailing(s, c).callers[c] == Returned(Error)
  {
    hide Updated;
  }

  lemma OtherCaller(s: System, a: Action, c: CallerID)
    requires CallerAt(s, a) && c in s.callers && a.caller != c
    ensures c in CallerStep(s, a).callers && CallerStep(s, a).callers[c] == s.callers[c]
  {
    CallerStepMoves(s, a);
    hide CallerStep;
  }

  // -------------------------------------------------------------------------- termination

  function Passes(attempts: nat, maxRetries: nat): nat {
    if attempts < maxRetries then maxRetries - attempts else 0
  }

  /** Deliveries that a waiting message may still need before its job settles. */
  function Pending(s: System, j: JobID, maxRetries: nat): nat {
    if !Active(s.rows, j) then 0
    else if Passes(s.rows[j].attempts, maxRetries) == 0 then 1 else Passes(s.rows[j].attempts, maxRetries)
  }

  function Work(s: System, p: Worker, maxRetries: nat): nat
    requires !p.Free?
  {
    match p
    case Got(j) => 10 * Pending(s, j, maxRetries) + 5
    case Handling(_, n) => 10 * Passes(n, maxRetries) + 14
    case Succeeded(_, _) => 3
    case Erred(_, n) => 10 * Passes(n, maxRetries) + 13
    case Acking(_) => 1
    case Requeueing(j) => 10 * Pending(s, j, maxRetries) + 7
    case DeadLettering(_) => 1
  }

  predicate FaultFree(a: Action) {
    a.Deliver? || a.MarkProcessing? || a.Handle? || a.MarkDone? || a.HandleError? || a.Settle?
  }

  /** The work left for a message is at most `n`. */
  ghost predicate WorkLeft(s: System, j: JobID, maxRetries: nat, n: nat) {
    && (j in s.main ==> 10 * Pending(s, j, maxRetries) + 6 <= n)
    && (forall w :: Holds(s, w, j) ==> Work(s, s.workers[w], maxRetries) <= n)
  }

  /** Every fault-free step on a message leaves strictly less work for it. */
  lemma StepDecreases(s: System, a: Action, maxRetries: nat, n: nat)
    requires Inv(s, maxRetries) && WorkerAt(s, a) && FaultFree(a) && maxRetries > 0
    requires WorkLeft(s, Subject(s, a), maxRetries, n)
    ensures n > 0 && WorkLeft(WorkerStep(s, a, maxRetries), Subject(s, a), maxRetries, n - 1)
  {
    var s', j, w := WorkerStep(s, a, maxRetries), Subject(s, a), a.worker;
    assert JobOk(s, j, maxRetries);
    assert !a.Deliver? ==> Holds(s, w, j);
    forall v | v != w ensures !Holds(s', v, j) {
      assert !Holds(s, v, j);
    }
    WorkerDecreases(s, a, maxRetries, n);
  }

  lemma WorkerDecreases(s: System, a: Action, maxRetries: nat, n: nat)
    requires WorkerAt(s, a) && FaultFree(a) && maxRetries > 0
    requires a.Deliver? ==> 10 * Pending(s, a.job, maxRetries) + 6 <= n
    requires !a.Deliver? ==> Subject(s, a) in s.rows && WorkerOk(s, s.workers[a.worker], maxRetries)
    requires !a.Deliver? ==> Work(s, s.workers[a.worker], maxRetries) <= n
    ensures var p' := WorkerStep(s, a, maxRetries).workers[a.worker];
      n > 0 && (!p'.Free? ==> Work(WorkerStep(s, a, maxRetries), p', maxRetries) < n)
  {
    hide Passes, Collides;
    match a {
      case Deliver(_, _) =>
      case MarkProcessing(w) => MarkDecreases(s, w, maxRetries);
      case HandleError(w) => ErrorDecreases(s, w, maxRetries);
      case _ => hide AfterDelivery, AfterMark, AfterError;
    }
  }

  lemma MarkDecreases(s: System, w: WorkerID, maxRetries: nat)
    requires Busy(s, w) && s.workers[w].Got? && s.workers[w].job in s.rows
    requires WorkerOk(s, s.workers[w], maxRetries)
    ensures var s' := AfterMark(s, w); Work(s', s'.workers[w], maxRetries) < Work(s, s.workers[w], maxRetries)
  {
  }

  lemma ErrorDecreases(s: System, w: WorkerID, maxRetries: nat)
    requires Busy(s, w) && s.workers[w].Erred? && s.workers[w].job in s.rows
    requires WorkerOk(s, s.workers[w], maxRetries)
    ensures var s' := AfterError(s, w, maxRetries); Work(s', s'.workers[w], maxRetries) < Work(s, s.workers[w], maxRetries)
  {
    hide Collides;
  }

  /** A worker's step on another job leaves this one's work alone. */
  lemma OthersWork(s: System, a: Action, maxRetries: nat, j: JobID, n: nat)
    requires WorkerAt(s, a) && Subject(s, a) != j && WorkLeft(s, j, maxRetries, n)
    ensures WorkLeft(WorkerStep(s, a, maxRetries), j, maxRetries, n)
  {
    var s' := WorkerStep(s, a, maxRetries);
    WorkerStepLocal(s, a, maxRetries);
    assert j in s'.main <==> s'.main[j] > 0;
    hide WorkerStep, WorkerAt;
    forall w | Holds(s', w, j) ensures Work(s', s'.workers[w], maxRetries) <= n {
      assert Holds(s, w, j);
    }
  }

  lemma CallerShape(s: System, a: Action, maxRetries: nat, j: JobID)
    requires Can(s, a) && !WorkerAt(s, a) && j in s.rows
    ensures var s' := Step(s, a, maxRetries);
      && j in s'.rows && (s'.rows[j] == s.rows[j] || s'.rows[j] == s.rows[j].(status := Failed))
      && (j in s'.main ==> j in s.main || j in s.flight)
      && (forall w :: w in s'.workers && !s'.workers[w].Free? ==> w in s.workers && s'.workers[w] == s.workers[w])
  {
    if CallerAt(s, a) {
      CallerStepMoves(s, a);
      hide CallerStep, WorkerAt, Collides, Rejected;
    }
  }

  /** Callers and the network never add work to a placed message. */
  lemma CallersWork(s: System, a: Action, maxRetries: nat, j: JobID, n: nat)
    requires Inv(s, maxRetries) && Can(s, a) && !WorkerAt(s, a) && j in s.placed && WorkLeft(s, j, maxRetries, n)
    ensures WorkLeft(Step(s, a, maxRetries), j, maxRetries, n)
  {
    var s' := Step(s, a, maxRetries);
    assert JobOk(s, j, maxRetries);
    CallerShape(s, a, maxRetries, j);
    hide Step, Inv, JobOk, Can, WorkerAt;
    forall w | Holds(s', w, j) ensures Work(s', s'.workers[w], maxRetries) <= n {
      assert Holds(s, w, j);
    }
  }

  /** How many steps of a run are taken by workers on the message of `j`. */
  ghost function StepsOn(s: System, run: seq<Action>, j: JobID, maxRetries: nat): nat
    requires CanRun(s, run, maxRetries)
    decreases |run|, 2
  {
    if run == [] then 0
    else
      var init, a := run[..|run| - 1], run[|run| - 1];
      var before := Run(s, init, maxRetries);
      StepsOn(s, init, j, maxRetries) + if WorkerAt(before, a) && Subject(before, a) == j then 1 else 0
  }

  lemma PlacedStays(s: System, a: Action, maxRetries: nat)
    requires Can(s, a)
    ensures s.placed <= Step(s, a, maxRetries).placed
  {
    if WorkerAt(s, a) {
      WorkerStepLocal(s, a, maxRetries);
      hide WorkerStep;
    } else if CallerAt(s, a) {
      CallerStepMoves(s, a);
      hide CallerStep;
    }
  }

  lemma IsWorkerStep(s: System, a: Action, maxRetries: nat)
    requires WorkerAt(s, a)
    ensures Can(s, a) && Step(s, a, maxRetries) == WorkerStep(s, a, maxRetries)
  {
    hide WorkerStep;
  }

  /** A step without a fault takes one unit of work off its own message and adds none to others. */
  lemma BoundedStep(s: System, a: Action, maxRetries: nat, j: JobID, left: nat)
    requires Inv(s, maxRetries) && Can(s, a) && maxRetries > 0 && !a.Crash? && !a.StoreError?
    requires j in s.placed && WorkLeft(s, j, maxRetries, left)
    ensures var took := if WorkerAt(s, a) && Subject(s, a) == j then 1 else 0;
      took <= left && j in Step(s, a, maxRetries).placed && WorkLeft(Step(s, a, maxRetries), j, maxRetries, left - took)
  {
    PlacedStays(s, a, maxRetries);
    if !WorkerAt(s, a) {
      hide Inv, WorkLeft, Step, Can, WorkerAt, Subject;
      CallersWork(s, a, maxRetries, j, left);
    } else {
      assert FaultFree(a);
      IsWorkerStep(s, a, maxRetries);
      hide Inv, WorkLeft, Step, Can, WorkerAt, Subject, FaultFree;
      if Subject(s, a) == j {
        StepDecreases(s, a, maxRetries, left);
      } else {
        OthersWork(s, a, maxRetries, j, left);
      }
    }
  }

  /** In a run without crashes and store errors, workers take at most `n` steps on a message
      that starts with `n` units of work, whatever callers, the network and other jobs do. */
  lemma {:induction false} FaultFreeRunIsBounded(s: System, run: seq<Action>, maxRetries: nat, j: JobID, n: nat)
    requires Inv(s, maxRetries) && CanRun(s, run, maxRetries) && maxRetries > 0
    requires forall i :: 0 <= i < |run| ==> !run[i].Crash? && !run[i].StoreError?
    requires j in s.placed && WorkLeft(s, j, maxRetries, n)
    ensures j in Run(s, run, maxRetries).placed && StepsOn(s, run, j, maxRetries) <= n
    ensures WorkLeft(Run(s, run, maxRetries), j, maxRetries, n - StepsOn(s, run, j, maxRetries))
  {
    hide Inv, WorkLeft, JobOk, Can, Step, WorkerAt, Subject;
    if run != [] {
      var init, a := run[..|run| - 1], run[|run| - 1];
      assert !a.Crash? && !a.StoreError?;
      FaultFreeRunIsBounded(s, init, maxRetries, j, n);
      RunInv(s, init, maxRetries);
      BoundedStep(Run(s, init, maxRetries), a, maxRetries, j, n - StepsOn(s, init, j, maxRetries));
    }
  }

  /** Any placed message starts with at most this much work. */
  lemma WorkIsBounded(s: System, maxRetries: nat, j: JobID)
    requires Inv(s, maxRetries) && maxRetries > 0
    ensures WorkLeft(s, j, maxRetries, 10 * maxRetries + 14)
  {
    hide Inv;
  }

  /** A worker is free, or it is the one that holds the message of `j`. */
  predicate Available(s: System, w: WorkerID, j: JobID) { w in s.workers && (s.workers[w].Free? || Holds(s, w, j)) }

  /** Until its job settles, a placed message can take a fault-free step if a worker is available. */
  lemma UnsettledCanStep(s: System, maxRetries: nat, j: JobID, free: WorkerID) returns (a: Action)
    requires Inv(s, maxRetries) && j in s.placed && !Settled(s, j) && Available(s, free, j)
    ensures WorkerAt(s, a) && FaultFree(a) && Subject(s, a) == j && Available(WorkerStep(s, a, maxRetries), free, j)
  {
    a := NextStep(s, maxRetries, j, free);
    hide Inv, Available, Settled, WorkerAt, Subject, FaultFree;
    StaysAvailable(s, a, maxRetries, j, free);
  }

  lemma StaysAvailable(s: System, a: Action, maxRetries: nat, j: JobID, free: WorkerID)
    requires WorkerAt(s, a) && Subject(s, a) == j && Available(s, free, j)
    ensures Available(WorkerStep(s, a, maxRetries), free, j)
  {
    WorkerStepLocal(s, a, maxRetries);
    hide WorkerStep, WorkerAt, Subject, LocalTable;
  }

  lemma NextStep(s: System, maxRetries: nat, j: JobID, free: WorkerID) returns (a: Action)
    requires Inv(s, maxRetries) && j in s.placed && !Settled(s, j) && Available(s, free, j)
    ensures WorkerAt(s, a) && FaultFree(a) && Subject(s, a) == j
  {
    assert JobOk(s, j, maxRetries);
    hide Inv, WorkerOk;
    if j in s.main {
      a := Deliver(free, j);
    } else {
      var w :| Holds(s, w, j);
      match s.workers[w] {
        case Got(_) => a := MarkProcessing(w);
        case Handling(_, _) => a := Handle(w, true);
        case Succeeded(_, _) => a := MarkDone(w);
        case Erred(_, _) => a := HandleError(w);
        case Acking(_) => a := Settle(w);
        case Requeueing(_) => a := Settle(w);
        case DeadLettering(_) => a := Settle(w);
      }
    }
  }

  /** With its work used up, a placed message has settled, so its job is done or failed. */
  lemma NoWorkMeansSettled(s: System, maxRetries: nat, j: JobID)
    requires Inv(s, maxRetries) && j in s.placed && WorkLeft(s, j, maxRetries, 0)
    ensures Settled(s, j) && Terminal(s.rows, j)
  {
    assert JobOk(s, j, maxRetries);
  }

  /** A step before a run. */
  lemma {:induction false} Prepend(s: System, a: Action, run: seq<Action>, maxRetries: nat)
    requires Can(s, a) && CanRun(Step(s, a, maxRetries), run, maxRetries)
    ensures CanRun(s, [a] + run, maxRetries) && Run(s, [a] + run, maxRetries) == Run(Step(s, a, maxRetries), run, maxRetries)
  {
    hide Step, Can;
    if run == [] {
      assert ([a] + run)[..0] == [];
    } else {
      Prepend(s, a, run[..|run| - 1], maxRetries);
      assert ([a] + run)[..|run|] == [a] + run[..|run| - 1];
    }
  }

  /** From a state with `n` units of work left for a message, fault-free steps settle it. */
  lemma {:induction false} SettlesWithin(s: System, maxRetries: nat, j: JobID, free: WorkerID, n: nat) returns (run: seq<Action>)
    requires Inv(s, maxRetries) && maxRetries > 0 && j in s.placed && WorkLeft(s, j, maxRetries, n) && Available(s, free, j)
    ensures |run| <= n && CanRun(s, run, maxRetries) && forall i :: 0 <= i < |run| ==> FaultFree(run[i])
    ensures Settled(Run(s, run, maxRetries), j) && Terminal(Run(s, run, maxRetries).rows, j)
    decreases n
  {
    if Settled(s, j) {
      run := [];
      assert JobOk(s, j, maxRetries);
    } else {
      hide Inv, WorkLeft, WorkerAt, WorkerStep, FaultFree, Settled, Terminal, Available, Run, CanRun;
      var a := UnsettledCanStep(s, maxRetries, j, free);
      StepDecreases(s, a, maxRetries, n);
      StepInv(s, a, maxRetries);
      PlacedStays(s, a, maxRetries);
      IsWorkerStep(s, a, maxRetries);
      hide *;
      var rest := SettlesWithin(Step(s, a, maxRetries), maxRetries, j, free, n - 1);
      Prepend(s, a, rest, maxRetries);
      run := [a] + rest;
    }
  }

  /** Termination: from every state with a worker available, fault-free steps, no more than
      10 * maxRetries + 14 of them, settle a placed message; no run without crashes and store errors
      has workers take more steps than that on it, whatever handlers, callers, the network and other
      jobs do; and after that many it has settled. */
  lemma MessagesSettle(s: System, maxRetries: nat, j: JobID, free: WorkerID, run: seq<Action>) returns (finish: seq<Action>)
    requires Inv(s, maxRetries) && maxRetries > 0 && j in s.placed && CanRun(s, run, maxRetries)
    requires forall i :: 0 <= i < |run| ==> !run[i].Crash? && !run[i].StoreError?
    requires Available(Run(s, run, maxRetries), free, j)
    ensures StepsOn(s, run, j, maxRetries) <= 10 * maxRetries + 14
    ensures StepsOn(s, run, j, maxRetries) == 10 * maxRetries + 14 ==> Settled(Run(s, run, maxRetries), j)
    ensures var s' := Run(s, run, maxRetries);
      && StepsOn(s, run, j, maxRetries) + |finish| <= 10 * maxRetries + 14
      && CanRun(s', finish, maxRetries) && (forall i :: 0 <= i < |finish| ==> FaultFree(finish[i]))
      && Settled(Run(s', finish, maxRetries), j) && Terminal(Run(s', finish, maxRetries).rows, j)
  {
    hide *;
    var n := 10 * maxRetries + 14;
    WorkIsBounded(s, maxRetries, j);
    FaultFreeRunIsBounded(s, run, maxRetries, j, n);
    RunInv(s, run, maxRetries);
    var left := n - StepsOn(s, run, j, maxRetries);
    finish := SettlesWithin(Run(s, run, maxRetries), maxRetries, j, free, left);
    if left == 0 {
      NoWorkMeansSettled(Run(s, run, maxRetries), maxRetries, j);
    }
  }

  // ------------------------------------------------------------------------------ orphans

  /** An active row whose message was not sent, or was lost. */
  predicate Unsent(s: System, j: JobID) { Active(s.rows, j) && j !in s.flight && j !in s.placed }

  predicate NoOwner(s: System, j: JobID) { forall c :: c in s.callers ==> !Owns(s.callers[c], j) }

  /** A row that was inserted but whose message nobody will send. */
  predicate Orphan(s: System, j: JobID) {
    Unsent(s, j) && NoOwner(s, j)
  }

  /** An ambiguous insert makes one: the caller looks again, finds its own row and returns it
      as an existing job.  Such a job stays active for ever, so every later call for its key
      returns it and no other job for that key is ever created. */
  lemma OrphanStays(s: System, a: Action, maxRetries: nat, j: JobID)
    requires Inv(s, maxRetries) && Orphan(s, j) && Can(s, a)
    ensures Orphan(Step(s, a, maxRetries), j)
    ensures forall i :: Creates(s, a, i, maxRetries) ==> Step(s, a, maxRetries).rows[i].key != s.rows[j].key
  {
    assert JobOk(s, j, maxRetries);
    if WorkerAt(s, a) {
      assert Subject(s, a) != j by {
        assert !a.Deliver? ==> Holds(s, a.worker, s.workers[a.worker].job);
      }
      hide Inv, JobOk, Collides, Updated, Marked;
      WorkerSparesOrphan(s, a, maxRetries, j);
    } else {
      hide Inv, JobOk, UniqueActive, Updated, Collides;
      CallerSparesOrphan(s, a, maxRetries, j);
    }
  }

  lemma WorkerSparesOrphan(s: System, a: Action, maxRetries: nat, j: JobID)
    requires Orphan(s, j) && WorkerAt(s, a) && Subject(s, a) != j
    ensures Orphan(WorkerStep(s, a, maxRetries), j)
    ensures WorkerStep(s, a, maxRetries).rows.Keys == s.rows.Keys
  {
    WorkerStepLocal(s, a, maxRetries);
    hide WorkerStep;
  }

  lemma CallerSparesOrphan(s: System, a: Action, maxRetries: nat, j: JobID)
    requires Orphan(s, j) && Can(s, a) && !WorkerAt(s, a)
    ensures Orphan(Step(s, a, maxRetries), j)
    ensures forall i :: Creates(s, a, i, maxRetries) ==> Step(s, a, maxRetries).rows[i].key != s.rows[j].key
  {
    StepRows(s, a, maxRetries);
    CallerLeavesOrphan(s, a, maxRetries, j);
    hide Step, Can;
  }

  lemma CallerLeavesOrphan(s: System, a: Action, maxRetries: nat, j: JobID)
    requires Orphan(s, j) && Can(s, a) && !WorkerAt(s, a)
    ensures Orphan(Step(s, a, maxRetries), j)
  {
    if CallerAt(s, a) {
      CallerStepMoves(s, a);
      hide CallerStep, WorkerAt, Collides, Rejected;
      assert !Owns(s.callers[a.caller], j);
    }
  }

  lemma AmbiguousInsertOrphans(s: System, c: CallerID, j: JobID, maxRetries: nat)
    requires Inv(s, maxRetries) && CallerAt(s, CallError(c, j, true)) && s.callers[c].Inserting?
    requires !Collides(s.rows, j, s.callers[c].key)
    ensures Orphan(CallerStep(s, CallError(c, j, true)), j)
    ensures CallerStep(CallerStep(s, CallError(c, j, true)), Find(c, Some(j))).callers[c] == Returned(Existing(j))
  {
    var s1 := CallerStep(s, CallError(c, j, true));
    assert JobOk(s, j, maxRetries);
    forall d | d in s1.callers ensures !Owns(s1.callers[d], j) {
      assert d in s.callers && CallerOk(s, s.callers[d]);
    }
  }

  // ----------------------------------------------------------------- what makes an orphan

  /** The four ways: an insert's reply is lost, the update after a failed publish fails, the caller
      stops before its message arrived, or a message nobody waits for is lost. */
  predicate OrphanedBy(s: System, a: Action, j: JobID) {
    match a
    case CallError(c, i, applied) =>
      c in s.callers
      && ((applied && s.callers[c].Inserting? && i == j && j !in s.rows && !Collides(s.rows, j, s.callers[c].key))
          || (!applied && s.callers[c] == Failing(j) && Unsent(s, j)))
    case Stop(c) => c in s.callers && Owns(s.callers[c], j) && Unsent(s, j)
    case Lose(i) => i == j && Active(s.rows, j) && j in s.flight && j !in s.placed && NoOwner(s, j)
    case _ => false
  }

  lemma WorkerOrphansNone(s: System, a: Action, maxRetries: nat, j: JobID)
    requires Inv(s, maxRetries) && WorkerAt(s, a)
    ensures Orphan(WorkerStep(s, a, maxRetries), j) <==> Orphan(s, j)
  {
    WorkerStepLocal(s, a, maxRetries);
    var i := Subject(s, a);
    assert JobOk(s, i, maxRetries);
    assert i in s.placed by {
      assert !a.Deliver? ==> Holds(s, a.worker, i);
    }
    hide WorkerStep, WorkerAt, JobOk, Inv;
  }

  predicate NobodyElse(s: System, c: CallerID, j: JobID) {
    forall d :: d in s.callers && d != c ==> !Owns(s.callers[d], j)
  }

  /** Only caller `c` moves. */
  lemma OwnersAfter(s: System, s': System, c: CallerID, j: JobID)
    requires forall d :: d != c ==> (d in s'.callers <==> d in s.callers) && (d in s.callers ==> s'.callers[d] == s.callers[d])
    ensures NoOwner(s, j) <==> NobodyElse(s, c, j) && (c in s.callers ==> !Owns(s.callers[c], j))
    ensures NoOwner(s', j) <==> NobodyElse(s, c, j) && (c in s'.callers ==> !Owns(s'.callers[c], j))
  {
    hide Owns;
    if NoOwner(s', j) {
      forall d | d in s.callers && d != c ensures !Owns(s.callers[d], j) {
        assert d in s'.callers;
      }
    }
  }

  lemma UnknownHasNoOwner(s: System, j: JobID)
    requires CallersOk(s)
    ensures j !in s.rows ==> NoOwner(s, j)
  {
    forall d | d in s.callers ensures Owns(s.callers[d], j) ==> j in s.rows {
      assert CallerOk(s, s.callers[d]);
    }
  }

  lemma CallerOrphans(s: System, a: Action, j: JobID)
    requires CallerAt(s, a) && CallersOk(s) && !Orphan(s, j)
    requires j !in s.rows ==> j !in s.flight && j !in s.placed
    ensures Orphan(CallerStep(s, a), j) <==> OrphanedBy(s, a, j)
  {
    var c := a.caller;
    var s' := CallerStep(s, a);
    CallerStepMoves(s, a);
    OwnersAfter(s, s', c, j);
    UnknownHasNoOwner(s, j);
    assert Owns(s.callers[c], j) ==> NobodyElse(s, c, j);
    assert Unsent(s, j) ==> !NoOwner(s, j);
    hide Collides, CallerOk, CallersOk, CallerMoves, NobodyElse, NoOwner, Orphan, RowsMove, IsFound;
  }

  /** A step turns a job into an orphan exactly in one of these ways. */
  lemma OrphanedIff(s: System, a: Action, maxRetries: nat, j: JobID)
    requires Inv(s, maxRetries) && Can(s, a) && !Orphan(s, j)
    ensures Orphan(Step(s, a, maxRetries), j) <==> OrphanedBy(s, a, j)
  {
    assert JobOk(s, j, maxRetries);
    if WorkerAt(s, a) {
      WorkerOrphansNone(s, a, maxRetries, j);
    } else if CallerAt(s, a) {
      hide Inv, JobOk;
      CallerOrphans(s, a, j);
    } else {
      hide Inv, JobOk, WorkerStep, CallerStep, WorkerAt, CallerAt;
      OthersOrphan(s, a, maxRetries, j);
    }
  }

  lemma OthersOrphan(s: System, a: Action, maxRetries: nat, j: JobID)
    requires Can(s, a) && !WorkerAt(s, a) && !CallerAt(s, a) && !Orphan(s, j) && (j in s.placed ==> j !in s.flight)
    ensures Orphan(Step(s, a, maxRetries), j) <==> OrphanedBy(s, a, j)
  {
    var s' := Step(s, a, maxRetries);
    var c := if a.Enqueue? then a.caller else 0;
    assert forall d :: d != c ==> (d in s'.callers <==> d in s.callers) && (d in s.callers ==> s'.callers[d] == s.callers[d]);
    OwnersAfter(s, s', c, j);
    assert Unsent(s, j) ==> !NoOwner(s, j);
    hide NobodyElse, Orphan;
  }

  /** A new row is an orphan from the start exactly if the reply to its insert was lost. */
  lemma CreationOrphansIff(s: System, a: Action, maxRetries: nat, j: JobID)
    requires Inv(s, maxRetries) && Can(s, a) && Creates(s, a, j, maxRetries)
    ensures Orphan(Step(s, a, maxRetries), j) <==> a.CallError?
  {
    StepRows(s, a, maxRetries);
    OrphanedIff(s, a, maxRetries, j);
    hide Inv, Orphan;
  }

  /** Some step of the run orphaned `j`. */
  ghost predicate Orphaned(s: System, run: seq<Action>, maxRetries: nat, j: JobID)
    requires CanRun(s, run, maxRetries)
    decreases |run|, 2
  {
    run != []
    && (Orphaned(s, run[..|run| - 1], maxRetries, j) || OrphanedBy(Run(s, run[..|run| - 1], maxRetries), run[|run| - 1], j))
  }

  /** After any run, a job is an orphan exactly if one of its steps orphaned it. */
  lemma {:induction false} OrphansAreOrphaned(s: System, run: seq<Action>, maxRetries: nat, j: JobID)
    requires Inv(s, maxRetries) && CanRun(s, run, maxRetries) && maxRetries > 0 && !Orphan(s, j)
    ensures Orphan(Run(s, run, maxRetries), j) <==> Orphaned(s, run, maxRetries, j)
  {
    if run != [] {
      var init, a := run[..|run| - 1], run[|run| - 1];
      OrphansAreOrphaned(s, init, maxRetries, j);
      RunInv(s, init, maxRetries);
      var before := Run(s, init, maxRetries);
      hide Inv, Orphan, OrphanedBy, Can, Step;
      if Orphan(before, j) {
        OrphanStays(before, a, maxRetries, j);
      } else {
        OrphanedIff(before, a, maxRetries, j);
      }
    }
  }

  /** So after any run every active job has its message in the system, or a caller that will still
      send it or give it up, unless a step orphaned it. */
  lemma ActiveJobsAreAccountedFor(run: seq<Action>, maxRetries: nat, j: JobID)
    requires CanRun(INIT, run, maxRetries) && maxRetries > 0 && Active(Run(INIT, run, maxRetries).rows, j)
    ensures var s := Run(INIT, run, maxRetries);
      Orphaned(INIT, run, maxRetries, j) <==>
        !(j in s.placed || j in s.flight || exists c :: c in s.callers && Owns(s.callers[c], j))
  {
    hide Run, CanRun, Orphaned;
    OrphansAreOrphaned(INIT, run, maxRetries, j);
  }
}
