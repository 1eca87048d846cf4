/**
 How jobs end: what the rows of the job queue say about what its workers and callers did.
 */
module JobOutcomes {
  import opened JobQueue
  import opened Options

  // -------------------------------------------------------------------------- single steps

  /** Who may give the row of `j` this status. */
  predicate Writes(s: System, a: Action, j: JobID, status: Status, maxRetries: nat) {
    match status
    case Processing => WorkerAt(s, a) && s.workers[a.worker] == Got(j) && Active(s.rows, j)
    case Done => WorkerAt(s, a) && s.workers[a.worker].Succeeded? && s.workers[a.worker].job == j
    case Queued => WorkerAt(s, a) && s.workers[a.worker].Erred? && s.workers[a.worker].job == j && s.workers[a.worker].attempts < maxRetries
    case Failed =>
      || (WorkerAt(s, a) && s.workers[a.worker].Erred? && s.workers[a.worker].job == j && s.workers[a.worker].attempts >= maxRetries)
      || (CallerAt(s, a) && s.callers[a.caller] == Failing(j))
  }

  predicate RowMoves(s: System, a: Action, rows: Rows, j: JobID, maxRetries: nat) {
    j in rows ==>
      (if j !in s.rows then rows[j].status.Queued? && rows[j].attempts == 0 else
         rows[j] == s.rows[j]
         || (Writes(s, a, j, rows[j].status, maxRetries)
             && rows[j] == Job(s.rows[j].key, rows[j].status, s.rows[j].attempts + if rows[j].status.Processing? then 1 else 0)))
  }

  lemma UpdatedMoves(rows: Rows, i: JobID, status: Status, j: JobID)
    ensures j in Updated(rows, i, status) <==> j in rows
    ensures j in rows ==> Updated(rows, i, status)[j] == rows[j] || (i == j && Updated(rows, i, status)[j] == rows[j].(status := status))
  {
    hide Rejected;
  }

  /** What one command of a worker at `p` may do to the row of `j`. */
  predicate MayWrite(rows: Rows, p: Worker, after: Rows, j: JobID, maxRetries: nat) {
    && (j in after ==> j in rows)
    && (j in after && after[j] != rows[j] ==>
          || (p == Got(j) && Active(rows, j) && after[j] == Job(rows[j].key, Processing, rows[j].attempts + 1))
          || (p.Succeeded? && p.job == j && after[j] == rows[j].(status := Done))
          || (p.Erred? && p.job == j && after[j] == rows[j].(status := if p.attempts >= maxRetries then Failed else Queued)))
  }

  /** Nothing about its job's handler is known to a worker at this point. */
  predicate Forgetful(p: Worker) { !p.Succeeded? && !p.Erred? }

  lemma MarkEffect(s: System, w: WorkerID, maxRetries: nat, j: JobID)
    requires w in s.workers && s.workers[w].Got?
    ensures var s' := AfterMark(s, w);
      && MayWrite(s.rows, s.workers[w], s'.rows, j, maxRetries) && Forgetful(s'.workers[w]) && s'.faults == s.faults
  {
    hide Bump;
  }

  lemma UpdateEffect(s: System, w: WorkerID, status: Status, p: Worker, maxRetries: nat, j: JobID)
    requires Busy(s, w)
    requires (s.workers[w].Succeeded? && status.Done?)
      || (s.workers[w].Erred? && status == if s.workers[w].attempts >= maxRetries then Failed else Queued)
    ensures var s' := AfterUpdate(s, w, status, p);
      && MayWrite(s.rows, s.workers[w], s'.rows, j, maxRetries) && s'.workers == s.workers[w := p] && s'.faults == s.faults
  {
    UpdatedMoves(s.rows, s.workers[w].job, status, j);
    hide Updated;
  }

  lemma ErrorEffect(s: System, w: WorkerID, maxRetries: nat, j: JobID)
    requires w in s.workers && s.workers[w].Erred?
    ensures var s' := AfterError(s, w, maxRetries);
      && MayWrite(s.rows, s.workers[w], s'.rows, j, maxRetries) && Forgetful(s'.workers[w]) && s'.faults == s.faults
  {
    var p := s.workers[w];
    if p.attempts >= maxRetries {
      UpdateEffect(s, w, Failed, DeadLettering(p.job), maxRetries, j);
    } else {
      UpdateEffect(s, w, Queued, Requeueing(p.job), maxRetries, j);
    }
    hide AfterUpdate, MayWrite;
  }

  lemma BumpCounts(m: map<JobID, nat>, i: JobID, j: JobID)
    ensures Count(m, j) <= Count(Bump(m, i), j) && Count(Bump(m, i), i) > 0
  {
  }

  lemma StoreErrorEffect(s: System, w: WorkerID, applied: bool, maxRetries: nat, j: JobID)
    requires w in s.workers && (s.workers[w].Got? || s.workers[w].Succeeded? || s.workers[w].Erred?)
    ensures var s' := AfterStoreError(s, w, applied, maxRetries);
      && MayWrite(s.rows, s.workers[w], s'.rows, j, maxRetries) && Forgetful(s'.workers[w])
      && s'.faults == Bump(s.faults, s.workers[w].job)
  {
    var p := s.workers[w];
    UpdatedMoves(s.rows, p.job, Done, j);
    UpdatedMoves(s.rows, p.job, if p.Erred? && p.attempts >= maxRetries then Failed else Queued, j);
    hide Updated, Bump;
  }

  lemma OtherEffects(s: System, w: WorkerID, j: JobID)
    requires Busy(s, w)
    ensures AfterSettling(s, w).rows == s.rows && AfterSettling(s, w).faults == s.faults && Forgetful(AfterSettling(s, w).workers[w])
    ensures AfterCrash(s, w).rows == s.rows && AfterCrash(s, w).faults == Bump(s.faults, s.workers[w].job)
    ensures Forgetful(AfterCrash(s, w).workers[w])
  {
    hide Bump;
  }

  lemma DeliveryEffect(s: System, w: WorkerID, i: JobID)
    ensures AfterDelivery(s, w, i).rows == s.rows && AfterDelivery(s, w, i).faults == s.faults && Forgetful(AfterDelivery(s, w, i).workers[w])
  {
  }

  /** Any command or fault of a worker. */
  lemma WorkerEffect(s: System, a: Action, maxRetries: nat, j: JobID)
    requires WorkerAt(s, a)
    ensures var s' := WorkerStep(s, a, maxRetries);
      && MayWrite(s.rows, s.workers[a.worker], s'.rows, j, maxRetries)
      && (a.Handle? || (a.worker in s'.workers && Forgetful(s'.workers[a.worker])))
      && s'.faults == if FaultFree(a) then s.faults else Bump(s.faults, Subject(s, a))
  {
    var w := a.worker;
    match a {
      case Deliver(_, i) => DeliveryEffect(s, w, i);
      case MarkProcessing(_) => MarkEffect(s, w, maxRetries, j);
      case Handle(_, _) =>
      case MarkDone(_) => UpdateEffect(s, w, Done, Acking(s.workers[w].job), maxRetries, j);
      case HandleError(_) => ErrorEffect(s, w, maxRetries, j);
      case Settle(_) => OtherEffects(s, w, j);
      case StoreError(_, applied) => StoreErrorEffect(s, w, applied, maxRetries, j);
      case Crash(_) => OtherEffects(s, w, j);
    }
    hide AfterDelivery, AfterMark, AfterUpdate, AfterError, AfterSettling, AfterStoreError, AfterCrash, Bump;
  }

  lemma WorkerWrites(s: System, a: Action, maxRetries: nat, j: JobID)
    requires WorkerAt(s, a)
    ensures RowMoves(s, a, WorkerStep(s, a, maxRetries).rows, j, maxRetries)
  {
    WorkerEffect(s, a, maxRetries, j);
    hide WorkerStep;
  }

  lemma CallerWrites(s: System, a: Action, maxRetries: nat, j: JobID)
    requires CallerAt(s, a)
    ensures RowMoves(s, a, CallerStep(s, a).rows, j, maxRetries)
  {
    var p := s.callers[a.caller];
    if p.Failing? {
      UpdatedMoves(s.rows, p.job, Failed, j);
    }
    hide Updated, Collides, IsFound;
  }

  /** A step changes a row only so: each status has its one writer, and only marking counts an attempt. */
  lemma StepWrites(s: System, a: Action, maxRetries: nat, j: JobID)
    requires Can(s, a)
    ensures RowMoves(s, a, Step(s, a, maxRetries).rows, j, maxRetries)
  {
    if WorkerAt(s, a) {
      WorkerWrites(s, a, maxRetries, j);
    } else if CallerAt(s, a) {
      CallerWrites(s, a, maxRetries, j);
    }
    hide WorkerStep, CallerStep, Writes;
  }

  datatype Occasion = HandledWell | RanOut | PublishFailed

  /** The handler succeeds for the job, or fails on its last attempt, or the job's publish fails. */
  predicate Is(s: System, a: Action, j: JobID, maxRetries: nat, o: Occasion) {
    match o
    case HandledWell => a.Handle? && a.ok && WorkerAt(s, a) && s.workers[a.worker].job == j
    case RanOut => a.Handle? && !a.ok && WorkerAt(s, a) && s.workers[a.worker].job == j && s.workers[a.worker].attempts >= maxRetries
    case PublishFailed => a.PublishFails? && CallerAt(s, a) && s.callers[a.caller].job == j
  }

  /** What a worker's counter remembers. */
  predicate Remembers(p: Worker, j: JobID, maxRetries: nat, o: Occasion) {
    match o
    case HandledWell => p.Succeeded? && p.job == j
    case RanOut => p.Erred? && p.job == j && p.attempts >= maxRetries
    case PublishFailed => false
  }

  lemma WorkerRemembers(s: System, a: Action, maxRetries: nat, j: JobID, o: Occasion, w: WorkerID)
    requires Can(s, a) && w in Step(s, a, maxRetries).workers && Remembers(Step(s, a, maxRetries).workers[w], j, maxRetries, o)
    ensures (w in s.workers && Remembers(s.workers[w], j, maxRetries, o)) || Is(s, a, j, maxRetries, o)
  {
    if WorkerAt(s, a) {
      if w == a.worker {
        hide CallerAt, Step;
        OwnMemory(s, a, maxRetries, j, o);
      } else {
        WorkerStepLocal(s, a, maxRetries);
        hide WorkerStep, Is, Remembers;
      }
    } else if CallerAt(s, a) {
      CallerStepMoves(s, a);
      hide CallerStep, RowsMove;
    }
  }

  lemma OwnMemory(s: System, a: Action, maxRetries: nat, j: JobID, o: Occasion)
    requires WorkerAt(s, a) && a.worker in Step(s, a, maxRetries).workers
    requires Remembers(Step(s, a, maxRetries).workers[a.worker], j, maxRetries, o)
    ensures Is(s, a, j, maxRetries, o)
  {
    WorkerEffect(s, a, maxRetries, j);
    if !a.Handle? {
      hide WorkerStep;
    } else {
      hide AfterStoreError, AfterMark;
    }
  }

  lemma CallerRemembers(s: System, a: Action, maxRetries: nat, j: JobID, c: CallerID)
    requires Can(s, a) && c in Step(s, a, maxRetries).callers && Step(s, a, maxRetries).callers[c] == Failing(j)
    ensures (c in s.callers && s.callers[c] == Failing(j)) || Is(s, a, j, maxRetries, PublishFailed)
  {
    if WorkerAt(s, a) {
      WorkerStepLocal(s, a, maxRetries);
      hide WorkerStep;
    } else if CallerAt(s, a) {
      if c != a.caller {
        CallerStepMoves(s, a);
        hide CallerStep, RowsMove;
      } else {
        hide Step, WorkerAt;
        OwnFailing(s, a, j);
      }
    }
  }

  lemma OwnFailing(s: System, a: Action, j: JobID)
    requires CallerAt(s, a) && a.caller in CallerStep(s, a).callers && CallerStep(s, a).callers[a.caller] == Failing(j)
    ensures Is(s, a, j, 0, PublishFailed)
  {
    if a.CallError? {
      hide CallerStep;
      ErrorAnswers(s, a);
    } else if a.Insert? {
      InsertAnswers(s, a.caller, a.job, Publishing(a.job));
    } else if a.MarkFailed? {
      FailingAnswers(s, a.caller);
    }
    hide AfterInsert, AfterFailing, IsFound;
  }

  // --------------------------------------------------------------------------- over runs

  ghost predicate Ever(run: seq<Action>, j: JobID, maxRetries: nat, o: Occasion)
    requires CanRun(INIT, run, maxRetries)
    decreases |run|
  {
    run != [] &&
    (var init, a := run[..|run| - 1], run[|run| - 1];
      Is(Run(INIT, init, maxRetries), a, j, maxRetries, o) || Ever(init, j, maxRetries, o))
  }

  ghost predicate Explained(run: seq<Action>, j: JobID, maxRetries: nat)
    requires CanRun(INIT, run, maxRetries)
  {
    var s := Run(INIT, run, maxRetries);
    && (j in s.rows && s.rows[j].status.Done? ==> Ever(run, j, maxRetries, HandledWell))
    && (j in s.rows && s.rows[j].status.Failed? ==> Ever(run, j, maxRetries, RanOut) || Ever(run, j, maxRetries, PublishFailed))
    && (forall w, o :: w in s.workers && Remembers(s.workers[w], j, maxRetries, o) ==> Ever(run, j, maxRetries, o))
    && (forall c :: c in s.callers && s.callers[c] == Failing(j) ==> Ever(run, j, maxRetries, PublishFailed))
  }

  lemma {:induction false} RunsAreExplained(run: seq<Action>, j: JobID, maxRetries: nat)
    requires CanRun(INIT, run, maxRetries)
    ensures Explained(run, j, maxRetries)
  {
    if run != [] {
      var init, a := run[..|run| - 1], run[|run| - 1];
      RunsAreExplained(init, j, maxRetries);
      var s, s' := Run(INIT, init, maxRetries), Run(INIT, run, maxRetries);
      assert Can(s, a) && s' == Step(s, a, maxRetries);
      StepWrites(s, a, maxRetries, j);
      hide Step, Can, Is;
      forall w, o | w in s'.workers && Remembers(s'.workers[w], j, maxRetries, o) ensures Ever(run, j, maxRetries, o) {
        WorkerRemembers(s, a, maxRetries, j, o, w);
      }
      forall c | c in s'.callers && s'.callers[c] == Failing(j) ensures Ever(run, j, maxRetries, PublishFailed) {
        CallerRemembers(s, a, maxRetries, j, c);
      }
      RowExplained(run, j, maxRetries);
      hide Run, CanRun, Ever, RowMoves;
    }
  }

  lemma RowExplained(run: seq<Action>, j: JobID, maxRetries: nat)
    requires CanRun(INIT, run, maxRetries) && run != [] && Explained(run[..|run| - 1], j, maxRetries)
    requires RowMoves(Run(INIT, run[..|run| - 1], maxRetries), run[|run| - 1], Run(INIT, run, maxRetries).rows, j, maxRetries)
    ensures var s := Run(INIT, run, maxRetries);
      && (j in s.rows && s.rows[j].status.Done? ==> Ever(run, j, maxRetries, HandledWell))
      && (j in s.rows && s.rows[j].status.Failed? ==> Ever(run, j, maxRetries, RanOut) || Ever(run, j, maxRetries, PublishFailed))
  {
    var init, a := run[..|run| - 1], run[|run| - 1];
    var s, s' := Run(INIT, init, maxRetries), Run(INIT, run, maxRetries);
    assert forall o :: Ever(init, j, maxRetries, o) ==> Ever(run, j, maxRetries, o);
    assert WorkerAt(s, a) ==> forall o :: Remembers(s.workers[a.worker], j, maxRetries, o) ==> Ever(init, j, maxRetries, o);
    hide Run, CanRun, Ever, Is;
    if j in s'.rows && j in s.rows && s'.rows[j] != s.rows[j] {
      assert s'.rows[j].status.Done? ==> Remembers(s.workers[a.worker], j, maxRetries, HandledWell);
      assert s'.rows[j].status.Failed? && WorkerAt(s, a) && s.workers[a.worker].Erred? && s.workers[a.worker].job == j && s.workers[a.worker].attempts >= maxRetries
        ==> Remembers(s.workers[a.worker], j, maxRetries, RanOut);
    }
  }

  /** After any run, whatever its faults: a job is done only if its handler once succeeded, and failed only if
      its handler failed on the last attempt or its publish failed. */
  lemma EndsAreEarned(run: seq<Action>, j: JobID, maxRetries: nat)
    requires CanRun(INIT, run, maxRetries) && j in Run(INIT, run, maxRetries).rows
    ensures Run(INIT, run, maxRetries).rows[j].status.Done? ==> Ever(run, j, maxRetries, HandledWell)
    ensures Run(INIT, run, maxRetries).rows[j].status.Failed? ==>
      Ever(run, j, maxRetries, RanOut) || Ever(run, j, maxRetries, PublishFailed)
  {
    RunsAreExplained(run, j, maxRetries);
  }

  // -------------------------------------------------------------- jobs that no fault touched

  /** A failed row is being dead-lettered or has been; an acknowledged one is done. */
  ghost predicate Straight(s: System, j: JobID) {
    && (j in s.rows && s.rows[j].status.Failed? ==> j in s.dlq || exists w :: Holds(s, w, j) && s.workers[w].DeadLettering?)
    && (forall w :: Holds(s, w, j) && s.workers[w].Acking? ==> j in s.rows && s.rows[j].status.Done?)
    && (j in s.acked ==> j in s.rows && s.rows[j].status.Done?)
  }

  /** Another job's or another client's step. */
  lemma StraightWaits(s: System, s': System, j: JobID)
    requires Straight(s, j) && (j in s.rows ==> j in s'.rows && s'.rows[j] == s.rows[j])
    requires j in s'.rows && j !in s.rows ==> s'.rows[j].status.Queued?
    requires (j in s'.dlq <==> j in s.dlq) && (j in s'.acked <==> j in s.acked)
    requires forall w :: Holds(s, w, j) <==> Holds(s', w, j)
    requires forall w :: Holds(s, w, j) ==> w in s'.workers && s.workers[w] == s'.workers[w]
    ensures Straight(s', j)
  {
  }

  /** A worker that holds the message moves on, with this row, to this counter. */
  lemma StraightMoves(s: System, s': System, w: WorkerID, j: JobID)
    requires Holds(s, w, j) && (forall v :: Holds(s, v, j) ==> v == w) && j !in s.dlq && j !in s.acked
    requires w in s'.workers && s'.workers == s.workers[w := s'.workers[w]] && s'.dlq == s.dlq && s'.acked == s.acked
    requires Stands(s'.rows, s'.workers[w], j)
    ensures Straight(s', j)
  {
    assert forall v :: v != w && Holds(s', v, j) ==> Holds(s, v, j);
  }

  /** The holder of a message that is where JobOk says. */
  lemma SoleHolder(s: System, w: WorkerID, j: JobID, maxRetries: nat)
    requires JobOk(s, j, maxRetries) && Holds(s, w, j) && Straight(s, j)
    ensures (forall v :: Holds(s, v, j) ==> v == w) && j !in s.dlq && j !in s.acked && j in s.rows
    ensures s.rows[j].status.Failed? ==> s.workers[w].DeadLettering?
    ensures s.workers[w].Acking? ==> s.rows[j].status.Done?
  {
    assert s.dlq[j] == 0 && j !in s.acked;
    hide Count;
  }

  /** A worker's fault-free step on the job. */
  lemma StraightSteps(s: System, a: Action, maxRetries: nat, j: JobID)
    requires JobOk(s, j, maxRetries) && WorkerAt(s, a) && FaultFree(a) && Subject(s, a) == j && Straight(s, j)
    ensures Straight(WorkerStep(s, a, maxRetries), j)
  {
    var w, s' := a.worker, WorkerStep(s, a, maxRetries);
    if a.Deliver? {
      hide JobOk;
      StraightDelivery(s, w, j);
    } else {
      SoleHolder(s, w, j, maxRetries);
      hide JobOk, Straight;
      if a.Settle? {
        StraightSettling(s, w, j);
      } else {
        StraightCommands(s, a, maxRetries, j);
        StraightMoves(s, s', w, j);
      }
    }
  }

  lemma StraightDelivery(s: System, w: WorkerID, j: JobID)
    requires w in s.workers && s.workers[w].Free? && Straight(s, j)
    ensures Straight(AfterDelivery(s, w, j), j)
  {
    var s' := AfterDelivery(s, w, j);
    assert forall v :: v != w ==> (Holds(s', v, j) <==> Holds(s, v, j));
  }

  lemma StraightSettling(s: System, w: WorkerID, j: JobID)
    requires Holds(s, w, j) && (forall v :: Holds(s, v, j) ==> v == w) && j in s.rows && j !in s.dlq && j !in s.acked
    requires s.workers[w].Acking? || s.workers[w].Requeueing? || s.workers[w].DeadLettering?
    requires (s.rows[j].status.Failed? ==> s.workers[w].DeadLettering?) && (s.workers[w].Acking? ==> s.rows[j].status.Done?)
    ensures Straight(AfterSettling(s, w), j)
  {
    var s' := AfterSettling(s, w);
    assert forall v :: v != w && Holds(s', v, j) ==> Holds(s, v, j);
    assert !Holds(s', w, j);
  }

  /** The holder is at this counter, with the row so. */
  predicate Stands(rows: Rows, p: Worker, j: JobID) {
    && (j in rows && rows[j].status.Failed? ==> p.DeadLettering? && p.job == j)
    && (p.Acking? && p.job == j ==> j in rows && rows[j].status.Done?)
  }

  lemma StraightCommands(s: System, a: Action, maxRetries: nat, j: JobID)
    requires WorkerAt(s, a) && FaultFree(a) && !a.Deliver? && !a.Settle? && Holds(s, a.worker, j) && j in s.rows
    requires s.rows[j].status.Failed? ==> s.workers[a.worker].DeadLettering?
    ensures var w, s' := a.worker, WorkerStep(s, a, maxRetries);
      && w in s'.workers && s'.workers == s.workers[w := s'.workers[w]] && s'.dlq == s.dlq && s'.acked == s.acked
      && Stands(s'.rows, s'.workers[w], j)
  {
    var w := a.worker;
    if a.MarkProcessing? {
      StraightMark(s, w, j);
    } else if a.MarkDone? {
      StraightUpdate(s, w, Done, Acking(j), j);
    } else if a.HandleError? {
      StraightUpdate(s, w, Failed, DeadLettering(j), j);
      StraightUpdate(s, w, Queued, Requeueing(j), j);
    }
    hide AfterMark, AfterUpdate;
  }

  lemma StraightMark(s: System, w: WorkerID, j: JobID)
    requires Holds(s, w, j) && s.workers[w].Got? && j in s.rows && !s.rows[j].status.Failed?
    ensures var s' := AfterMark(s, w);
      && w in s'.workers && s'.workers == s.workers[w := s'.workers[w]] && s'.dlq == s.dlq && s'.acked == s.acked
      && Stands(s'.rows, s'.workers[w], j)
  {
    hide Bump;
  }

  lemma StraightUpdate(s: System, w: WorkerID, status: Status, p: Worker, j: JobID)
    requires Holds(s, w, j) && j in s.rows && (!s.rows[j].status.Failed? || (status.Queued? ==> !Rejected(s.rows, j, status)))
    requires (status.Done? && p == Acking(j)) || (status.Failed? && p == DeadLettering(j)) || (status.Queued? && p == Requeueing(j))
    ensures var s' := AfterUpdate(s, w, status, p);
      && s'.workers == s.workers[w := p] && s'.dlq == s.dlq && s'.acked == s.acked && Stands(s'.rows, p, j)
  {
    UpdatedMoves(s.rows, j, status, j);
    DoneAndFailed(s.rows, j);
    hide Updated;
  }

  lemma DoneAndFailed(rows: Rows, j: JobID)
    requires j in rows
    ensures Updated(rows, j, Done)[j].status.Done? && Updated(rows, j, Failed)[j].status.Failed?
  {
  }

  /** Nothing has gone wrong for the job: no fault of a worker, no failed publish. */
  ghost predicate Spared(run: seq<Action>, j: JobID, maxRetries: nat)
    requires CanRun(INIT, run, maxRetries)
  {
    Faults(Run(INIT, run, maxRetries), j) == 0 && !Ever(run, j, maxRetries, PublishFailed)
  }

  lemma FaultsGrow(s: System, a: Action, maxRetries: nat, j: JobID)
    requires Can(s, a)
    ensures Faults(s, j) <= Faults(Step(s, a, maxRetries), j)
    ensures WorkerAt(s, a) && Subject(s, a) == j && !FaultFree(a) ==> Faults(Step(s, a, maxRetries), j) > 0
  {
    if WorkerAt(s, a) {
      WorkerEffect(s, a, maxRetries, j);
      BumpCounts(s.faults, Subject(s, a), j);
      hide WorkerStep, Bump, Count;
    } else if CallerAt(s, a) {
      CallerStepMoves(s, a);
      hide CallerStep, RowsMove;
    }
  }

  // ------------------------------------------------ publishers that fail an enqueued job

  /** The caller whose publish failed marks the job failed, and that takes effect. */
  predicate PublisherFails(s: System, a: Action, j: JobID) {
    CallerAt(s, a) && s.callers[a.caller] == Failing(j) && (a.MarkFailed? || (a.CallError? && a.applied))
  }

  /** A worker writes the outcome of its handler. */
  predicate WorkerEnds(s: System, a: Action, j: JobID, maxRetries: nat) {
    && WorkerAt(s, a) && (a.MarkDone? || a.HandleError?) && s.workers[a.worker].job == j
    && (a.HandleError? && s.workers[a.worker].attempts < maxRetries ==> !Rejected(s.rows, j, Queued))
  }

  /** The row of `j` was failed by its publisher, and no worker has written an outcome since. */
  ghost predicate FailedByPublisher(run: seq<Action>, j: JobID, maxRetries: nat)
    requires CanRun(INIT, run, maxRetries)
    decreases |run|
  {
    run != [] &&
    (var init, a := run[..|run| - 1], run[|run| - 1];
      var s := Run(INIT, init, maxRetries);
      PublisherFails(s, a, j) || (!WorkerEnds(s, a, j, maxRetries) && FailedByPublisher(init, j, maxRetries)))
  }

  lemma PublisherWrites(s: System, a: Action, j: JobID)
    requires CallerAt(s, a) && s.callers[a.caller] == Failing(j) && j in s.rows
    ensures CallerStep(s, a).rows == if PublisherFails(s, a, j) then Updated(s.rows, j, Failed) else s.rows
    ensures j in Updated(s.rows, j, Failed) && Updated(s.rows, j, Failed)[j].status.Failed?
  {
    DoneAndFailed(s.rows, j);
    hide Updated, Collides, IsFound;
  }

  /** Nobody writes a job that its publisher has failed, until a worker writes an outcome. */
  lemma StaysFailed(s: System, a: Action, maxRetries: nat, j: JobID)
    requires Can(s, a) && j in s.rows && s.rows[j].status.Failed? && !WorkerEnds(s, a, j, maxRetries)
    requires WorkerAt(s, a) && Subject(s, a) == j ==> FaultFree(a)
    ensures var s' := Step(s, a, maxRetries); j in s'.rows && s'.rows[j].status.Failed?
  {
    if WorkerAt(s, a) {
      hide CallerAt, Step;
      WorkerKeepsFailed(s, a, maxRetries, j);
    } else if CallerAt(s, a) {
      StepWrites(s, a, maxRetries, j);
      CallerStepMoves(s, a);
      CallerKeepsRows(s, a, j);
      hide CallerStep, CallerMoves;
    }
  }

  lemma WorkerKeepsFailed(s: System, a: Action, maxRetries: nat, j: JobID)
    requires WorkerAt(s, a) && j in s.rows && s.rows[j].status.Failed? && !WorkerEnds(s, a, j, maxRetries)
    requires Subject(s, a) == j ==> FaultFree(a)
    ensures var s' := WorkerStep(s, a, maxRetries); j in s'.rows && s'.rows[j].status.Failed?
  {
    if a.HandleError? && s.workers[a.worker].job == j && s.workers[a.worker].attempts < maxRetries {
      assert Rejected(s.rows, j, Queued) && Updated(s.rows, j, Queued) == s.rows;
      hide Rejected, Updated;
    } else {
      WorkerStepLocal(s, a, maxRetries);
      WorkerEffect(s, a, maxRetries, j);
      hide WorkerStep;
    }
  }

  lemma CallerKeepsRows(s: System, a: Action, j: JobID)
    requires CallerAt(s, a) && RowsMove(s, a.caller, NewJob(a), CallerStep(s, a).rows) && j in s.rows
    ensures j in CallerStep(s, a).rows
  {
    hide CallerStep, Updated;
    if s.callers[a.caller].Failing? {
      UpdatedMoves(s.rows, s.callers[a.caller].job, Failed, j);
    }
  }

  /** A worker's outcome after the publisher's failure. */
  lemma StraightAgain(s: System, a: Action, maxRetries: nat, j: JobID)
    requires JobOk(s, j, maxRetries) && WorkerEnds(s, a, j, maxRetries) && j in s.rows
    ensures Straight(WorkerStep(s, a, maxRetries), j)
  {
    var w, s' := a.worker, WorkerStep(s, a, maxRetries);
    SoleHolderIs(s, w, j, maxRetries);
    hide JobOk;
    if a.MarkDone? {
      StraightUpdate(s, w, Done, Acking(j), j);
    } else if s.workers[w].attempts >= maxRetries {
      StraightUpdate(s, w, Failed, DeadLettering(j), j);
    } else {
      StraightUpdate(s, w, Queued, Requeueing(j), j);
    }
    hide AfterUpdate, Rejected, Straight;
    StraightMoves(s, s', w, j);
  }

  lemma SoleHolderIs(s: System, w: WorkerID, j: JobID, maxRetries: nat)
    requires JobOk(s, j, maxRetries) && Holds(s, w, j)
    ensures (forall v :: Holds(s, v, j) ==> v == w) && j !in s.dlq && j !in s.acked
  {
    assert s.dlq[j] == 0 && j !in s.acked;
    hide Count;
  }

  lemma StraightStep(s: System, a: Action, maxRetries: nat, j: JobID)
    requires Inv(s, maxRetries) && Can(s, a) && Straight(s, j) && !PublisherFails(s, a, j)
    requires WorkerAt(s, a) && Subject(s, a) == j ==> FaultFree(a)
    ensures Straight(Step(s, a, maxRetries), j)
  {
    if WorkerAt(s, a) && Subject(s, a) == j {
      assert JobOk(s, j, maxRetries);
      hide JobOk, Inv;
      StraightSteps(s, a, maxRetries, j);
    } else {
      assert forall c :: c in s.callers && s.callers[c] == Failing(j) ==> j in s.rows by {
        forall c | c in s.callers && s.callers[c] == Failing(j) ensures j in s.rows {
          assert CallerOk(s, s.callers[c]);
        }
      }
      hide Inv, Straight;
      StepWrites(s, a, maxRetries, j);
      if CallerAt(s, a) && s.callers[a.caller] == Failing(j) {
        PublisherWrites(s, a, j);
        assert !WorkerAt(s, a) && Step(s, a, maxRetries).rows == s.rows;
      }
      OthersStep(s, a, maxRetries, j);
      hide Step;
      StraightWaits(s, Step(s, a, maxRetries), j);
    }
  }

  lemma OthersStep(s: System, a: Action, maxRetries: nat, j: JobID)
    requires Can(s, a) && (WorkerAt(s, a) ==> Subject(s, a) != j)
    ensures var s' := Step(s, a, maxRetries);
      && (j in s'.dlq <==> j in s.dlq) && (j in s'.acked <==> j in s.acked)
      && (forall w :: Holds(s, w, j) <==> Holds(s', w, j))
      && (forall w :: Holds(s, w, j) ==> w in s'.workers && s.workers[w] == s'.workers[w])
    ensures RowMoves(s, a, Step(s, a, maxRetries).rows, j, maxRetries) && !(CallerAt(s, a) && s.callers[a.caller] == Failing(j)) ==>
      (j in s.rows ==> j in Step(s, a, maxRetries).rows && Step(s, a, maxRetries).rows[j] == s.rows[j])
  {
    if WorkerAt(s, a) {
      WorkerStepLocal(s, a, maxRetries);
      hide WorkerStep;
    } else if CallerAt(s, a) {
      CallerStepMoves(s, a);
      hide CallerStep;
    }
  }

  /** What a step makes of a job without faults, according to whether its publisher failed it. */
  lemma OutcomeStep(s: System, a: Action, maxRetries: nat, j: JobID, failed: bool)
    requires Inv(s, maxRetries) && Can(s, a) && (WorkerAt(s, a) && Subject(s, a) == j ==> FaultFree(a))
    requires if failed then j in s.rows && s.rows[j].status.Failed? else Straight(s, j)
    ensures var s' := Step(s, a, maxRetries);
      if PublisherFails(s, a, j) || (!WorkerEnds(s, a, j, maxRetries) && failed) then j in s'.rows && s'.rows[j].status.Failed?
      else Straight(s', j)
  {
    if PublisherFails(s, a, j) {
      assert CallerOk(s, s.callers[a.caller]);
      hide Inv, Straight;
      PublisherWrites(s, a, j);
      hide CallerStep;
    } else if failed && !WorkerEnds(s, a, j, maxRetries) {
      hide Inv, Straight;
      StaysFailed(s, a, maxRetries, j);
    } else if failed {
      assert JobOk(s, j, maxRetries);
      hide Inv, JobOk, Straight;
      StraightAgain(s, a, maxRetries, j);
    } else {
      hide Inv, Straight, PublisherFails, WorkerEnds;
      StraightStep(s, a, maxRetries, j);
    }
  }

  lemma {:induction false} OutcomeRuns(run: seq<Action>, j: JobID, maxRetries: nat)
    requires CanRun(INIT, run, maxRetries) && maxRetries > 0 && Faults(Run(INIT, run, maxRetries), j) == 0
    ensures var s := Run(INIT, run, maxRetries);
      if FailedByPublisher(run, j, maxRetries) then j in s.rows && s.rows[j].status.Failed? else Straight(s, j)
  {
    if run != [] {
      var init, a := run[..|run| - 1], run[|run| - 1];
      var s := Run(INIT, init, maxRetries);
      assert Can(s, a) && Run(INIT, run, maxRetries) == Step(s, a, maxRetries);
      RunInv(INIT, init, maxRetries);
      FaultsGrow(s, a, maxRetries, j);
      hide Step, Can, Inv;
      OutcomeRuns(init, j, maxRetries);
      hide Straight, PublisherFails, WorkerEnds, Run, CanRun, Faults;
      OutcomeStep(s, a, maxRetries, j, FailedByPublisher(init, j, maxRetries));
    }
  }

  /** After any run: an acknowledged job without a fault of its workers is done, unless its publisher failed it, while
      its message was on the way or in a worker's hands, and no worker wrote its outcome after that. */
  lemma AcknowledgedIff(run: seq<Action>, j: JobID, maxRetries: nat)
    requires CanRun(INIT, run, maxRetries) && maxRetries > 0 && Faults(Run(INIT, run, maxRetries), j) == 0
    requires j in Run(INIT, run, maxRetries).acked
    ensures var s := Run(INIT, run, maxRetries);
      j in s.rows && (s.rows[j].status.Done? <==> !FailedByPublisher(run, j, maxRetries))
  {
    OutcomeRuns(run, j, maxRetries);
    hide Run, CanRun, Faults;
  }

  lemma {:induction false} FailedNeedsPublish(run: seq<Action>, j: JobID, maxRetries: nat)
    requires CanRun(INIT, run, maxRetries) && FailedByPublisher(run, j, maxRetries)
    ensures Ever(run, j, maxRetries, PublishFailed)
  {
    var init, a := run[..|run| - 1], run[|run| - 1];
    var s := Run(INIT, init, maxRetries);
    if PublisherFails(s, a, j) {
      RunsAreExplained(init, j, maxRetries);
    } else {
      FailedNeedsPublish(init, j, maxRetries);
    }
    hide Is, Run, CanRun, WorkerEnds;
  }

  /** So it is done if its publish did not fail. */
  lemma AcknowledgedIsDone(run: seq<Action>, j: JobID, maxRetries: nat)
    requires CanRun(INIT, run, maxRetries) && maxRetries > 0 && Spared(run, j, maxRetries)
    ensures var s := Run(INIT, run, maxRetries); j in s.acked ==> j in s.rows && s.rows[j].status.Done?
  {
    if j in Run(INIT, run, maxRetries).acked {
      AcknowledgedIff(run, j, maxRetries);
      if FailedByPublisher(run, j, maxRetries) {
        FailedNeedsPublish(run, j, maxRetries);
      }
    }
  }

  // ------------------------------------------------------------------- and one that is not done

  ghost predicate Reaches(run: seq<Action>, s: System, maxRetries: nat) {
    CanRun(INIT, run, maxRetries) && Run(INIT, run, maxRetries) == s
  }

  lemma Then(run: seq<Action>, s: System, a: Action, s': System, maxRetries: nat)
    requires Reaches(run, s, maxRetries) && Can(s, a) && Step(s, a, maxRetries) == s'
    ensures Reaches(run + [a], s', maxRetries)
  {
    assert (run + [a])[..|run|] == run;
    hide Can, Step;
  }

  /** One job of one caller, with one worker. */
  function Single(key: Key, status: Status, main: multiset<JobID>, flight: set<JobID>, p: Worker, c: Caller, placed: set<JobID>): System {
    System(map[1 := Job(key, status, 0)], main, multiset{}, flight, map[0 := p], map[0 := c], placed, {}, map[], map[])
  }

  lemma Enqueued(key: Key, maxRetries: nat) returns (run: seq<Action>)
    requires key.resourceID != ""
    ensures Reaches(run, Single(key, Queued, multiset{}, {}, Free, Publishing(1), {}), maxRetries)
  {
    var s1 := INIT.(workers := map[0 := Free]);
    var s2, s3 := s1.(callers := map[0 := Finding(key)]), s1.(callers := map[0 := Inserting(key)]);
    run := [] + [Start(0)] + [Enqueue(0, key)] + [Find(0, None)] + [Insert(0, 1)];
    assert !Collides(s3.rows, 1, key);
    assert Reaches([], INIT, maxRetries);
    hide Reaches;
    Then([], INIT, Start(0), s1, maxRetries);
    Then([] + [Start(0)], s1, Enqueue(0, key), s2, maxRetries);
    Then([] + [Start(0)] + [Enqueue(0, key)], s2, Find(0, None), s3, maxRetries);
    InsertsFirst(s3, key, maxRetries);
    Then([] + [Start(0)] + [Enqueue(0, key)] + [Find(0, None)], s3, Insert(0, 1),
         Single(key, Queued, multiset{}, {}, Free, Publishing(1), {}), maxRetries);
  }

  lemma InsertsFirst(s: System, key: Key, maxRetries: nat)
    requires s == INIT.(workers := map[0 := Free], callers := map[0 := Inserting(key)])
    ensures Can(s, Insert(0, 1)) && Step(s, Insert(0, 1), maxRetries) == Single(key, Queued, multiset{}, {}, Free, Publishing(1), {})
  {
    assert !Collides(s.rows, 1, key);
  }

  /** The publish fails although its message is on the way; its caller marks the job failed. */
  lemma FailedInFlight(key: Key, maxRetries: nat) returns (run: seq<Action>)
    requires key.resourceID != ""
    ensures Reaches(run, Single(key, Failed, multiset{}, {1}, Free, Returned(Error), {}), maxRetries)
  {
    var first := Enqueued(key, maxRetries);
    var s1, s2 := Single(key, Queued, multiset{}, {}, Free, Publishing(1), {}), Single(key, Queued, multiset{}, {1}, Free, Awaiting(1), {});
    var s3, s4 := Single(key, Queued, multiset{}, {1}, Free, Failing(1), {}), Single(key, Failed, multiset{}, {1}, Free, Returned(Error), {});
    run := first + [Send(0)] + [PublishFails(0)] + [MarkFailed(0)];
    hide Reaches;
    Then(first, s1, Send(0), s2, maxRetries);
    Then(first + [Send(0)], s2, PublishFails(0), s3, maxRetries);
    Then(first + [Send(0)] + [PublishFails(0)], s3, MarkFailed(0), s4, maxRetries);
  }

  /** The message arrives, its job is finished, and it is acknowledged: no fault of a worker, and not done. */
  lemma AcknowledgedCanBeFailed(key: Key, maxRetries: nat) returns (run: seq<Action>)
    requires key.resourceID != ""
    ensures CanRun(INIT, run, maxRetries)
    ensures var s := Run(INIT, run, maxRetries);
      1 in s.acked && s.rows == map[1 := Job(key, Failed, 0)] && Faults(s, 1) == 0
  {
    var first := FailedInFlight(key, maxRetries);
    var s1 := Single(key, Failed, multiset{}, {1}, Free, Returned(Error), {});
    var s2 := Single(key, Failed, multiset{1}, {}, Free, Returned(Error), {1});
    var s3, s4 := Single(key, Failed, multiset{}, {}, Got(1), Returned(Error), {1}), Single(key, Failed, multiset{}, {}, Acking(1), Returned(Error), {1});
    var end := Single(key, Failed, multiset{}, {}, Free, Returned(Error), {1}).(acked := {1});
    run := first + [Arrive(1)] + [Deliver(0, 1)] + [Action.MarkProcessing(0)] + [Settle(0)];
    Arrives(s1, s2, maxRetries);
    hide CanRun, Run;
    Then(first, s1, Arrive(1), s2, maxRetries);
    Then(first + [Arrive(1)], s2, Deliver(0, 1), s3, maxRetries);
    Then(first + [Arrive(1)] + [Deliver(0, 1)], s3, Action.MarkProcessing(0), s4, maxRetries);
    Then(first + [Arrive(1)] + [Deliver(0, 1)] + [Action.MarkProcessing(0)], s4, Settle(0), end, maxRetries);
    hide Step, Can;
    assert Reaches(run, end, maxRetries);
  }

  lemma Arrives(s: System, s': System, maxRetries: nat)
    requires s.flight == {1} && s' == s.(flight := {}, main := s.main + multiset{1}, placed := s.placed + {1})
    ensures Can(s, Arrive(1)) && Step(s, Arrive(1), maxRetries) == s'
  {
  }
}
