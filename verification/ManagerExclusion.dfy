/** Mutual exclusion of workers, and what it rests on.

    `schedule` and `Cancel` check a status they read earlier and then write without a
    condition; `finish` checks only its own copy. Which statements about the job
    manager are true depends on what those writes find. */
module ManagerExclusion {
  import opened Common
  import opened JobState
  import opened JobTable
  import opened JobManager
  import opened ManagerInvariants

  // ------------------------------------------------------------ hypotheses on a step

  /** The read-check-write of `schedule` (per job) and of `Cancel` is undisturbed: the
      write finds the status its check read, or no row. Every run in which those are
      single steps is of this kind. */
  predicate FreshWrite(s: State, a: Action) {
    match a
    case MarkNext =>
      s.sched.Picking? && s.sched.queue != [] && s.sched.queue[0].id in s.rows ==>
        s.rows[s.sched.queue[0].id].status == s.sched.queue[0].status
    case CancelWrite(c) =>
      c in s.calls && s.calls[c].CancelChecked? && s.calls[c].id in s.rows ==>
        s.rows[s.calls[c].id].status == s.calls[c].read
    case _ => true
  }

  /** A worker records its outcome over a row some Cancel has written since its mark. */
  predicate Overwrites(s: State, a: Action) {
    a.Finish? && a.w in s.workers && s.workers[a.w].cancelWritten && s.workers[a.w].job.id in s.rows
  }

  /** The one overwrite that brings a cancelled job back into the queue. */
  predicate Revives(s: State, a: Action) {
    Overwrites(s, a) && s.workers[a.w].at.Finishing? && s.workers[a.w].at.outcome == Interrupted
  }

  /** No step of the run writes on a stale check, and none revives a cancelled job. */
  ghost predicate Undisturbed(s: State, run: seq<Action>)
    requires Admissible(s, run)
    decreases |run|
  {
    run == [] ||
    (FreshWrite(s, run[0]) && !Revives(s, run[0]) && Undisturbed(Apply(s, run[0]), run[1..]))
  }

  // ------------------------------------------------------------ the invariant

  function Expected(cancelWritten: bool): Status {
    if cancelWritten then Cancelled else Running
  }

  /** Every executing worker owns its job's entry, so no job has two. */
  ghost predicate OwnEntry(s: State) {
    forall w :: w in s.workers && Executing(s.workers[w]) ==>
      s.workers[w].job.id in s.running && s.running[s.workers[w].job.id] == w
  }

  ghost predicate MarkedOk(s: State) {
    s.sched.Marked? ==>
      && s.sched.job.id !in s.running
      && (s.sched.job.id in s.rows ==> s.rows[s.sched.job.id].status == Expected(s.sched.cancelWritten))
  }

  /** Until a worker records its outcome its row says running, or cancelled by a Cancel. */
  ghost predicate RowsFollow(s: State) {
    forall w :: w in s.workers && Live(s.workers[w]) && s.workers[w].job.id in s.rows ==>
      s.rows[s.workers[w].job.id].status == Expected(s.workers[w].cancelWritten)
  }

  /** While the scheduler is alive a waiting row has no worker. */
  ghost predicate WaitersFree(s: State) {
    !s.sched.Exited? ==> forall id :: id in s.rows && Runnable(s.rows[id].status) ==> id !in s.running
  }

  /** Only a Cancel of the job, or a Stop past the scheduler's end, cancels a context. */
  ghost predicate CausesOk(s: State) {
    forall w :: w in s.workers && s.workers[w].cancelled ==> s.workers[w].cancelWritten || s.sched.Exited?
  }

  /** What holds between the database calls of one API call. */
  ghost predicate CallOk(s: State, call: Call) {
    match call
    case CancelChecked(id, read) => CanTransition(read, Cancelled)
    case CancelWritten(id) => Settled(s, id)
    case CancelFound(id, worker) =>
      Settled(s, id) && (worker in s.workers ==> s.workers[worker].cancelWritten)
    case DeleteChecked(id) => id in s.rows ==> Terminal(s.rows[id].status)
    case RetryChecked(_) => true
  }

  /** After a Cancel's write: the row stays terminal and whoever works on it is marked. */
  ghost predicate Settled(s: State, id: int) {
    && (id in s.rows ==> Terminal(s.rows[id].status))
    && (s.sched.Marked? && s.sched.job.id == id ==> s.sched.cancelWritten)
    && (forall w :: w in s.workers && s.workers[w].job.id == id && Executing(s.workers[w]) ==>
          s.workers[w].cancelWritten)
  }

  ghost predicate CallsOk(s: State) {
    forall c :: c in s.calls ==> CallOk(s, s.calls[c])
  }

  /** Once Stop has collected the cancel functions, every executing worker is among them
      or already cancelled. */
  ghost predicate StopOk(s: State) {
    match s.stop
    case NotStopping => true
    case AwaitLoop(cs) => forall w :: w in s.workers && Executing(s.workers[w]) ==> w in cs || s.workers[w].cancelled
    case Firing(cs) => forall w :: w in s.workers && Executing(s.workers[w]) ==> w in cs || s.workers[w].cancelled
    case AwaitWorkers => forall w :: w in s.workers && Executing(s.workers[w]) ==> s.workers[w].cancelled
    case Returned => true
  }

  ghost predicate Exclusive(s: State) {
    OwnEntry(s) && MarkedOk(s) && RowsFollow(s) && WaitersFree(s) && CausesOk(s) && CallsOk(s) && StopOk(s)
  }

  // ------------------------------------------------------------ preservation

  lemma ExSched(s: State, at: Scheduler)
    requires Exclusive(s) && !s.sched.Marked? && !s.sched.Exited? && !at.Marked?
    ensures Exclusive(s.(sched := at))
  {
    var t := s.(sched := at);
    forall c | c in t.calls ensures CallOk(t, t.calls[c]) { assert CallOk(s, s.calls[c]); }
  }

  /** The row a fresh mark writes had no worker and no settled Cancel. */
  lemma MarkedRowIsFree(s: State)
    requires PassOk(s) && Exclusive(s) && s.sched.Picking? && s.sched.queue != [] && FreshWrite(s, MarkNext)
    requires s.sched.queue[0].id in s.rows
    ensures var id := s.sched.queue[0].id;
            && id !in s.running && Runnable(s.rows[id].status)
            && (forall w :: w in s.workers && Executing(s.workers[w]) ==> s.workers[w].job.id != id)
  {
  }

  lemma ExMarkedRow(s: State, job: Job, at: Scheduler)
    requires Exclusive(s) && s.sched.Picking? && job.id in s.rows && Runnable(s.rows[job.id].status)
    requires job.id !in s.running && at.Marked? && at.job.id == job.id && !at.cancelWritten
    requires forall w :: w in s.workers && Executing(s.workers[w]) ==> s.workers[w].job.id != job.id
    ensures Exclusive(s.(rows := SetStatus(s.rows, job.id, Running, "", None), sched := at))
  {
    var t := s.(rows := SetStatus(s.rows, job.id, Running, "", None), sched := at);
    forall c | c in t.calls ensures CallOk(t, t.calls[c]) { assert CallOk(s, s.calls[c]); }
  }

  lemma ExMarkNext(s: State)
    requires PassOk(s) && Exclusive(s) && s.sched.Picking? && s.sched.queue != [] && FreshWrite(s, MarkNext)
    ensures Exclusive(MarkNextStep(s))
  {
    var job := s.sched.queue[0];
    if job.id in s.rows {
      MarkedRowIsFree(s);
      ExMarkedRow(s, job, MarkNextStep(s).sched);
    } else {
      ExSched(s, Picking(s.sched.limit, s.sched.queue[1..]));
    }
  }

  lemma RegisterKeepsCalls(s: State)
    requires Inv(s) && CallsOk(s) && s.sched.Marked?
    ensures CallsOk(RegisterStep(s))
  {
    hide PassOk, NoneLost, InterruptsOk, RowsOk, PhaseOk;
    var t := RegisterStep(s);
    forall c | c in t.calls ensures CallOk(t, t.calls[c]) { assert CallOk(s, s.calls[c]); }
  }

  lemma ExRegister(s: State)
    requires Inv(s) && Exclusive(s) && s.sched.Marked?
    ensures Exclusive(RegisterStep(s))
  {
    hide PassOk, NoneLost, InterruptsOk, RowsOk, StartAll, CallsOk;
    RegisterKeepsCalls(s);
  }

  /** Rows removed, or rewritten without touching any status. */
  lemma ExQuietRows(s: State, rows: Table)
    requires Exclusive(s)
    requires forall id :: id in rows ==> id in s.rows && rows[id].status == s.rows[id].status
    ensures Exclusive(s.(rows := rows))
  {
    var t := s.(rows := rows);
    forall c | c in t.calls ensures CallOk(t, t.calls[c]) { assert CallOk(s, s.calls[c]); }
  }

  /** A worker moves on, or its context is cancelled for a known cause. */
  lemma ExSetWorker(s: State, w: int, x: Worker)
    requires Exclusive(s) && w in s.workers
    requires x.job.id == s.workers[w].job.id && x.cancelWritten == s.workers[w].cancelWritten
    requires Live(x) ==> Live(s.workers[w])
    requires Executing(x) ==> Executing(s.workers[w])
    requires s.workers[w].cancelled ==> x.cancelled
    requires x.cancelled && !s.workers[w].cancelled ==> x.cancelWritten || s.sched.Exited?
    ensures Exclusive(s.(workers := s.workers[w := x]))
  {
    var t := s.(workers := s.workers[w := x]);
    forall c | c in t.calls ensures CallOk(t, t.calls[c]) { assert CallOk(s, s.calls[c]); }
  }

  lemma ExHelpers(s: State, helpers: set<int>)
    requires Exclusive(s)
    ensures Exclusive(s.(helpers := helpers))
  {
    var t := s.(helpers := helpers);
    forall c | c in t.calls ensures CallOk(t, t.calls[c]) { assert CallOk(s, s.calls[c]); }
  }

  lemma FinishKeepsCalls(s: State, w: int, message: string)
    requires Inv(s) && Exclusive(s) && w in s.workers && s.workers[w].at.Finishing?
    requires s.workers[w].cancelWritten && s.workers[w].job.id in s.rows ==> s.workers[w].at.outcome != Interrupted
    ensures CallsOk(FinishStep(s, w, message))
  {
    hide PassOk, NoneLost, EntriesOk, PhaseOk, RowsOk, OwnEntry, WaitersFree, StopOk, CausesOk;
    var t := FinishStep(s, w, message);
    forall c | c in t.calls ensures CallOk(t, t.calls[c]) { assert CallOk(s, s.calls[c]); }
  }

  lemma ExFinish(s: State, w: int, message: string)
    requires Inv(s) && Exclusive(s) && w in s.workers && s.workers[w].at.Finishing?
    requires s.workers[w].cancelWritten && s.workers[w].job.id in s.rows ==> s.workers[w].at.outcome != Interrupted
    ensures Exclusive(FinishStep(s, w, message))
  {
    hide PassOk, NoneLost, EntriesOk, PhaseOk, CallsOk, RowsOk;
    FinishKeepsCalls(s, w, message);
  }

  lemma ExUnregister(s: State, w: int)
    requires Exclusive(s) && w in s.workers && s.workers[w].at.Leaving?
    ensures Exclusive(UnregisterStep(s, w))
  {
    var t := UnregisterStep(s, w);
    forall c | c in t.calls ensures CallOk(t, t.calls[c]) { assert CallOk(s, s.calls[c]); }
  }

  lemma ExLeave(s: State, w: int)
    requires Exclusive(s)
    ensures Exclusive(LeaveStep(s, w))
  {
    var t := LeaveStep(s, w);
    forall c | c in t.calls ensures CallOk(t, t.calls[c]) { assert CallOk(s, s.calls[c]); }
  }

  lemma ExInsert(s: State, job: Job)
    requires Inv(s) && Exclusive(s)
    ensures Exclusive(Insert(s, job))
  {
    var t := Insert(s, job);
    forall c | c in t.calls ensures CallOk(t, t.calls[c]) { assert CallOk(s, s.calls[c]); }
  }

  lemma ExCalls(s: State, calls: map<int, Call>)
    requires Exclusive(s)
    requires forall c :: c in calls ==> CallOk(s, calls[c])
    ensures Exclusive(s.(calls := calls))
  {
    var t := s.(calls := calls);
    forall c | c in t.calls ensures CallOk(t, t.calls[c]) { assert CallOk(s, calls[c]); }
  }

  lemma ExCancelRow(s: State, id: int)
    requires Exclusive(s) && id in s.rows && CanTransition(s.rows[id].status, Cancelled)
    ensures var t := NoteCancel(s, id).(rows := SetStatus(s.rows, id, Cancelled, "cancelled", None));
            Exclusive(t) && Settled(t, id)
  {
    var t := NoteCancel(s, id).(rows := SetStatus(s.rows, id, Cancelled, "cancelled", None));
    forall c | c in t.calls ensures CallOk(t, t.calls[c]) { assert CallOk(s, s.calls[c]); }
  }

  lemma ExCancelWrite(s: State, c: int)
    requires Exclusive(s) && c in s.calls && s.calls[c].CancelChecked? && FreshWrite(s, CancelWrite(c))
    ensures Exclusive(CancelWriteStep(s, c))
  {
    var id := s.calls[c].id;
    assert CallOk(s, s.calls[c]);
    if id in s.rows {
      ExCancelRow(s, id);
      var t := NoteCancel(s, id).(rows := SetStatus(s.rows, id, Cancelled, "cancelled", None));
      ExCalls(t, s.calls[c := CancelWritten(id)]);
    } else {
      ExCalls(s, s.calls - {c});
    }
  }

  lemma ExDown(s: State)
    requires s.running == map[] && s.workers == map[] && s.calls == map[] && s.sched == Idle && s.stop == NotStopping
    ensures Exclusive(s)
  {
  }

  lemma ExStop(s: State, stop: StopCall)
    requires Exclusive(s) && StopOk(s.(stop := stop))
    ensures Exclusive(s.(stop := stop, stopping := true))
  {
    var t := s.(stop := stop, stopping := true);
    forall c | c in t.calls ensures CallOk(t, t.calls[c]) { assert CallOk(s, s.calls[c]); }
  }

  // ------------------------------------------------------------ steps and runs

  lemma PassIsOk(s: State)
    requires Inv(s)
    ensures PassOk(s)
  {
  }

  lemma ExSchedStep(s: State, a: Action)
    requires Inv(s) && Exclusive(s) && Enabled(s, a) && SchedAction(a) && FreshWrite(s, a)
    ensures Exclusive(Apply(s, a))
  {
    hide ApplyWorker, ApplyCall, ApplyLife, Inv, Exclusive, MarkNextStep, RegisterStep, Queue;
    match a
    case MarkNext => PassIsOk(s); ExMarkNext(s);
    case Register => ExRegister(s);
    case Purge(ids) => ExQuietRows(s, s.rows - ids);
    case ExitLoop => ExExit(s);
    case ReadLimit(limit) => ExSched(s, HasLimit(limit));
    case CountFree => ExSched(s, CountFreeStep(s).sched);
    case QueryQueue => ExSched(s, QueryQueueStep(s).sched);
    case EndPass => ExSched(s, Idle);
  }

  lemma ExExit(s: State)
    requires Exclusive(s) && s.sched.Idle?
    ensures Exclusive(SchedTo(s, Exited))
  {
    var t := SchedTo(s, Exited);
    forall c | c in t.calls ensures CallOk(t, t.calls[c]) { assert CallOk(s, s.calls[c]); }
  }

  lemma ExMeasure(s: State, w: int, size: Option<int>)
    requires Exclusive(s) && w in s.workers && s.workers[w].at.AtSize?
    ensures Exclusive(MeasureStep(s, w, size))
  {
    hide StopOk, RowsFollow;
    var x := s.workers[w];
    if x.job.total != 0 {
      ExSetWorker(s, w, x.(at := AtTransfer));
      ExHelpers(s.(workers := s.workers[w := x.(at := AtTransfer)]), s.helpers + {x.job.id});
    } else if size.None? {
      ExSetWorker(s, w, x.(at := Finishing(Failed, None)));
    } else {
      var y := x.(job := x.job.(total := size.value), at := AtTransfer);
      var rows := SetTotal(s.rows, x.job.id, size.value);
      ExQuietRows(s, rows);
      ExSetWorker(s.(rows := rows), w, y);
      ExHelpers(s.(rows := rows, workers := s.workers[w := y]), s.helpers + {x.job.id});
    }
  }

  lemma ExMove(s: State, a: Action)
    requires Exclusive(s) && Enabled(s, a)
    requires a.LookUpServer? || a.EndTransfer? || a.ReRead? || a.CheckContext?
    ensures Exclusive(Apply(s, a))
  {
    hide ApplySched, ApplyCall, ApplyLife;
    ExSetWorker(s, a.w, s.workers[a.w].(at := NextPosition(s, a)));
  }

  lemma ExWorkerStep(s: State, a: Action)
    requires Inv(s) && Exclusive(s) && Enabled(s, a) && WorkerAction(a) && !Revives(s, a)
    ensures Exclusive(Apply(s, a))
  {
    hide ApplySched, ApplyCall, ApplyLife, Inv, Exclusive, MeasureStep, FinishStep, UnregisterStep, LeaveStep;
    match a
    case MeasureSource(w, size) => ExMeasure(s, w, size);
    case Finish(w, message) => ExFinish(s, w, message);
    case Unregister(w) => ExUnregister(s, w);
    case Leave(w) => ExLeave(s, w);
    case Flush(id, transferred, speed, eta) => ExQuietRows(s, SetProgress(s.rows, id, transferred, speed, eta));
    case _ => ExMove(s, a);
  }

  lemma ExCancelContext(s: State, w: int)
    requires Exclusive(s)
    requires w in s.workers ==> s.workers[w].cancelWritten || s.sched.Exited?
    ensures Exclusive(CancelContext(s, w))
  {
    if w in s.workers { ExSetWorker(s, w, s.workers[w].(cancelled := true)); }
  }

  lemma ExCancelFire(s: State, c: int)
    requires Exclusive(s) && c in s.calls && s.calls[c].CancelFound?
    ensures Exclusive(EndCall(CancelContext(s, s.calls[c].worker), c))
  {
    assert CallOk(s, s.calls[c]);
    var t := CancelContext(s, s.calls[c].worker);
    ExCancelContext(s, s.calls[c].worker);
    forall k | k in t.calls ensures CallOk(t, t.calls[k]) { assert CallOk(s, s.calls[k]); }
    ExCalls(t, s.calls - {c});
  }

  lemma ExSetCall(s: State, c: int, call: Call)
    requires Exclusive(s) && CallOk(s, call)
    ensures Exclusive(SetCall(s, c, call))
  {
    hide OwnEntry, RowsFollow, WaitersFree, StopOk, MarkedOk, CausesOk, CallOk;
    ExCalls(s, s.calls[c := call]);
  }

  lemma ExReads(s: State, c: int, id: int)
    requires Exclusive(s)
    ensures Exclusive(CancelReadStep(s, c, id)) && Exclusive(DeleteReadStep(s, c, id)) && Exclusive(RetryReadStep(s, c, id))
  {
    hide Exclusive, CanTransition, Terminal;
    if id in s.rows {
      if CanTransition(s.rows[id].status, Cancelled) { ExSetCall(s, c, CancelChecked(id, s.rows[id].status)); }
      if Terminal(s.rows[id].status) { ExSetCall(s, c, DeleteChecked(id)); }
      ExSetCall(s, c, RetryChecked(s.rows[id]));
    }
  }

  lemma ExCancelLookUp(s: State, c: int)
    requires Inv(s) && Exclusive(s) && c in s.calls && s.calls[c].CancelWritten?
    ensures Exclusive(CancelLookUpStep(s, c))
  {
    hide PassOk, NoneLost, PhaseOk, StopOk, RowsFollow, WaitersFree;
    assert CallOk(s, s.calls[c]);
    ExCalls(s, CancelLookUpStep(s, c).calls);
  }

  lemma ExDeleteWrite(s: State, c: int)
    requires Exclusive(s) && c in s.calls && s.calls[c].DeleteChecked?
    ensures Exclusive(DeleteWriteStep(s, c))
  {
    hide OwnEntry, RowsFollow, WaitersFree, StopOk, MarkedOk, CausesOk;
    var t := RemoveRows(s, {s.calls[c].id});
    ExQuietRows(s, t.rows);
    ExCalls(t, s.calls - {c});
  }

  lemma ExRetryCreate(s: State, c: int)
    requires Inv(s) && Exclusive(s) && c in s.calls && s.calls[c].RetryChecked?
    ensures Exclusive(RetryCreateStep(s, c))
  {
    hide Inv, OwnEntry, RowsFollow, WaitersFree, StopOk, MarkedOk, CausesOk;
    ExInsert(s, s.calls[c].clone);
    ExCalls(Insert(s, s.calls[c].clone), s.calls - {c});
  }

  lemma ExCancelStep(s: State, a: Action)
    requires Inv(s) && Exclusive(s) && Enabled(s, a) && CancelAction(a) && FreshWrite(s, a)
    ensures Exclusive(Apply(s, a))
  {
    hide ApplySched, ApplyWorker, ApplyLife, Inv, Exclusive, CancelReadStep, CancelWriteStep, CancelLookUpStep;
    match a
    case CancelRead(c, id) => ExReads(s, c, id);
    case CancelWrite(c) => ExCancelWrite(s, c);
    case CancelLookUp(c) => ExCancelLookUp(s, c);
    case CancelFire(c) => ExCancelFire(s, c);
  }

  lemma ExCallStep(s: State, a: Action)
    requires Inv(s) && Exclusive(s) && Enabled(s, a) && CallAction(a) && !CancelAction(a)
    ensures Exclusive(Apply(s, a))
  {
    hide ApplySched, ApplyWorker, ApplyLife, Inv, Exclusive, Insert, DeleteReadStep, RetryReadStep, DeleteWriteStep,
         RetryCreateStep;
    match a
    case Create(job) => ExInsert(s, job);
    case DeleteRead(c, id) => ExReads(s, c, id);
    case RetryRead(c, id) => ExReads(s, c, id);
    case DeleteWrite(c) => ExDeleteWrite(s, c);
    case RetryCreate(c) => ExRetryCreate(s, c);
    case DropServer(ids) => ExQuietRows(s, s.rows - ids);
  }

  lemma ExStopFire(s: State, w: int)
    requires Inv(s) && Exclusive(s) && s.stop.Firing? && w in s.stop.cancels
    ensures Exclusive(StopFireStep(s, w))
  {
    ExCancelContext(s, w);
    ExStop(CancelContext(s, w), Firing(s.stop.cancels - {w}));
  }

  lemma ExLifeStep(s: State, a: Action)
    requires Inv(s) && Exclusive(s) && Enabled(s, a) && LifeAction(a)
    ensures Exclusive(Apply(s, a))
  {
    hide ApplySched, ApplyWorker, ApplyCall, PassOk;
    if a.Recover? || a.Launch? || a.Crash? { ExDown(Apply(s, a)); }
    else if a.ContextDone? {
      var t := Apply(s, a);
      forall c | c in t.calls ensures CallOk(t, t.calls[c]) { assert CallOk(s, s.calls[c]); }
    }
    else if a.StopFire? { ExStopFire(s, a.w); }
    else { ExStop(s, Apply(s, a).stop); }
  }

  /** A step that writes on a fresh check and revives nothing keeps mutual exclusion. */
  lemma ExclusiveStep(s: State, a: Action)
    requires Inv(s) && Exclusive(s) && Enabled(s, a) && FreshWrite(s, a) && !Revives(s, a)
    ensures Exclusive(Apply(s, a))
  {
    hide ApplySched, ApplyWorker, ApplyCall, ApplyLife;
    if SchedAction(a) { ExSchedStep(s, a); }
    else if WorkerAction(a) { ExWorkerStep(s, a); }
    else if CancelAction(a) { ExCancelStep(s, a); }
    else if CallAction(a) { ExCallStep(s, a); }
    else { ExLifeStep(s, a); }
  }

  lemma {:induction false} ExclusiveRun(s: State, run: seq<Action>)
    requires Inv(s) && Exclusive(s) && Admissible(s, run) && Undisturbed(s, run)
    ensures Exclusive(After(s, run))
    decreases |run|
  {
    hide ApplySched, ApplyWorker, ApplyCall, ApplyLife;
    if run != [] {
      InvStep(s, run[0]);
      ExclusiveStep(s, run[0]);
      ExclusiveRun(Apply(s, run[0]), run[1..]);
    }
  }
}
