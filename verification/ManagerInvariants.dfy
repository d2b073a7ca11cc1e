/** What every step of the job manager keeps, whatever the interleaving. */
module ManagerInvariants {
  import opened Common
  import opened JobState
  import opened JobTable
  import opened JobManager
  import opened ManagerSteps

  /** Rows are keyed by ids already handed out; none is paused. */
  ghost predicate RowsOk(s: State) {
    Fresh(s.rows, s.nextId)
  }

  /** Numbers in use are numbers already handed out. */
  ghost predicate NumbersOk(s: State) {
    && (forall w :: w in s.workers ==> w < s.nextWorker && s.workers[w].job.id < s.nextId
                                       && s.workers[w].job.status == Running)
    && (forall c :: c in s.calls && s.calls[c].CancelFound? ==> s.calls[c].worker < s.nextWorker)
    && (forall c :: c in s.calls && (s.calls[c].CancelWritten? || s.calls[c].CancelFound? || s.calls[c].DeleteChecked?)
          ==> s.calls[c].id < s.nextId)
  }

  /** A map entry belongs to a worker that is executing that very job. */
  ghost predicate EntriesOk(s: State) {
    forall id :: id in s.running ==>
      && id < s.nextId
      && s.running[id] in s.workers
      && s.workers[s.running[id]].job.id == id
      && Executing(s.workers[s.running[id]])
  }

  /** A worker goes to an interrupted finish only through a cancelled context. */
  ghost predicate InterruptsOk(s: State) {
    forall w :: w in s.workers && s.workers[w].at.Finishing? ==>
      && (s.workers[w].at.outcome == Done || s.workers[w].at.outcome == Failed || s.workers[w].at.outcome == Interrupted)
      && (s.workers[w].at.outcome == Interrupted ==> s.workers[w].cancelled)
  }

  /** Between processes there are no goroutines; Stop's steps come in order. */
  ghost predicate PhaseOk(s: State) {
    && (s.phase != Up ==> s == StartAll(s.rows, s.nextId).(phase := s.phase))
    && (s.phase == Recovered ==> forall id :: id in s.rows ==> s.rows[id].status != Running)
    && (s.stopping <==> !s.stop.NotStopping?)
    && (s.stop.Firing? || s.stop.AwaitWorkers? || s.stop.Returned? ==> s.sched.Exited?)
    && (s.stop.Returned? ==> s.workers == map[])
  }

  ghost predicate QueueEntriesOk(s: State, q: seq<Job>) {
    AscendingIds(q) && forall i :: 0 <= i < |q| ==> Runnable(q[i].status) && q[i].id < s.nextId
  }

  /** A pass holds copies of runnable rows in ascending id order, and together with
      the registered workers they never exceed the limit the pass read. */
  ghost predicate PassOk(s: State) {
    match s.sched
    case HasFree(limit, free) => free > 0 && |s.running| + free <= limit
    case Picking(limit, q) => QueueEntriesOk(s, q) && (q == [] || |s.running| + |q| <= limit)
    case Marked(limit, job, q, _) =>
      && QueueEntriesOk(s, q) && job.id < s.nextId && job.status == Running
      && |s.running| + 1 + |q| <= limit
      && (forall i :: 0 <= i < |q| ==> job.id < q[i].id)
    case _ => true
  }

  ghost predicate CarriedBy(s: State, w: int, id: int) {
    w in s.workers && s.workers[w].job.id == id && Live(s.workers[w])
  }

  /** Someone is still responsible for this running row. */
  ghost predicate Carried(s: State, id: int) {
    || (exists w :: CarriedBy(s, w, id))
    || (s.sched.Marked? && s.sched.job.id == id)
    || s.stopping
  }

  ghost predicate NoneLost(s: State) {
    s.phase == Up ==> forall id :: id in s.rows && s.rows[id].status == Running ==> Carried(s, id)
  }

  ghost predicate Inv(s: State) {
    RowsOk(s) && NumbersOk(s) && EntriesOk(s) && InterruptsOk(s) && PhaseOk(s) && PassOk(s) && NoneLost(s)
  }

  // ------------------------------------------------------------ preservation

  lemma InitialInv(s: State)
    requires Initial(s)
    ensures Inv(s)
  {
  }

  // ---- the parts that a change of other fields leaves standing

  lemma PassKept(s: State, t: State)
    requires PassOk(s) && SamePlace(s.sched, t.sched) && t.running.Keys <= s.running.Keys && s.nextId <= t.nextId
    ensures PassOk(t)
  {
    hide AscendingIds;
    SubsetSize(t.running.Keys, s.running.Keys);
  }

  lemma PhaseKept(s: State, t: State)
    requires PhaseOk(s) && s.phase == Up && t.phase == Up && t.stop == s.stop && t.stopping == s.stopping
    requires s.sched.Exited? ==> t.sched.Exited?
    requires t.workers.Keys <= s.workers.Keys
    ensures PhaseOk(t)
  {
    hide StartAll;
  }

  lemma WorkersKept(s: State, t: State)
    requires NumbersOk(s) && EntriesOk(s) && InterruptsOk(s)
    requires t.workers == s.workers && t.running == s.running && t.calls == s.calls
    requires t.nextId == s.nextId && t.nextWorker == s.nextWorker
    ensures NumbersOk(t) && EntriesOk(t) && InterruptsOk(t)
  {
  }

  lemma MustBeUp(s: State)
    requires PhaseOk(s)
    ensures s.workers != map[] || s.calls != map[] || !s.sched.Idle? || s.helpers != {} || s.stopping ==> s.phase == Up
  {
  }

  lemma NoneLostKept(s: State, t: State)
    requires NoneLost(s) && t.phase == s.phase && (s.stopping ==> t.stopping)
    requires forall id :: id in t.rows && t.rows[id].status == Running ==>
               id in s.rows && s.rows[id].status == Running
    requires forall w, id :: CarriedBy(s, w, id) && id in t.rows && t.rows[id].status == Running ==>
               CarriedBy(t, w, id)
    requires s.sched.Marked? ==> t.stopping || (t.sched.Marked? && t.sched.job.id == s.sched.job.id)
    ensures NoneLost(t)
  {
    if t.phase == Up {
      forall id | id in t.rows && t.rows[id].status == Running
        ensures Carried(t, id)
      {
        assert Carried(s, id);
        if w :| CarriedBy(s, w, id) { assert CarriedBy(t, w, id); }
      }
    }
  }

  lemma InvSetRows(s: State, rows: Table)
    requires Inv(s) && s.phase == Up && Fresh(rows, s.nextId)
    requires forall id :: id in rows && rows[id].status == Running ==> id in s.rows && s.rows[id].status == Running
    ensures Inv(s.(rows := rows))
  {
    hide PassOk, PhaseOk, Fresh, NoneLost;
    var t := s.(rows := rows);
    PassKept(s, t);
    PhaseKept(s, t);
    NoneLostKept(s, t);
  }

  lemma InvSetWorker(s: State, w: int, x: Worker)
    requires Inv(s) && w in s.workers
    requires x.job.id == s.workers[w].job.id && x.job.status == Running
    requires Executing(s.workers[w]) ==> Executing(x)
    requires Live(s.workers[w]) ==> Live(x) || !(x.job.id in s.rows && s.rows[x.job.id].status == Running)
    requires x.at.Finishing? ==>
      && (x.at.outcome == Done || x.at.outcome == Failed || x.at.outcome == Interrupted)
      && (x.at.outcome == Interrupted ==> x.cancelled)
    ensures Inv(s.(workers := s.workers[w := x]))
  {
    hide PassOk, PhaseOk, Fresh, NoneLost;
    MustBeUp(s);
    var t := s.(workers := s.workers[w := x]);
    PassKept(s, t);
    PhaseKept(s, t);
    NoneLostKept(s, t);
  }

  lemma InvSetSched(s: State, at: Scheduler)
    requires Inv(s) && s.phase == Up && !s.sched.Marked? && !s.sched.Exited? && !at.Marked?
    requires PassOk(s.(sched := at))
    ensures Inv(s.(sched := at))
  {
    NoneLostKept(s, s.(sched := at));
  }

  lemma InvSetCalls(s: State, calls: map<int, Call>)
    requires Inv(s) && s.phase == Up && NumbersOk(s.(calls := calls))
    ensures Inv(s.(calls := calls))
  {
    NoneLostKept(s, s.(calls := calls));
  }

  lemma InvSetHelpers(s: State, helpers: set<int>)
    requires Inv(s) && s.phase == Up
    ensures Inv(s.(helpers := helpers))
  {
    NoneLostKept(s, s.(helpers := helpers));
  }

  lemma InvInsert(s: State, job: Job)
    requires Inv(s) && s.phase == Up
    ensures Inv(Insert(s, job))
  {
    hide PassOk, PhaseOk, NoneLost;
    var t := Insert(s, job);
    PassKept(s, t);
    PhaseKept(s, t);
    NoneLostKept(s, t);
  }

  lemma PassMarkNext(s: State)
    requires PassOk(s) && s.sched.Picking? && s.sched.queue != []
    ensures PassOk(MarkNextStep(s))
  {
    hide SetStatus;
  }

  lemma TableMarkNext(s: State)
    requires RowsOk(s) && PhaseOk(s) && s.sched.Picking? && s.sched.queue != []
    ensures RowsOk(MarkNextStep(s)) && PhaseOk(MarkNextStep(s))
  {
    hide Successors, PhaseOk;
    MustBeUp(s);
    PhaseKept(s, MarkNextStep(s));
  }

  lemma WorkersMarkNext(s: State)
    requires NumbersOk(s) && EntriesOk(s) && InterruptsOk(s) && s.sched.Picking? && s.sched.queue != []
    ensures var t := MarkNextStep(s); NumbersOk(t) && EntriesOk(t) && InterruptsOk(t)
  {
    hide NumbersOk, EntriesOk, InterruptsOk, SetStatus, CanTransition;
    WorkersKept(s, MarkNextStep(s));
  }

  lemma NoneLostMarkNext(s: State)
    requires NoneLost(s) && s.sched.Picking? && s.sched.queue != []
    ensures NoneLost(MarkNextStep(s))
  {
    var t := MarkNextStep(s);
    if t.phase == Up {
      forall id | id in t.rows && t.rows[id].status == Running
        ensures Carried(t, id)
      {
        if !t.sched.Marked? || id != t.sched.job.id {
          assert Carried(s, id);
          if w :| CarriedBy(s, w, id) { assert CarriedBy(t, w, id); }
        }
      }
    }
  }

  lemma InvMarkNext(s: State)
    requires Inv(s) && s.sched.Picking? && s.sched.queue != []
    ensures Inv(MarkNextStep(s))
  {
    TableMarkNext(s);
    WorkersMarkNext(s);
    PassMarkNext(s);
    NoneLostMarkNext(s);
  }

  lemma NoneLostRegister(s: State)
    requires NoneLost(s) && NumbersOk(s) && s.sched.Marked?
    ensures NoneLost(RegisterStep(s))
  {
    var t := RegisterStep(s);
    if t.phase == Up {
      forall id | id in t.rows && t.rows[id].status == Running
        ensures Carried(t, id)
      {
        assert Carried(s, id);
        if !s.stopping {
          if id == s.sched.job.id {
            assert CarriedBy(t, s.nextWorker, id);
          } else {
            var w :| CarriedBy(s, w, id);
            assert CarriedBy(t, w, id);
          }
        }
      }
    }
  }

  lemma PassRegister(s: State)
    requires PassOk(s) && s.sched.Marked?
    ensures PassOk(RegisterStep(s)) && s.sched.job.id < s.nextId && s.sched.job.status == Running
  {
    hide AscendingIds;
  }

  lemma PhaseRegister(s: State)
    requires PhaseOk(s) && s.sched.Marked?
    ensures PhaseOk(RegisterStep(s))
  {
    hide StartAll;
    MustBeUp(s);
  }

  lemma InvRegister(s: State)
    requires Inv(s) && s.sched.Marked?
    ensures Inv(RegisterStep(s))
  {
    hide PassOk, PhaseOk, NoneLost, Fresh;
    MustBeUp(s);
    PassRegister(s);
    PhaseRegister(s);
    NoneLostRegister(s);
  }

  lemma InvUnregister(s: State, w: int)
    requires Inv(s) && w in s.workers && s.workers[w].at.Leaving?
    ensures Inv(UnregisterStep(s, w))
  {
    hide PassOk, PhaseOk, Fresh, NoneLost;
    MustBeUp(s);
    var t := UnregisterStep(s, w);
    PassKept(s, t);
    PhaseKept(s, t);
    NoneLostKept(s, t);
  }

  lemma InvLeave(s: State, w: int)
    requires Inv(s) && w in s.workers && s.workers[w].at.Ended?
    ensures Inv(LeaveStep(s, w))
  {
    hide PassOk, PhaseOk, Fresh, NoneLost;
    MustBeUp(s);
    var t := LeaveStep(s, w);
    PassKept(s, t);
    PhaseKept(s, t);
    NoneLostKept(s, t);
  }

  lemma InvNoteCancel(s: State, id: int)
    requires Inv(s) && s.phase == Up
    ensures Inv(NoteCancel(s, id))
  {
    hide PassOk, PhaseOk, Fresh, NoneLost;
    var t := NoteCancel(s, id);
    PassKept(s, t);
    PhaseKept(s, t);
    NoneLostKept(s, t);
  }

  lemma InvRecover(s: State)
    requires Inv(s) && s.phase == Down
    ensures Inv(RecoverStep(s))
  {
  }

  lemma InvCrash(s: State)
    requires Inv(s)
    ensures Inv(StartAll(s.rows, s.nextId))
  {
  }

  lemma InvStop(s: State, stop: StopCall)
    requires Inv(s) && s.phase == Up && !stop.NotStopping?
    requires stop.Firing? || stop.AwaitWorkers? || stop.Returned? ==> s.sched.Exited?
    requires stop.Returned? ==> s.workers == map[]
    ensures Inv(s.(stop := stop, stopping := true))
  {
  }

  // ---- the steps themselves

  lemma InvTransfer(s: State, w: int, x: Worker)
    requires Inv(s) && w in s.workers && s.workers[w].at.AtSize?
    requires x.at == AtTransfer && x.job.id == s.workers[w].job.id && x.job.status == Running
    requires x.cancelled == s.workers[w].cancelled
    ensures Inv(s.(workers := s.workers[w := x], helpers := s.helpers + {x.job.id}))
  {
    InvSetWorker(s, w, x);
    InvSetHelpers(s.(workers := s.workers[w := x]), s.helpers + {x.job.id});
  }

  lemma InvMeasure(s: State, w: int, size: Option<int>)
    requires Inv(s) && w in s.workers && s.workers[w].at.AtSize?
    ensures Inv(MeasureStep(s, w, size))
  {
    var x := s.workers[w];
    if x.job.total != 0 {
      InvTransfer(s, w, x.(at := AtTransfer));
    } else if size.None? {
      InvSetWorker(s, w, x.(at := Finishing(Failed, None)));
    } else {
      var rows := SetTotal(s.rows, x.job.id, size.value);
      InvSetRows(s, rows);
      InvTransfer(s.(rows := rows), w, x.(job := x.job.(total := size.value), at := AtTransfer));
    }
  }

  lemma InvFinish(s: State, w: int, message: string)
    requires Inv(s) && w in s.workers && s.workers[w].at.Finishing?
    ensures Inv(FinishStep(s, w, message))
  {
    hide AscendingIds;
    var x := s.workers[w];
    var rows := SetStatus(s.rows, x.job.id, x.at.outcome, message, x.at.code);
    InvSetRows(s, rows);
    InvSetWorker(s.(rows := rows), w, x.(at := Leaving));
  }

  lemma InvMove(s: State, a: Action, w: int)
    requires Inv(s) && Enabled(s, a)
    requires (a.LookUpServer? || a.EndTransfer? || a.ReRead? || a.CheckContext?) && a.w == w
    ensures Inv(MoveTo(s, w, NextPosition(s, a)))
  {
    InvSetWorker(s, w, s.workers[w].(at := NextPosition(s, a)));
  }

  function CancelRow(s: State, id: int): State {
    s.(rows := SetStatus(s.rows, id, Cancelled, "cancelled", None))
  }

  lemma InvCancelRow(s: State, id: int)
    requires Inv(s) && s.phase == Up
    ensures Inv(CancelRow(s, id))
  {
    InvSetRows(s, SetStatus(s.rows, id, Cancelled, "cancelled", None));
  }

  lemma InvCancelled(s: State, c: int, id: int)
    requires Inv(s) && s.phase == Up && id < s.nextId
    ensures Inv(CancelRow(NoteCancel(s, id), id).(calls := s.calls[c := CancelWritten(id)]))
  {
    hide Inv, SetStatus;
    InvNoteCancel(s, id);
    InvCancelRow(NoteCancel(s, id), id);
    InvSetCall(CancelRow(NoteCancel(s, id), id), c, CancelWritten(id));
  }

  lemma InvCancelWrite(s: State, c: int)
    requires Inv(s) && c in s.calls && s.calls[c].CancelChecked?
    ensures Inv(CancelWriteStep(s, c))
  {
    hide PassOk, PhaseOk, EntriesOk, InterruptsOk, NoneLost, SetStatus;
    MustBeUp(s);
    var id := s.calls[c].id;
    if id in s.rows { InvCancelled(s, c, id); }
    else { InvSetCalls(s, s.calls - {c}); }
  }

  lemma InvCancelContext(s: State, w: int)
    requires Inv(s) && s.phase == Up
    ensures Inv(CancelContext(s, w))
  {
    if w in s.workers { InvSetWorker(s, w, s.workers[w].(cancelled := true)); }
  }

  lemma InvExit(s: State)
    requires Inv(s) && s.phase == Up && s.sched.Idle?
    ensures Inv(SchedTo(s, Exited))
  {
    NoneLostKept(s, SchedTo(s, Exited));
  }

  lemma InvQuery(s: State)
    requires Inv(s) && s.phase == Up && s.sched.HasFree?
    ensures Inv(QueryQueueStep(s))
  {
    hide Queue, Sorted, NoneLost, EntriesOk, InterruptsOk;
    QueueIsOldestFirst(s.rows, s.sched.free);
    InvSetSched(s, QueryQueueStep(s).sched);
  }

  lemma InvScheduler(s: State, a: Action)
    requires Inv(s) && Enabled(s, a)
    requires a.ReadLimit? || a.CountFree? || a.QueryQueue? || a.EndPass? || a.ExitLoop?
    ensures Inv(Apply(s, a))
  {
    hide ApplyWorker, ApplyCall, ApplyLife, RowsOk, NumbersOk, EntriesOk, InterruptsOk, NoneLost, Queue;
    MustBeUp(s);
    match a
    case ReadLimit(limit) => InvSetSched(s, HasLimit(limit));
    case CountFree => InvSetSched(s, CountFreeStep(s).sched);
    case QueryQueue => InvQuery(s);
    case EndPass => InvSetSched(s, Idle);
    case ExitLoop => InvExit(s);
  }

  lemma InvSetCall(s: State, c: int, call: Call)
    requires Inv(s) && s.phase == Up
    requires call.CancelFound? ==> call.worker < s.nextWorker
    requires call.CancelFound? || call.CancelWritten? || call.DeleteChecked? ==> call.id < s.nextId
    ensures Inv(SetCall(s, c, call))
  {
    InvSetCalls(s, s.calls[c := call]);
  }

  lemma InvCancelLookUp(s: State, c: int)
    requires Inv(s) && c in s.calls && s.calls[c].CancelWritten?
    ensures Inv(CancelLookUpStep(s, c))
  {
    var id := s.calls[c].id;
    if id in s.running { InvSetCall(s, c, CancelFound(id, s.running[id])); }
    else { InvSetCalls(s, s.calls - {c}); }
  }

  lemma InvReads(s: State, c: int, id: int)
    requires Inv(s) && s.phase == Up
    ensures Inv(CancelReadStep(s, c, id)) && Inv(DeleteReadStep(s, c, id)) && Inv(RetryReadStep(s, c, id))
  {
    if id in s.rows {
      InvSetCall(s, c, CancelChecked(id, s.rows[id].status));
      InvSetCall(s, c, DeleteChecked(id));
      InvSetCall(s, c, RetryChecked(s.rows[id]));
    }
  }

  lemma InvCancelFire(s: State, c: int)
    requires Inv(s) && c in s.calls && s.calls[c].CancelFound?
    ensures Inv(EndCall(CancelContext(s, s.calls[c].worker), c))
  {
    InvCancelContext(s, s.calls[c].worker);
    InvSetCalls(CancelContext(s, s.calls[c].worker), s.calls - {c});
  }

  lemma InvRemove(s: State, ids: set<int>)
    requires Inv(s) && s.phase == Up
    ensures Inv(RemoveRows(s, ids))
  {
    InvSetRows(s, s.rows - ids);
  }

  lemma InvDeleteWrite(s: State, c: int)
    requires Inv(s) && c in s.calls && s.calls[c].DeleteChecked?
    ensures Inv(DeleteWriteStep(s, c))
  {
    hide PassOk, EntriesOk, InterruptsOk, NoneLost, Fresh;
    MustBeUp(s);
    InvRemove(s, {s.calls[c].id});
    InvSetCalls(RemoveRows(s, {s.calls[c].id}), s.calls - {c});
  }

  lemma InvRetryCreate(s: State, c: int)
    requires Inv(s) && c in s.calls && s.calls[c].RetryChecked?
    ensures Inv(RetryCreateStep(s, c))
  {
    InvInsert(s, s.calls[c].clone);
    InvSetCalls(Insert(s, s.calls[c].clone), s.calls - {c});
  }

  lemma InvLaunch(s: State)
    requires Inv(s) && s.phase == Recovered
    ensures Inv(s.(phase := Up))
  {
  }

  lemma InvContextDone(s: State)
    requires Inv(s) && s.phase == Up
    ensures Inv(s.(contextDone := true))
  {
    hide PassOk, PhaseOk, Fresh, NoneLost;
    var t := s.(contextDone := true);
    PassKept(s, t);
    PhaseKept(s, t);
    NoneLostKept(s, t);
  }

  lemma InvStart(s: State, a: Action)
    requires Inv(s) && Enabled(s, a)
    requires a.Recover? || a.Launch? || a.Crash? || a.ContextDone?
    ensures Inv(Apply(s, a))
  {
    hide ApplySched, ApplyWorker, ApplyCall, Inv, RecoverStep, StartAll;
    match a
    case Recover => InvRecover(s);
    case Launch => InvLaunch(s);
    case Crash => InvCrash(s);
    case ContextDone => InvContextDone(s);
  }

  lemma InvStopFire(s: State, w: int)
    requires Inv(s) && s.stop.Firing?
    ensures Inv(StopFireStep(s, w))
  {
    InvCancelContext(s, w);
    InvStop(CancelContext(s, w), Firing(s.stop.cancels - {w}));
  }

  lemma InvSchedStep(s: State, a: Action)
    requires Inv(s) && Enabled(s, a) && SchedAction(a)
    ensures Inv(Apply(s, a))
  {
    hide ApplyWorker, ApplyCall, ApplyLife, Inv, MarkNextStep, RegisterStep, RemoveRows, CountFreeStep, QueryQueueStep;
    if a.MarkNext? { InvMarkNext(s); }
    else if a.Register? { InvRegister(s); }
    else if a.Purge? { InvRemove(s, a.ids); }
    else { InvScheduler(s, a); }
  }

  lemma InvFlush(s: State, id: int, transferred: int, speed: int, eta: int)
    requires Inv(s) && id in s.helpers
    ensures Inv(FlushStep(s, id, transferred, speed, eta))
  {
    MustBeUp(s);
    InvSetRows(s, SetProgress(s.rows, id, transferred, speed, eta));
  }

  lemma InvWorkerStep(s: State, a: Action)
    requires Inv(s) && Enabled(s, a) && WorkerAction(a)
    ensures Inv(Apply(s, a))
  {
    hide ApplySched, ApplyCall, ApplyLife, Inv, MeasureStep, FinishStep, UnregisterStep, LeaveStep, FlushStep, NextPosition;
    match a
    case MeasureSource(w, size) => InvMeasure(s, w, size);
    case Finish(w, message) => InvFinish(s, w, message);
    case Unregister(w) => InvUnregister(s, w);
    case Leave(w) => InvLeave(s, w);
    case Flush(id, transferred, speed, eta) => InvFlush(s, id, transferred, speed, eta);
    case LookUpServer(w, _) => InvMove(s, a, w);
    case EndTransfer(w, _) => InvMove(s, a, w);
    case ReRead(w) => InvMove(s, a, w);
    case CheckContext(w) => InvMove(s, a, w);
  }

  predicate CancelAction(a: Action) {
    a.CancelRead? || a.CancelWrite? || a.CancelLookUp? || a.CancelFire?
  }

  lemma InvCancelStep(s: State, a: Action)
    requires Inv(s) && Enabled(s, a) && CancelAction(a)
    ensures Inv(Apply(s, a))
  {
    hide ApplySched, ApplyWorker, ApplyLife, Inv;
    if a.CancelRead? { InvReads(s, a.call, a.id); }
    else if a.CancelWrite? { InvCancelWrite(s, a.call); }
    else if a.CancelLookUp? { InvCancelLookUp(s, a.call); }
    else { InvCancelFire(s, a.call); }
  }

  lemma InvCallStep(s: State, a: Action)
    requires Inv(s) && Enabled(s, a) && CallAction(a) && !CancelAction(a)
    ensures Inv(Apply(s, a))
  {
    hide ApplySched, ApplyWorker, ApplyLife, Inv, Insert, RemoveRows, DeleteReadStep, RetryReadStep, DeleteWriteStep,
         RetryCreateStep;
    match a
    case Create(job) => InvInsert(s, job);
    case DeleteRead(c, id) => InvReads(s, c, id);
    case RetryRead(c, id) => InvReads(s, c, id);
    case DeleteWrite(c) => InvDeleteWrite(s, c);
    case RetryCreate(c) => InvRetryCreate(s, c);
    case DropServer(ids) => InvRemove(s, ids);
  }

  lemma InvLifeStep(s: State, a: Action)
    requires Inv(s) && Enabled(s, a) && LifeAction(a)
    ensures Inv(Apply(s, a))
  {
    hide ApplySched, ApplyWorker, ApplyCall;
    if a.Recover? || a.Launch? || a.Crash? || a.ContextDone? { InvStart(s, a); }
    else if a.StopFire? { InvStopFire(s, a.w); }
    else { InvStop(s, Apply(s, a).stop); }
  }

  /** Every step keeps the invariant, with no assumption on the interleaving. */
  lemma InvStep(s: State, a: Action)
    requires Inv(s) && Enabled(s, a)
    ensures Inv(Apply(s, a))
  {
    hide ApplySched, ApplyWorker, ApplyCall, ApplyLife;
    if SchedAction(a) { InvSchedStep(s, a); }
    else if WorkerAction(a) { InvWorkerStep(s, a); }
    else if CancelAction(a) { InvCancelStep(s, a); }
    else if CallAction(a) { InvCallStep(s, a); }
    else { InvLifeStep(s, a); }
  }

  lemma {:induction false} InvRun(s: State, run: seq<Action>)
    requires Inv(s) && Admissible(s, run)
    ensures Inv(After(s, run))
    decreases |run|
  {
    hide ApplySched, ApplyWorker, ApplyCall, ApplyLife;
    if run != [] {
      InvStep(s, run[0]);
      InvRun(Apply(s, run[0]), run[1..]);
    }
  }
}
