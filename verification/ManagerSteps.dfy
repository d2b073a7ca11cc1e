/** What the steps of each kind leave alone, whatever else they do. */
module ManagerSteps {
  import opened Common
  import opened JobState
  import opened JobTable
  import opened JobManager

  /** The only steps that touch the table. */
  predicate WritesRows(a: Action) {
    a.MarkNext? || a.MeasureSource? || a.Finish? || a.Flush? || a.Create? || a.RetryCreate? ||
    a.CancelWrite? || a.DeleteWrite? || a.Purge? || a.DropServer? || a.Recover?
  }

  predicate OfWorker(a: Action, w: int) {
    match a
    case LookUpServer(v, _) => v == w
    case MeasureSource(v, _) => v == w
    case EndTransfer(v, _) => v == w
    case ReRead(v) => v == w
    case CheckContext(v) => v == w
    case Finish(v, _) => v == w
    case Unregister(v) => v == w
    case Leave(v) => v == w
    case _ => false
  }

  predicate OfCall(a: Action, c: int) {
    match a
    case CancelRead(d, _) => d == c
    case CancelWrite(d) => d == c
    case CancelLookUp(d) => d == c
    case CancelFire(d) => d == c
    case DeleteRead(d, _) => d == c
    case DeleteWrite(d) => d == c
    case RetryRead(d, _) => d == c
    case RetryCreate(d) => d == c
    case _ => false
  }

  predicate OfStop(a: Action) {
    a.StopBegin? || a.StopLoopEnded? || a.StopFire? || a.StopFired? || a.StopReturn?
  }

  /** The scheduler's place, up to the history flag. */
  predicate SamePlace(at: Scheduler, after: Scheduler) {
    if at.Marked? then
      after.Marked? && after.limit == at.limit && after.job == at.job && after.queue == at.queue
    else after == at
  }

  /** A worker, up to its context and the history flag. */
  predicate SameWork(x: Worker, y: Worker) { y.at == x.at && y.job == x.job }

  predicate SameCall(s: State, t: State, c: int) {
    if c in s.calls then c in t.calls && t.calls[c] == s.calls[c] else c !in t.calls
  }

  // ------------------------------------------------------------ the scheduler

  /** Its own place, rows that exist, and on a registration the map and a worker. */
  ghost predicate SchedFrame(s: State, a: Action, t: State) {
    && t.phase == s.phase && t.contextDone == s.contextDone && t.calls == s.calls && t.helpers == s.helpers
    && t.stop == s.stop && t.stopping == s.stopping && t.nextId == s.nextId && t.rows.Keys <= s.rows.Keys
    && (!WritesRows(a) ==> t.rows == s.rows)
    && (if a.Register? && s.sched.Marked? then t == RegisterStep(s)
        else t.workers == s.workers && t.running == s.running && t.nextWorker == s.nextWorker)
  }

  lemma StatusKeepsKeys(t: Table, id: int, status: Status, message: string, code: Option<int>)
    ensures SetStatus(t, id, status, message, code).Keys == t.Keys
  {
    hide WithStatus;
  }

  lemma MarkFrames(s: State)
    requires s.sched.Picking? && s.sched.queue != []
    ensures SchedFrame(s, MarkNext, MarkNextStep(s))
  {
    hide SetStatus, CanTransition, RegisterStep;
    var job := s.sched.queue[0];
    if CanTransition(job.status, Running) && job.id in s.rows { StatusKeepsKeys(s.rows, job.id, Running, "", None); }
  }

  lemma RegisterFrames(s: State)
    requires s.sched.Marked?
    ensures SchedFrame(s, Register, RegisterStep(s))
  {
  }

  lemma CountFrames(s: State)
    requires s.sched.HasLimit?
    ensures SchedFrame(s, CountFree, CountFreeStep(s))
  {
    hide RegisterStep;
  }

  lemma QueryFrames(s: State)
    requires s.sched.HasFree?
    ensures SchedFrame(s, QueryQueue, QueryQueueStep(s))
  {
    hide Queue, RegisterStep;
  }

  lemma PurgeFrames(s: State, ids: set<int>)
    ensures SchedFrame(s, Purge(ids), RemoveRows(s, ids))
  {
    hide RegisterStep;
  }

  lemma PlaceFrames(s: State, a: Action, at: Scheduler)
    requires !a.Register?
    ensures SchedFrame(s, a, SchedTo(s, at))
  {
    hide RegisterStep;
  }

  lemma LimitFrames(s: State, limit: nat)
    ensures SchedFrame(s, ReadLimit(limit), ReadLimitStep(s, limit))
  {
    hide RegisterStep;
  }

  lemma SchedFrames(s: State, a: Action)
    requires Enabled(s, a) && SchedAction(a)
    ensures SchedFrame(s, a, Apply(s, a))
  {
    hide ApplyWorker, ApplyCall, ApplyLife, SchedFrame;
    hide MarkNextStep, RegisterStep, CountFreeStep, QueryQueueStep, RemoveRows, SchedTo, ReadLimitStep;
    match a
    case MarkNext => MarkFrames(s);
    case Register => RegisterFrames(s);
    case CountFree => CountFrames(s);
    case QueryQueue => QueryFrames(s);
    case Purge(ids) => PurgeFrames(s, ids);
    case ReadLimit(limit) => LimitFrames(s, limit);
    case EndPass => PlaceFrames(s, a, Idle);
    case ExitLoop => PlaceFrames(s, a, Exited);
  }

  // ------------------------------------------------------------ a worker

  /** Its own place and copy, its row, and on its exit its entry and itself. */
  ghost predicate WorkerFrame(s: State, a: Action, t: State) {
    && t.phase == s.phase && t.contextDone == s.contextDone && t.sched == s.sched && t.calls == s.calls
    && t.stop == s.stop && t.stopping == s.stopping && t.nextId == s.nextId && t.nextWorker == s.nextWorker
    && t.rows.Keys <= s.rows.Keys && (!WritesRows(a) ==> t.rows == s.rows)
    && t.running.Keys <= s.running.Keys && (!a.Unregister? ==> t.running == s.running)
    && t.workers.Keys <= s.workers.Keys && (!a.Leave? ==> t.workers.Keys == s.workers.Keys)
    && (forall v :: v in s.workers && !OfWorker(a, v) ==> v in t.workers && t.workers[v] == s.workers[v])
    && (forall v :: v in t.workers ==> t.workers[v].cancelled == s.workers[v].cancelled
                                       && t.workers[v].job.id == s.workers[v].job.id)
  }

  lemma SetWorkerFrames(s: State, a: Action, w: int, x: Worker, rows: Table, helpers: set<int>)
    requires w in s.workers && OfWorker(a, w) && !a.Leave? && !a.Unregister?
    requires x.cancelled == s.workers[w].cancelled && x.job.id == s.workers[w].job.id
    requires rows.Keys <= s.rows.Keys && (!WritesRows(a) ==> rows == s.rows)
    ensures WorkerFrame(s, a, s.(rows := rows, workers := s.workers[w := x], helpers := helpers))
  {
  }

  lemma MoveFrames(s: State, a: Action, w: int, at: Position)
    requires w in s.workers && OfWorker(a, w) && !a.Leave? && !a.Unregister?
    ensures WorkerFrame(s, a, MoveTo(s, w, at))
  {
    hide WorkerFrame, OfWorker;
    SetWorkerFrames(s, a, w, s.workers[w].(at := at), s.rows, s.helpers);
  }

  lemma TotalKeepsKeys(t: Table, id: int, total: int)
    ensures SetTotal(t, id, total).Keys == t.Keys
  {
  }

  lemma MeasureFrames(s: State, w: int, size: Option<int>)
    requires w in s.workers
    ensures WorkerFrame(s, MeasureSource(w, size), MeasureStep(s, w, size))
  {
    hide WorkerFrame, SetTotal, MoveTo;
    var a, x := MeasureSource(w, size), s.workers[w];
    var helpers := s.helpers + {x.job.id};
    if x.job.total != 0 {
      SetWorkerFrames(s, a, w, x.(at := AtTransfer), s.rows, helpers);
    } else if size.None? {
      MoveFrames(s, a, w, Finishing(Failed, None));
    } else {
      TotalKeepsKeys(s.rows, x.job.id, size.value);
      SetWorkerFrames(s, a, w, x.(job := x.job.(total := size.value), at := AtTransfer),
                      SetTotal(s.rows, x.job.id, size.value), helpers);
    }
  }

  lemma FinishFrames(s: State, w: int, message: string)
    requires w in s.workers && s.workers[w].at.Finishing?
    ensures WorkerFrame(s, Finish(w, message), FinishStep(s, w, message))
  {
    hide WorkerFrame, WithStatus, CanTransition;
    var t := FinishStep(s, w, message);
    SetWorkerFrames(s, Finish(w, message), w, t.workers[w], t.rows, s.helpers);
  }

  lemma UnregisterFrames(s: State, w: int)
    requires w in s.workers
    ensures WorkerFrame(s, Unregister(w), UnregisterStep(s, w))
  {
  }

  lemma LeaveFrames(s: State, w: int)
    ensures WorkerFrame(s, Leave(w), LeaveStep(s, w))
  {
  }

  lemma FlushFrames(s: State, id: int, transferred: int, speed: int, eta: int)
    ensures WorkerFrame(s, Flush(id, transferred, speed, eta), FlushStep(s, id, transferred, speed, eta))
  {
  }

  lemma DecideFrames(s: State, a: Action)
    requires Enabled(s, a) && (a.LookUpServer? || a.EndTransfer? || a.ReRead? || a.CheckContext?)
    ensures WorkerFrame(s, a, Apply(s, a))
  {
    hide ApplySched, ApplyCall, ApplyLife, WorkerFrame, MoveTo, NextPosition;
    MoveFrames(s, a, a.w, NextPosition(s, a));
  }

  lemma WorkerFrames(s: State, a: Action)
    requires Enabled(s, a) && WorkerAction(a)
    ensures WorkerFrame(s, a, Apply(s, a))
  {
    hide ApplySched, ApplyCall, ApplyLife, WorkerFrame;
    hide MeasureStep, FinishStep, UnregisterStep, LeaveStep, FlushStep;
    match a
    case MeasureSource(w, size) => MeasureFrames(s, w, size);
    case Finish(w, message) => FinishFrames(s, w, message);
    case Unregister(w) => UnregisterFrames(s, w);
    case Leave(w) => LeaveFrames(s, w);
    case Flush(id, transferred, speed, eta) => FlushFrames(s, id, transferred, speed, eta);
    case _ => DecideFrames(s, a);
  }

  // ------------------------------------------------------------ an API call

  /** Its own place, rows, contexts, and the history flags. */
  ghost predicate CallFrame(s: State, a: Action, t: State) {
    && t.phase == s.phase && t.contextDone == s.contextDone && t.running == s.running && t.helpers == s.helpers
    && t.stop == s.stop && t.stopping == s.stopping && t.nextWorker == s.nextWorker && s.nextId <= t.nextId
    && (forall id :: id in t.rows && id < s.nextId ==> id in s.rows)
    && (!WritesRows(a) ==> t.rows == s.rows && t.nextId == s.nextId)
    && SamePlace(s.sched, t.sched) && (!a.CancelWrite? ==> t.sched == s.sched)
    && t.workers.Keys == s.workers.Keys && (forall w :: w in s.workers ==> SameWork(s.workers[w], t.workers[w]))
    && (!a.CancelFire? ==> forall w :: w in s.workers ==> t.workers[w].cancelled == s.workers[w].cancelled)
    && (!a.CancelWrite? && !a.CancelFire? ==> t.workers == s.workers)
    && (forall c :: !OfCall(a, c) ==> SameCall(s, t, c))
  }

  lemma CreateFrames(s: State, job: Job)
    ensures CallFrame(s, Create(job), Insert(s, job))
  {
  }

  lemma SetCallFrames(s: State, a: Action, c: int, call: Call)
    requires OfCall(a, c)
    ensures CallFrame(s, a, SetCall(s, c, call))
  {
  }

  lemma EndCallFrames(s: State, a: Action, c: int)
    requires OfCall(a, c)
    ensures CallFrame(s, a, EndCall(s, c))
  {
  }

  lemma SameFrames(s: State, a: Action)
    requires CallAction(a)
    ensures CallFrame(s, a, s)
  {
  }

  lemma ReadFrames(s: State, c: int, id: int)
    ensures CallFrame(s, CancelRead(c, id), CancelReadStep(s, c, id))
    ensures CallFrame(s, DeleteRead(c, id), DeleteReadStep(s, c, id))
    ensures CallFrame(s, RetryRead(c, id), RetryReadStep(s, c, id))
  {
    hide CallFrame, CanTransition, Terminal, SetCall;
    SameFrames(s, CancelRead(c, id));
    SameFrames(s, DeleteRead(c, id));
    SameFrames(s, RetryRead(c, id));
    if id in s.rows {
      SetCallFrames(s, CancelRead(c, id), c, CancelChecked(id, s.rows[id].status));
      SetCallFrames(s, DeleteRead(c, id), c, DeleteChecked(id));
      SetCallFrames(s, RetryRead(c, id), c, RetryChecked(s.rows[id]));
    }
  }

  lemma CancelWriteFrames(s: State, c: int)
    requires c in s.calls && s.calls[c].CancelChecked?
    ensures CallFrame(s, CancelWrite(c), CancelWriteStep(s, c))
  {
    hide SetStatus;
    StatusKeepsKeys(s.rows, s.calls[c].id, Cancelled, "cancelled", None);
  }

  lemma LookUpFrames(s: State, c: int)
    requires c in s.calls && s.calls[c].CancelWritten?
    ensures CallFrame(s, CancelLookUp(c), CancelLookUpStep(s, c))
  {
    hide CallFrame, SetCall, EndCall;
    var id := s.calls[c].id;
    if id in s.running { SetCallFrames(s, CancelLookUp(c), c, CancelFound(id, s.running[id])); }
    else { EndCallFrames(s, CancelLookUp(c), c); }
  }

  lemma FireFrames(s: State, c: int)
    requires c in s.calls && s.calls[c].CancelFound?
    ensures CallFrame(s, CancelFire(c), EndCall(CancelContext(s, s.calls[c].worker), c))
  {
  }

  lemma DeleteWriteFrames(s: State, c: int)
    requires c in s.calls && s.calls[c].DeleteChecked?
    ensures CallFrame(s, DeleteWrite(c), DeleteWriteStep(s, c))
  {
  }

  lemma RetryCreateFrames(s: State, c: int)
    requires c in s.calls && s.calls[c].RetryChecked?
    ensures CallFrame(s, RetryCreate(c), RetryCreateStep(s, c))
  {
  }

  lemma DropFrames(s: State, ids: set<int>)
    ensures CallFrame(s, DropServer(ids), RemoveRows(s, ids))
  {
  }

  lemma CancelFrames(s: State, a: Action)
    requires Enabled(s, a) && (a.CancelRead? || a.CancelWrite? || a.CancelLookUp? || a.CancelFire?)
    ensures CallFrame(s, a, Apply(s, a))
  {
    hide ApplySched, ApplyWorker, ApplyLife, CallFrame;
    hide CancelReadStep, CancelWriteStep, CancelLookUpStep, CancelContext, EndCall;
    match a
    case CancelRead(c, id) => ReadFrames(s, c, id);
    case CancelWrite(c) => CancelWriteFrames(s, c);
    case CancelLookUp(c) => LookUpFrames(s, c);
    case CancelFire(c) => FireFrames(s, c);
  }

  lemma CallFrames(s: State, a: Action)
    requires Enabled(s, a) && CallAction(a)
    ensures CallFrame(s, a, Apply(s, a))
  {
    hide ApplySched, ApplyWorker, ApplyLife, CallFrame;
    hide Insert, DeleteReadStep, DeleteWriteStep, RetryReadStep, RetryCreateStep, RemoveRows;
    match a
    case Create(job) => CreateFrames(s, job);
    case DeleteRead(c, id) => ReadFrames(s, c, id);
    case DeleteWrite(c) => DeleteWriteFrames(s, c);
    case RetryRead(c, id) => ReadFrames(s, c, id);
    case RetryCreate(c) => RetryCreateFrames(s, c);
    case DropServer(ids) => DropFrames(s, ids);
    case _ => CancelFrames(s, a);
  }

  // ------------------------------------------------------------ Start, Stop, and the process

  ghost predicate LifeFrame(s: State, a: Action, t: State) {
    && t.calls == s.calls && t.running == s.running && t.helpers == s.helpers && t.sched == s.sched
    && t.nextId == s.nextId && t.nextWorker == s.nextWorker
    && t.rows.Keys == s.rows.Keys && (!WritesRows(a) ==> t.rows == s.rows)
    && t.workers.Keys == s.workers.Keys && (forall w :: w in s.workers ==> SameWork(s.workers[w], t.workers[w]))
    && (!a.StopFire? ==> t.workers == s.workers)
    && (s.stopping ==> t.stopping) && (!OfStop(a) ==> t.stop == s.stop && t.stopping == s.stopping)
    && (!a.Recover? && !a.Launch? ==> t.phase == s.phase)
  }

  lemma LifeFrames(s: State, a: Action)
    requires Enabled(s, a) && LifeAction(a) && !a.Crash?
    ensures LifeFrame(s, a, Apply(s, a))
  {
    hide ApplySched, ApplyWorker, ApplyCall;
  }
}
