/** The job manager (internal/jobs/manager.go) as a step system.

    One action is one database call or one section under the manager's mutex; any
    number of workers, API calls and helper goroutines interleave freely between
    actions. Database calls succeed unless the row is gone. The transfer, the size
    probe and the kill call return whatever the action's arguments say. */
module JobManager {
  import opened Common
  import opened JobState
  import opened JobTable

  /** Where the scheduler goroutine stands inside `loop` and `schedule`. */
  datatype Scheduler =
    | Idle                                                    // in the select
    | HasLimit(limit: nat)                                    // settings read
    | HasFree(limit: nat, free: nat)                          // slots counted
    | Picking(limit: nat, queue: seq<Job>)                    // at the loop head
    | Marked(limit: nat, job: Job, queue: seq<Job>, cancelWritten: bool) // row written, not registered
    | Exited                                                  // `done` is closed

  /** Where a worker goroutine stands inside `run`. */
  datatype Position =
    | AtServer
    | AtSize
    | AtTransfer
    | AtReRead
    | AtContext
    | Finishing(outcome: Status, code: Option<int>)
    | Leaving      // run has returned; the map entry is still there
    | Ended        // unregistered; the wait group still counts it

  /** A worker with its own copy of the row. `cancelled` is its context's state.
      `cancelWritten` is a history variable: some Cancel has written this job's row
      since this worker's mark. Nothing in a step's guard reads it. */
  datatype Worker = Worker(job: Job, at: Position, cancelled: bool, cancelWritten: bool)

  /** An API call between its database calls. */
  datatype Call =
    | CancelChecked(id: int, read: Status)
    | CancelWritten(id: int)
    | CancelFound(id: int, worker: int)
    | DeleteChecked(id: int)
    | RetryChecked(clone: Job)

  datatype StopCall =
    | NotStopping
    | AwaitLoop(cancels: set<int>)
    | Firing(cancels: set<int>)
    | AwaitWorkers
    | Returned

  datatype Phase = Down | Recovered | Up

  datatype State = State(
    rows: Table, nextId: int,
    phase: Phase, contextDone: bool,
    running: map<int, int>,       // job id to the worker whose context it cancels
    stopping: bool, stop: StopCall,
    sched: Scheduler,
    workers: map<int, Worker>, nextWorker: int,
    calls: map<int, Call>,
    helpers: set<int>)            // job ids whose poll and output goroutines may still flush

  datatype Outcome = TransferError | ExitCode(code: int)

  datatype Action =
    // process life: Start is Recover then Launch
    | Recover | Launch | Crash | ContextDone
    // the scheduler
    | ReadLimit(limit: nat) | CountFree | QueryQueue | MarkNext | Register | EndPass | ExitLoop
    | Purge(ids: set<int>)
    // one worker
    | LookUpServer(w: int, found: bool)
    | MeasureSource(w: int, size: Option<int>)
    | EndTransfer(w: int, outcome: Outcome)
    | ReRead(w: int) | CheckContext(w: int)
    | Finish(w: int, message: string) | Unregister(w: int) | Leave(w: int)
    | Flush(id: int, transferred: int, speed: int, eta: int)
    // API calls
    | Create(job: Job)
    | CancelRead(call: int, id: int) | CancelWrite(call: int)
    | CancelLookUp(call: int) | CancelFire(call: int)
    | DeleteRead(call: int, id: int) | DeleteWrite(call: int)
    | RetryRead(call: int, id: int) | RetryCreate(call: int)
    | DropServer(ids: set<int>)
    // Stop
    | StopBegin | StopLoopEnded | StopFire(w: int) | StopFired | StopReturn

  // ------------------------------------------------------------ shared pieces

  /** A worker is executing `run` until it has removed its map entry. */
  predicate Executing(w: Worker) { !w.at.Ended? }

  /** A worker that may still write its row's status. */
  predicate Live(w: Worker) { !w.at.Leaving? && !w.at.Ended? }

  function MoveTo(s: State, w: int, at: Position): State
    requires w in s.workers
  {
    s.(workers := s.workers[w := s.workers[w].(at := at)])
  }

  /** Jobs are created queued. */
  function Insert(s: State, j: Job): State {
    s.(rows := s.rows[s.nextId := NewRow(j.(status := Queued), s.nextId)], nextId := s.nextId + 1)
  }

  /** Remember in every worker of this job, and in a pending registration of it,
      that a Cancel has written the row. */
  function NoteCancel(s: State, id: int): State {
    s.(workers := map w | w in s.workers ::
                    if s.workers[w].job.id == id then s.workers[w].(cancelWritten := true) else s.workers[w],
       sched := if s.sched.Marked? && s.sched.job.id == id then s.sched.(cancelWritten := true) else s.sched)
  }

  function StartAll(t: Table, next: int): State {
    State(t, next, Down, false, map[], false, NotStopping, Idle, map[], 0, map[], {})
  }

  // ------------------------------------------------------------ guards

  predicate Enabled(s: State, a: Action) {
    match a
    case Recover => s.phase == Down
    case Launch => s.phase == Recovered
    case Crash => true
    case ContextDone => s.phase == Up
    case ReadLimit(_) => s.phase == Up && s.sched.Idle?
    case CountFree => s.sched.HasLimit?
    case QueryQueue => s.sched.HasFree?
    case MarkNext => s.sched.Picking? && s.sched.queue != []
    case Register => s.sched.Marked?
    case EndPass => s.sched.Picking? && s.sched.queue == []
    case ExitLoop => s.phase == Up && s.sched.Idle? && (s.stopping || s.contextDone)
    case Purge(ids) =>
      s.phase == Up && s.sched.Idle? && forall id :: id in ids ==> id in s.rows && Terminal(s.rows[id].status)
    case LookUpServer(w, _) => w in s.workers && s.workers[w].at.AtServer?
    case MeasureSource(w, _) => w in s.workers && s.workers[w].at.AtSize?
    case EndTransfer(w, _) => w in s.workers && s.workers[w].at.AtTransfer?
    case ReRead(w) => w in s.workers && s.workers[w].at.AtReRead?
    case CheckContext(w) => w in s.workers && s.workers[w].at.AtContext?
    case Finish(w, _) => w in s.workers && s.workers[w].at.Finishing?
    case Unregister(w) => w in s.workers && s.workers[w].at.Leaving?
    case Leave(w) => w in s.workers && s.workers[w].at.Ended?
    case Flush(id, _, _, _) => id in s.helpers
    case Create(_) => s.phase == Up
    case CancelRead(c, _) => s.phase == Up && c !in s.calls
    case CancelWrite(c) => c in s.calls && s.calls[c].CancelChecked?
    case CancelLookUp(c) => c in s.calls && s.calls[c].CancelWritten?
    case CancelFire(c) => c in s.calls && s.calls[c].CancelFound?
    case DeleteRead(c, _) => s.phase == Up && c !in s.calls
    case DeleteWrite(c) => c in s.calls && s.calls[c].DeleteChecked?
    case RetryRead(c, _) => s.phase == Up && c !in s.calls
    case RetryCreate(c) => c in s.calls && s.calls[c].RetryChecked?
    case DropServer(ids) => s.phase == Up
    case StopBegin => s.phase == Up && !s.stopping
    case StopLoopEnded => s.stop.AwaitLoop? && s.sched.Exited?
    case StopFire(w) => s.stop.Firing? && w in s.stop.cancels
    case StopFired => s.stop.Firing? && s.stop.cancels == {}
    case StopReturn => s.stop.AwaitWorkers? && s.workers == map[]
  }

  // ------------------------------------------------------------ the scheduler: loop, schedule

  function ReadLimitStep(s: State, limit: nat): State { s.(sched := HasLimit(limit)) }

  function CountFreeStep(s: State): State
    requires s.sched.HasLimit?
  {
    var free := s.sched.limit - |s.running|;
    s.(sched := if free <= 0 || s.stopping then Idle else HasFree(s.sched.limit, free))
  }

  function QueryQueueStep(s: State): State
    requires s.sched.HasFree?
  {
    s.(sched := Picking(s.sched.limit, Queue(s.rows, s.sched.free)))
  }

  /** Check the copy's status, then write the row without a condition. */
  function MarkNextStep(s: State): State
    requires s.sched.Picking? && s.sched.queue != []
  {
    var job, rest := s.sched.queue[0], s.sched.queue[1..];
    if CanTransition(job.status, Running) && job.id in s.rows then
      s.(rows := SetStatus(s.rows, job.id, Running, "", None),
         sched := Marked(s.sched.limit, job.(status := Running), rest, false))
    else
      s.(sched := Picking(s.sched.limit, rest))
  }

  /** Under the mutex: store the cancel function and start the worker, or give up
      the whole pass because Stop has begun. */
  function RegisterStep(s: State): State
    requires s.sched.Marked?
  {
    if s.stopping then s.(sched := Idle)
    else
      s.(running := s.running[s.sched.job.id := s.nextWorker],
         workers := s.workers[s.nextWorker := Worker(s.sched.job, AtServer, false, s.sched.cancelWritten)],
         nextWorker := s.nextWorker + 1,
         sched := Picking(s.sched.limit, s.sched.queue))
  }

  function SchedTo(s: State, at: Scheduler): State { s.(sched := at) }

  /** PurgeJobs and the cascade of a server's deletion remove rows. */
  function RemoveRows(s: State, ids: set<int>): State { s.(rows := s.rows - ids) }

  // ------------------------------------------------------------ a worker: run, finish

  /** Where the steps of `run` that only decide take the worker. */
  function NextPosition(s: State, a: Action): Position {
    match a
    case LookUpServer(w, found) => if found then AtSize else Finishing(Failed, None)
    case EndTransfer(w, outcome) =>
      (match outcome
       case TransferError => AtReRead
       case ExitCode(code) => Finishing(if code != 0 then Failed else Done, Some(code)))
    case ReRead(w) =>
      if w in s.workers && s.workers[w].job.id in s.rows && s.rows[s.workers[w].job.id].status == Cancelled
      then Leaving else AtContext
    case CheckContext(w) =>
      Finishing(if w in s.workers && s.workers[w].cancelled then Interrupted else Failed, None)
    case _ => Ended
  }

  function MeasureStep(s: State, w: int, size: Option<int>): State
    requires w in s.workers
  {
    var worker := s.workers[w];
    if worker.job.total != 0 then
      s.(workers := s.workers[w := worker.(at := AtTransfer)], helpers := s.helpers + {worker.job.id})
    else if size.None? then
      MoveTo(s, w, Finishing(Failed, None))
    else
      s.(rows := SetTotal(s.rows, worker.job.id, size.value),
         workers := s.workers[w := worker.(job := worker.job.(total := size.value), at := AtTransfer)],
         helpers := s.helpers + {worker.job.id})
  }

  /** `finish` checks the worker's own copy, then writes without a condition. */
  function FinishStep(s: State, w: int, message: string): State
    requires w in s.workers && s.workers[w].at.Finishing?
  {
    var worker := s.workers[w];
    s.(rows := if CanTransition(worker.job.status, worker.at.outcome)
               then SetStatus(s.rows, worker.job.id, worker.at.outcome, message, worker.at.code) else s.rows,
       workers := s.workers[w := worker.(at := Leaving)])
  }

  function UnregisterStep(s: State, w: int): State
    requires w in s.workers
  {
    s.(running := s.running - {s.workers[w].job.id}, workers := s.workers[w := s.workers[w].(at := Ended)])
  }

  function LeaveStep(s: State, w: int): State { s.(workers := s.workers - {w}) }

  /** A progress flush from the output scanner or the destination poll. */
  function FlushStep(s: State, id: int, transferred: int, speed: int, eta: int): State {
    s.(rows := SetProgress(s.rows, id, transferred, speed, eta))
  }

  // ------------------------------------------------------------ API calls

  function SetCall(s: State, c: int, call: Call): State { s.(calls := s.calls[c := call]) }

  function EndCall(s: State, c: int): State { s.(calls := s.calls - {c}) }

  function CancelReadStep(s: State, c: int, id: int): State {
    if id in s.rows && CanTransition(s.rows[id].status, Cancelled)
    then SetCall(s, c, CancelChecked(id, s.rows[id].status)) else s
  }

  function CancelWriteStep(s: State, c: int): State
    requires c in s.calls && s.calls[c].CancelChecked?
  {
    var id := s.calls[c].id;
    if id in s.rows then
      NoteCancel(s, id).(rows := SetStatus(s.rows, id, Cancelled, "cancelled", None),
                         calls := s.calls[c := CancelWritten(id)])
    else EndCall(s, c)
  }

  function CancelLookUpStep(s: State, c: int): State
    requires c in s.calls && s.calls[c].CancelWritten?
  {
    var id := s.calls[c].id;
    if id in s.running then SetCall(s, c, CancelFound(id, s.running[id])) else EndCall(s, c)
  }

  /** Cancel a context. Its worker may be gone by now. */
  function CancelContext(s: State, w: int): State {
    s.(workers := if w in s.workers then s.workers[w := s.workers[w].(cancelled := true)] else s.workers)
  }

  function DeleteReadStep(s: State, c: int, id: int): State {
    if id in s.rows && Terminal(s.rows[id].status) then SetCall(s, c, DeleteChecked(id)) else s
  }

  function DeleteWriteStep(s: State, c: int): State
    requires c in s.calls && s.calls[c].DeleteChecked?
  {
    EndCall(RemoveRows(s, {s.calls[c].id}), c)
  }

  function RetryReadStep(s: State, c: int, id: int): State {
    if id in s.rows && Terminal(s.rows[id].status) then SetCall(s, c, RetryChecked(s.rows[id])) else s
  }

  function RetryCreateStep(s: State, c: int): State
    requires c in s.calls && s.calls[c].RetryChecked?
  {
    EndCall(Insert(s, s.calls[c].clone), c)
  }

  // ------------------------------------------------------------ Start and Stop

  function RecoverStep(s: State): State { s.(rows := InterruptRunning(s.rows), phase := Recovered) }

  function StopBeginStep(s: State): State { s.(stopping := true, stop := AwaitLoop(s.running.Values)) }

  function StopFireStep(s: State, w: int): State
    requires s.stop.Firing?
  {
    CancelContext(s, w).(stop := Firing(s.stop.cancels - {w}))
  }

  // ------------------------------------------------------------ whose step it is

  predicate SchedAction(a: Action) {
    a.ReadLimit? || a.CountFree? || a.QueryQueue? || a.MarkNext? || a.Register? || a.EndPass? ||
    a.ExitLoop? || a.Purge?
  }

  predicate WorkerAction(a: Action) {
    a.LookUpServer? || a.MeasureSource? || a.EndTransfer? || a.ReRead? || a.CheckContext? ||
    a.Finish? || a.Unregister? || a.Leave? || a.Flush?
  }

  predicate CallAction(a: Action) {
    a.Create? || a.CancelRead? || a.CancelWrite? || a.CancelLookUp? || a.CancelFire? ||
    a.DeleteRead? || a.DeleteWrite? || a.RetryRead? || a.RetryCreate? || a.DropServer?
  }

  predicate LifeAction(a: Action) {
    !SchedAction(a) && !WorkerAction(a) && !CallAction(a)
  }

  // ------------------------------------------------------------ the steps

  function ApplySched(s: State, a: Action): State
    requires Enabled(s, a) && SchedAction(a)
  {
    match a
    case ReadLimit(limit) => ReadLimitStep(s, limit)
    case CountFree => CountFreeStep(s)
    case QueryQueue => QueryQueueStep(s)
    case MarkNext => MarkNextStep(s)
    case Register => RegisterStep(s)
    case EndPass => SchedTo(s, Idle)
    case ExitLoop => SchedTo(s, Exited)
    case Purge(ids) => RemoveRows(s, ids)
  }

  function ApplyWorker(s: State, a: Action): State
    requires Enabled(s, a) && WorkerAction(a)
  {
    match a
    case LookUpServer(w, _) => MoveTo(s, w, NextPosition(s, a))
    case MeasureSource(w, size) => MeasureStep(s, w, size)
    case EndTransfer(w, _) => MoveTo(s, w, NextPosition(s, a))
    case ReRead(w) => MoveTo(s, w, NextPosition(s, a))
    case CheckContext(w) => MoveTo(s, w, NextPosition(s, a))
    case Finish(w, message) => FinishStep(s, w, message)
    case Unregister(w) => UnregisterStep(s, w)
    case Leave(w) => LeaveStep(s, w)
    case Flush(id, transferred, speed, eta) => FlushStep(s, id, transferred, speed, eta)
  }

  function ApplyCall(s: State, a: Action): State
    requires Enabled(s, a) && CallAction(a)
  {
    match a
    case Create(job) => Insert(s, job)
    case CancelRead(c, id) => CancelReadStep(s, c, id)
    case CancelWrite(c) => CancelWriteStep(s, c)
    case CancelLookUp(c) => CancelLookUpStep(s, c)
    case CancelFire(c) => EndCall(CancelContext(s, s.calls[c].worker), c)
    case DeleteRead(c, id) => DeleteReadStep(s, c, id)
    case DeleteWrite(c) => DeleteWriteStep(s, c)
    case RetryRead(c, id) => RetryReadStep(s, c, id)
    case RetryCreate(c) => RetryCreateStep(s, c)
    case DropServer(ids) => RemoveRows(s, ids)
  }

  function ApplyLife(s: State, a: Action): State
    requires Enabled(s, a) && LifeAction(a)
  {
    match a
    case Recover => RecoverStep(s)
    case Launch => s.(phase := Up)
    case Crash => StartAll(s.rows, s.nextId)
    case ContextDone => s.(contextDone := true)
    case StopBegin => StopBeginStep(s)
    case StopLoopEnded => s.(stop := Firing(s.stop.cancels))
    case StopFire(w) => StopFireStep(s, w)
    case StopFired => s.(stop := AwaitWorkers)
    case StopReturn => s.(stop := Returned)
  }

  function Apply(s: State, a: Action): State
    requires Enabled(s, a)
  {
    if SchedAction(a) then ApplySched(s, a)
    else if WorkerAction(a) then ApplyWorker(s, a)
    else if CallAction(a) then ApplyCall(s, a)
    else ApplyLife(s, a)
  }

  // ------------------------------------------------------------ runs

  /** Every action is enabled when its turn comes. */
  ghost predicate Admissible(s: State, run: seq<Action>)
    decreases |run|
  {
    run == [] || (Enabled(s, run[0]) && Admissible(Apply(s, run[0]), run[1..]))
  }

  ghost function After(s: State, run: seq<Action>): State
    requires Admissible(s, run)
    decreases |run|
  {
    if run == [] then s else After(Apply(s, run[0]), run[1..])
  }

  /** The process lives on through the run. */
  predicate NoCrash(run: seq<Action>) {
    forall i :: 0 <= i < |run| ==> !run[i].Crash?
  }

  /** A database as the migration leaves it or an earlier process left it: keyed by
      ids below the next AUTOINCREMENT value, and with no paused row. */
  ghost predicate Fresh(t: Table, next: int) {
    Keyed(t) && forall id :: id in t ==> id < next && t[id].status != Paused
  }

  ghost predicate Initial(s: State) {
    s == StartAll(s.rows, s.nextId) && Fresh(s.rows, s.nextId)
  }
}
