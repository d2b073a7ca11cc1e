/** First come, first served: what a waiting job can be overtaken by, and for how long. */
module ManagerOrder {
  import opened Common
  import opened JobState
  import opened JobTable
  import opened JobManager
  import opened ManagerInvariants
  import opened ManagerExclusion
  import opened ManagerRows
  import opened ManagerSteps

  ghost predicate Waits(s: State, id: int) {
    id in s.rows && Runnable(s.rows[id].status)
  }

  /** The row stays runnable through the whole run. */
  ghost predicate KeepsWaiting(s: State, run: seq<Action>, id: int)
    requires Admissible(s, run)
    decreases |run|
  {
    Waits(s, id) && (run == [] || KeepsWaiting(Apply(s, run[0]), run[1..], id))
  }

  /** The pass either still holds the waiting job or took only older ones. */
  predicate InLine(q: seq<Job>, id: int) {
    Listed(q, id) || forall i :: 0 <= i < |q| ==> q[i].id < id
  }

  predicate HasPlace(s: State, id: int) {
    match s.sched
    case Picking(_, q) => InLine(q, id)
    case Marked(_, _, q, _) => InLine(q, id)
    case _ => true
  }

  /** The step writes a row to running. */
  predicate Starts(s: State, a: Action) {
    a.MarkNext? && s.sched.Picking? && s.sched.queue != [] && s.sched.queue[0].id in s.rows
  }

  lemma InLineTail(q: seq<Job>, id: int)
    requires q != [] && InLine(q, id) && q[0].id != id
    ensures InLine(q[1..], id)
  {
    if Listed(q, id) {
      var i :| 0 <= i < |q| && q[i].id == id;
      assert q[1..][i - 1] == q[i];
    }
  }

  /** Marking a waiting row ends its wait; and the pass holds ids in ascending order. */
  lemma NotTheHead(s: State, id: int)
    requires Inv(s) && Enabled(s, MarkNext) && Waits(s, id) && Waits(Apply(s, MarkNext), id)
    ensures s.sched.queue[0].id != id && AscendingIds(s.sched.queue)
  {
    hide ApplyWorker, ApplyCall, ApplyLife, NoneLost, PhaseOk, NumbersOk, EntriesOk, InterruptsOk, RowsOk;
  }

  lemma PlaceMarkNext(s: State, id: int)
    requires Inv(s) && Enabled(s, MarkNext) && HasPlace(s, id)
    requires Waits(s, id) && Waits(Apply(s, MarkNext), id)
    ensures HasPlace(Apply(s, MarkNext), id)
    ensures Starts(s, MarkNext) ==> s.sched.queue[0].id < id
  {
    hide ApplyWorker, ApplyCall, ApplyLife, Inv;
    var q := s.sched.queue;
    NotTheHead(s, id);
    InLineTail(q, id);
    if Listed(q, id) {
      var i :| 0 <= i < |q| && q[i].id == id;
    }
  }

  lemma QueueHasPlace(t: Table, limit: nat, id: int)
    requires Keyed(t) && id in RunnableIds(t)
    ensures InLine(Queue(t, limit), id)
  {
    QueueIsOldestFirst(t, limit);
  }

  lemma PlaceQuery(s: State, id: int)
    requires Inv(s) && Enabled(s, QueryQueue) && Waits(s, id)
    ensures HasPlace(Apply(s, QueryQueue), id)
  {
    hide ApplyWorker, ApplyCall, ApplyLife;
    QueueHasPlace(s.rows, s.sched.free, id);
  }

  lemma PlaceSched(s: State, a: Action, id: int)
    requires Enabled(s, a) && SchedAction(a) && !a.MarkNext? && !a.QueryQueue? && HasPlace(s, id)
    ensures HasPlace(Apply(s, a), id)
  {
    hide ApplyWorker, ApplyCall, ApplyLife;
  }

  /** While a job keeps waiting it keeps its place, and only older jobs are started. */
  lemma PlaceStep(s: State, a: Action, id: int)
    requires Inv(s) && Enabled(s, a) && !a.Crash? && HasPlace(s, id)
    requires Waits(s, id) && Waits(Apply(s, a), id)
    ensures HasPlace(Apply(s, a), id)
    ensures Starts(s, a) ==> s.sched.queue[0].id < id
  {
    hide Apply, Enabled, Inv, InLine;
    if a.MarkNext? { PlaceMarkNext(s, id); }
    else if a.QueryQueue? { PlaceQuery(s, id); }
    else if SchedAction(a) { PlaceSched(s, a, id); }
    else if WorkerAction(a) { WorkerFrames(s, a); }
    else if CallAction(a) { CallFrames(s, a); }
    else { LifeFrames(s, a); }
  }

  /** No overtaking: from any state in which the scheduler is between passes, no job newer
      than one that keeps waiting is started. */
  lemma {:induction false} NoOvertaking(s: State, run: seq<Action>, id: int, next: Action)
    requires Inv(s) && HasPlace(s, id) && Admissible(s, run) && NoCrash(run) && KeepsWaiting(s, run, id)
    requires var t := After(s, run); Enabled(t, next) && Starts(t, next) && Waits(Apply(t, next), id)
    ensures After(s, run).sched.queue[0].id < id
    decreases |run|
  {
    hide ApplySched, ApplyWorker, ApplyCall, ApplyLife;
    if run == [] {
      PlaceStep(s, next, id);
    } else {
      PlaceStep(s, run[0], id);
      InvStep(s, run[0]);
      NoOvertaking(Apply(s, run[0]), run[1..], id, next);
    }
  }

  lemma ReachableInv(s: State, past: seq<Action>)
    requires Initial(s) && Admissible(s, past)
    ensures Inv(After(s, past))
  {
    hide ApplySched, ApplyWorker, ApplyCall, ApplyLife;
    InitialInv(s);
    InvRun(s, past);
  }

  /** A job that has just been created has its place: whatever is queued is older. */
  lemma NewJobHasPlace(s: State, a: Action)
    requires Inv(s) && Enabled(s, a) && (a.Create? || a.RetryCreate?)
    ensures var t := Apply(s, a); HasPlace(t, s.nextId) && Waits(t, s.nextId)
  {
    hide ApplySched, ApplyWorker, ApplyLife;
  }

  /** So no job created after it is started before it, from its creation at any point of any
      run on, for as long as it waits. */
  lemma CreatedJobIsNotOvertaken(s: State, past: seq<Action>, a: Action, run: seq<Action>, next: Action)
    requires Initial(s) && Admissible(s, past)
    requires var t := After(s, past); Enabled(t, a) && (a.Create? || a.RetryCreate?)
    requires var t := After(s, past); var u := Apply(t, a);
             Admissible(u, run) && NoCrash(run) && KeepsWaiting(u, run, t.nextId)
    requires var t := After(s, past); var v := After(Apply(t, a), run);
             Enabled(v, next) && Starts(v, next) && Waits(Apply(v, next), t.nextId)
    ensures var t := After(s, past); After(Apply(t, a), run).sched.queue[0].id < t.nextId
  {
    hide ApplySched, ApplyWorker, ApplyLife;
    var t := After(s, past);
    ReachableInv(s, past);
    InvStep(t, a);
    NewJobHasPlace(t, a);
    NoOvertaking(Apply(t, a), run, t.nextId, next);
  }

  /** And none newer than a row that has been waiting since before the process began. */
  lemma OldJobIsNotOvertaken(s: State, run: seq<Action>, id: int, next: Action)
    requires Initial(s) && Admissible(s, run) && NoCrash(run) && KeepsWaiting(s, run, id)
    requires var t := After(s, run); Enabled(t, next) && Starts(t, next) && Waits(Apply(t, next), id)
    ensures After(s, run).sched.queue[0].id < id
  {
    hide ApplySched, ApplyWorker, ApplyCall, ApplyLife;
    InitialInv(s);
    NoOvertaking(s, run, id, next);
  }

  // ------------------------------------------------------------ how long it can take

  /** The waiting jobs that go first. */
  ghost function Older(s: State, id: int): set<int> {
    set k | k in s.rows && k < id && Runnable(s.rows[k].status)
  }

  ghost function CountStarts(s: State, run: seq<Action>): nat
    requires Admissible(s, run)
    decreases |run|
  {
    if run == [] then 0
    else (if Starts(s, run[0]) then 1 else 0) + CountStarts(Apply(s, run[0]), run[1..])
  }

  lemma QuietWaiters(s: State, a: Action, k: int)
    requires Inv(s) && Enabled(s, a) && !a.MarkNext? && !a.CancelWrite? && !a.Finish? && !a.Recover?
    requires k < s.nextId && Waits(Apply(s, a), k)
    ensures Waits(s, k)
  {
    hide Apply, Enabled, Inv;
    IdsStep(s, a);
    StatusesStand(s, a);
  }

  /** The row that a finished worker writes may be waiting afterwards. */
  lemma FinishWaiters(s: State, w: int, message: string, k: int)
    requires Inv(s) && Enabled(s, Finish(w, message))
    requires Waits(Apply(s, Finish(w, message)), k) && !Waits(s, k)
    ensures k == s.workers[w].job.id && k in s.rows && s.workers[w].at.outcome == Interrupted
  {
    hide ApplySched, ApplyCall, ApplyLife;
  }

  lemma CancelWaiters(s: State, c: int)
    requires Enabled(s, CancelWrite(c))
    ensures forall k :: Waits(Apply(s, CancelWrite(c)), k) ==> Waits(s, k)
  {
    hide ApplySched, ApplyWorker, ApplyLife;
  }

  lemma MarkWaiters(s: State)
    requires PassOk(s) && Enabled(s, MarkNext)
    ensures forall k :: Waits(Apply(s, MarkNext), k) ==> Waits(s, k)
    ensures Starts(s, MarkNext) ==> !Waits(Apply(s, MarkNext), s.sched.queue[0].id)
  {
    hide ApplyWorker, ApplyCall, ApplyLife;
  }

  /** A row is started that no longer waits: the mark's copy was stale. */
  predicate StaleStart(s: State, a: Action) {
    Starts(s, a) && !Runnable(s.rows[s.sched.queue[0].id].status)
  }

  /** While the scheduler lives, an interruption is recorded over an older row that does not
      wait, so that it waits again. */
  predicate Rejoins(s: State, a: Action, id: int) {
    && a.Finish? && !s.sched.Exited? && a.w in s.workers
    && s.workers[a.w].at.Finishing? && s.workers[a.w].at.outcome == Interrupted
    && s.workers[a.w].job.id in s.rows && s.workers[a.w].job.id < id
    && !Runnable(s.rows[s.workers[a.w].job.id].status)
  }

  function Extra(s: State, a: Action, id: int): nat { if StaleStart(s, a) || Rejoins(s, a, id) then 1 else 0 }

  ghost function CountExtra(s: State, run: seq<Action>, id: int): nat
    requires Admissible(s, run)
    decreases |run|
  {
    if run == [] then 0 else Extra(s, run[0], id) + CountExtra(Apply(s, run[0]), run[1..], id)
  }

  /** While the scheduler is alive no older row comes back to the queue, except so. */
  lemma NobodyElseRejoins(s: State, a: Action, id: int, k: int)
    requires Inv(s) && Enabled(s, a) && s.phase == Up && !s.sched.Exited? && !a.Crash?
    requires id in s.rows && k < id && Waits(Apply(s, a), k) && !Waits(s, k)
    ensures Rejoins(s, a, id) && k == s.workers[a.w].job.id
  {
    hide Apply, PassOk, NoneLost, PhaseOk, InterruptsOk, EntriesOk, NumbersOk;
    assert id < s.nextId;
    match a
    case MarkNext => MarkWaiters(s);
    case Finish(w, message) => FinishWaiters(s, w, message, k);
    case CancelWrite(c) => CancelWaiters(s, c);
    case _ => QuietWaiters(s, a, k);
  }

  /** Each start before the waiting job's own uses up one older waiter, or is extra. */
  lemma OlderShrinks(s: State, a: Action, id: int)
    requires Inv(s) && Enabled(s, a) && s.phase == Up && !s.sched.Exited? && !a.Crash?
    requires HasPlace(s, id) && Waits(s, id) && Waits(Apply(s, a), id)
    ensures |Older(Apply(s, a), id)| + (if Starts(s, a) then 1 else 0) <= |Older(s, id)| + Extra(s, a, id)
  {
    hide ApplySched, ApplyWorker, ApplyCall, ApplyLife;
    var t := Apply(s, a);
    PlaceStep(s, a, id);
    if Rejoins(s, a, id) {
      OlderGrowsByOne(s, a, id);
    } else {
      forall k | k in Older(t, id) ensures k in Older(s, id) {
        if !Waits(s, k) { NobodyElseRejoins(s, a, id, k); }
      }
      if Starts(s, a) && !StaleStart(s, a) {
        MarkWaiters(s);
        var k := s.sched.queue[0].id;
        assert k in Older(s, id) && k !in Older(t, id);
        SubsetSize(Older(t, id), Older(s, id) - {k});
      } else {
        SubsetSize(Older(t, id), Older(s, id));
      }
    }
  }

  lemma OlderGrowsByOne(s: State, a: Action, id: int)
    requires Inv(s) && Enabled(s, a) && s.phase == Up && id in s.rows && Rejoins(s, a, id)
    ensures |Older(Apply(s, a), id)| <= |Older(s, id)| + 1
  {
    hide ApplySched, ApplyWorker, ApplyCall, ApplyLife;
    var t, back := Apply(s, a), s.workers[a.w].job.id;
    forall k | k in Older(t, id) ensures k in Older(s, id) + {back} {
      if !Waits(s, k) { NobodyElseRejoins(s, a, id, k); }
    }
    SubsetSize(Older(t, id), Older(s, id) + {back});
  }

  lemma ExitedStays(s: State, a: Action)
    requires Enabled(s, a) && s.sched.Exited? && !a.Crash?
    ensures Apply(s, a).sched.Exited? && !Starts(s, a)
  {
    hide Apply;
    if SchedAction(a) { assert false; }
    else if WorkerAction(a) { WorkerFrames(s, a); }
    else if CallAction(a) { CallFrames(s, a); }
    else { LifeFrames(s, a); }
  }

  lemma UpStays(s: State, a: Action)
    requires Enabled(s, a) && s.phase == Up && !a.Crash?
    ensures Apply(s, a).phase == Up
  {
    hide Apply;
    if SchedAction(a) { SchedFrames(s, a); }
    else if WorkerAction(a) { WorkerFrames(s, a); }
    else if CallAction(a) { CallFrames(s, a); }
    else { LifeFrames(s, a); }
  }

  /** Between restarts, for every interleaving: at most as many jobs start ahead of a waiting
      job as there are older jobs waiting when the count begins, and one more for each stale
      start and for each older row that rejoins; however many newer jobs arrive meanwhile. */
  lemma {:induction false} WaitIsBounded(s: State, run: seq<Action>, id: int)
    requires Inv(s) && s.phase == Up && HasPlace(s, id)
    requires Admissible(s, run) && NoCrash(run) && KeepsWaiting(s, run, id)
    ensures CountStarts(s, run) <= |Older(s, id)| + CountExtra(s, run, id)
    decreases |run|
  {
    hide ApplySched, ApplyWorker, ApplyCall, ApplyLife;
    if run != [] {
      var t := Apply(s, run[0]);
      InvStep(s, run[0]);
      PlaceStep(s, run[0], id);
      UpStays(s, run[0]);
      if s.sched.Exited? {
        ExitedStays(s, run[0]);
        NoStartsAfterExit(t, run[1..]);
      } else {
        OlderShrinks(s, run[0], id);
        WaitIsBounded(t, run[1..], id);
      }
    }
  }

  lemma NothingExtra(s: State, a: Action, id: int)
    requires Inv(s) && Exclusive(s) && Enabled(s, a) && FreshWrite(s, a) && !Revives(s, a)
    ensures Extra(s, a, id) == 0
  {
    hide AscendingIds;
  }

  lemma {:induction false} UndisturbedHasNoExtra(s: State, run: seq<Action>, id: int)
    requires Inv(s) && Exclusive(s) && Admissible(s, run) && Undisturbed(s, run)
    ensures CountExtra(s, run, id) == 0
    decreases |run|
  {
    hide ApplySched, ApplyWorker, ApplyCall, ApplyLife;
    if run != [] {
      InvStep(s, run[0]);
      ExclusiveStep(s, run[0]);
      NothingExtra(s, run[0], id);
      UndisturbedHasNoExtra(Apply(s, run[0]), run[1..], id);
    }
  }

  /** Over undisturbed runs there is nothing extra. */
  lemma UndisturbedWaitIsBounded(s: State, run: seq<Action>, id: int)
    requires Inv(s) && Exclusive(s) && s.phase == Up && HasPlace(s, id)
    requires Admissible(s, run) && Undisturbed(s, run) && NoCrash(run) && KeepsWaiting(s, run, id)
    ensures CountStarts(s, run) <= |Older(s, id)|
  {
    WaitIsBounded(s, run, id);
    UndisturbedHasNoExtra(s, run, id);
  }

  lemma {:induction false} NoStartsAfterExit(s: State, run: seq<Action>)
    requires Admissible(s, run) && NoCrash(run) && s.sched.Exited?
    ensures CountStarts(s, run) == 0
    decreases |run|
  {
    hide ApplySched, ApplyWorker, ApplyCall, ApplyLife;
    if run != [] {
      ExitedStays(s, run[0]);
      NoStartsAfterExit(Apply(s, run[0]), run[1..]);
    }
  }
}
