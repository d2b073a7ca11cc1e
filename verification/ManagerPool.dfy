/** Over whole runs: the worker pool, its bound, its order and its drain. */
module ManagerPool {
  import opened Common
  import opened JobManager
  import opened ManagerInvariants
  import opened ManagerExclusion
  import opened ManagerSteps
  import opened ManagerRows
  import opened ManagerSingle

  lemma ReachableIsSingle(s: State, run: seq<Action>)
    requires Initial(s) && Admissible(s, run) && NeverDoubles(s, run)
    ensures Inv(After(s, run)) && Single(After(s, run))
  {
    hide ApplySched, ApplyWorker, ApplyCall, ApplyLife;
    InitialInv(s);
    ExDown(s);
    InvRun(s, run);
    SingleRun(s, run);
  }

  // ------------------------------------------------------------ one worker per job

  ghost function ExecutingWorkers(s: State): set<int> {
    set w | w in s.workers && Executing(s.workers[w])
  }

  /** Over every run in which no job is registered twice at a time, each job has at most
      one executing worker, the entry under its id is that worker's, and the map's size is
      the number of workers. */
  lemma OneWorkerPerJob(s: State, run: seq<Action>)
    requires Initial(s) && Admissible(s, run) && NeverDoubles(s, run)
    ensures var t := After(s, run);
      && (forall w :: w in ExecutingWorkers(t) ==>
            t.workers[w].job.id in t.running && t.running[t.workers[w].job.id] == w)
      && (forall v, w | v in ExecutingWorkers(t) && w in ExecutingWorkers(t) ::
            t.workers[v].job.id == t.workers[w].job.id ==> v == w)
      && |ExecutingWorkers(t)| == |t.running|
  {
    hide ApplySched, ApplyWorker, ApplyCall, ApplyLife;
    ReachableIsSingle(s, run);
    CountWorkers(After(s, run));
  }

  lemma CountWorkers(s: State)
    requires EntriesOk(s) && OwnEntry(s)
    ensures |ExecutingWorkers(s)| == |s.running|
  {
    assert |s.running| == |s.running.Keys|;
    EntriesMatchWorkers(s.running, ExecutingWorkers(s),
                        map w | w in ExecutingWorkers(s) :: s.workers[w].job.id);
  }

  /** A map whose values are exactly `ws`, with `back` leading from each value to its
      key, has as many entries as `ws` has elements. */
  lemma {:induction false} EntriesMatchWorkers(m: map<int, int>, ws: set<int>, back: map<int, int>)
    requires forall k :: k in m ==> m[k] in ws && m[k] in back && back[m[k]] == k
    requires forall w :: w in ws ==> w in back && back[w] in m && m[back[w]] == w
    ensures |m.Keys| == |ws|
    decreases |ws|
  {
    if ws == {} {
      assert forall k :: k in m.Keys ==> m[k] in ws;
      assert m.Keys == {};
    } else {
      var w := Pick(ws);
      var k := back[w];
      var rest := m - {k};
      assert rest.Keys == m.Keys - {k};
      EntriesMatchWorkers(rest, ws - {w}, back);
    }
  }

  // ------------------------------------------------------------ the concurrency limit

  /** No step of the run begins another pass or ends the process. */
  predicate OnePass(run: seq<Action>) {
    forall i :: 0 <= i < |run| ==> !run[i].ReadLimit? && !run[i].Crash?
  }

  ghost predicate InPass(s: State, limit: nat) {
    match s.sched
    case HasLimit(c) => c == limit
    case HasFree(c, _) => c == limit
    case Picking(c, _) => c == limit
    case Marked(c, _, _, _) => c == limit
    case _ => true
  }

  lemma PassSchedStep(s: State, a: Action, limit: nat)
    requires Enabled(s, a) && SchedAction(a) && !a.ReadLimit? && InPass(s, limit)
    ensures InPass(Apply(s, a), limit)
  {
    hide ApplyWorker, ApplyCall, ApplyLife, WorkerAction;
  }

  /** A registration comes out of a pass that left room for it. */
  lemma RegisterFits(s: State, limit: nat)
    requires Inv(s) && Enabled(s, Register) && InPass(s, limit)
    ensures |RegisterStep(s).running| <= Max(limit, |s.running|)
  {
    hide RowsOk, NumbersOk, EntriesOk, PhaseOk, NoneLost, InterruptsOk;
    assert s.sched.limit == limit;
    assert |s.running[s.sched.job.id := s.nextWorker]| <= |s.running| + 1;
  }

  lemma PassBoundStep(s: State, a: Action, limit: nat, before: nat)
    requires Inv(s) && Enabled(s, a) && !a.ReadLimit? && !a.Crash?
    requires InPass(s, limit) && |s.running| <= Max(limit, before)
    ensures InPass(Apply(s, a), limit) && |Apply(s, a).running| <= Max(limit, before)
  {
    hide Apply, Enabled, Inv, RegisterStep;
    if SchedAction(a) {
      SchedFrames(s, a);
      PassSchedStep(s, a, limit);
      if a.Register? { RegisterFits(s, limit); }
    }
    else if WorkerAction(a) { WorkerFrames(s, a); SubsetSize(Apply(s, a).running.Keys, s.running.Keys); }
    else if CallAction(a) { CallFrames(s, a); }
    else { LifeFrames(s, a); }
  }

  /** From the moment a pass has read limit c, and for as long as the next pass has not
      begun, the map never holds more than max(c, what it held then) entries: whatever
      limit earlier passes read, and whichever workers leave meanwhile. */
  lemma {:induction false} PassRespectsLimit(s: State, run: seq<Action>, limit: nat, before: nat)
    requires Inv(s) && Admissible(s, run) && OnePass(run)
    requires InPass(s, limit) && |s.running| <= Max(limit, before)
    ensures |After(s, run).running| <= Max(limit, before)
    decreases |run|
  {
    hide ApplySched, ApplyWorker, ApplyCall, ApplyLife;
    if run != [] {
      InvStep(s, run[0]);
      PassBoundStep(s, run[0], limit, before);
      PassRespectsLimit(Apply(s, run[0]), run[1..], limit, before);
    }
  }

  /** The same for the workers themselves, when no job is registered twice at a time. */
  lemma PoolRespectsLimit(s: State, past: seq<Action>, pass: seq<Action>)
    requires Initial(s) && Admissible(s, past) && NeverDoubles(s, past)
    requires var t := After(s, past); t.sched.HasLimit? && Admissible(t, pass) && NeverDoubles(t, pass) && OnePass(pass)
    ensures var t := After(s, past); var u := After(t, pass);
      |ExecutingWorkers(u)| <= Max(t.sched.limit, |ExecutingWorkers(t)|)
  {
    hide ApplySched, ApplyWorker, ApplyCall, ApplyLife;
    var t := After(s, past);
    ReachableIsSingle(s, past);
    CountWorkers(t);
    InvRun(t, pass);
    SingleRun(t, pass);
    CountWorkers(After(t, pass));
    PassRespectsLimit(t, pass, t.sched.limit, |t.running|);
  }

  // ------------------------------------------------------------ Stop

  /** Once Stop has begun nothing is registered any more. */
  lemma NothingRegisteredAfterStop(s: State, a: Action)
    requires Enabled(s, a) && s.stopping && !a.Crash?
    ensures Apply(s, a).stopping
    ensures Apply(s, a).running.Keys <= s.running.Keys
    ensures Apply(s, a).workers.Keys <= s.workers.Keys
  {
    hide Apply, Enabled;
    if SchedAction(a) { SchedFrames(s, a); }
    else if WorkerAction(a) { WorkerFrames(s, a); }
    else if CallAction(a) { CallFrames(s, a); }
    else { LifeFrames(s, a); }
  }

  lemma NoEntriesWithoutWorkers(s: State)
    requires EntriesOk(s)
    ensures s.workers == map[] ==> s.running == map[]
  {
    assert forall id :: id in s.running ==> s.running[id] in s.workers.Keys;
    if s.workers.Keys == {} { EmptyMap(s.running, s.workers.Keys); }
  }

  /** Over every run: when Stop has returned, the loop has ended and there is neither a
      worker nor an entry left. */
  lemma StopDrains(s: State, run: seq<Action>)
    requires Initial(s) && Admissible(s, run)
    ensures var t := After(s, run);
      && (t.stop.AwaitWorkers? || t.stop.Returned? ==> t.sched.Exited?)
      && (t.stop.Returned? ==> t.workers == map[] && t.running == map[])
  {
    hide ApplySched, ApplyWorker, ApplyCall, ApplyLife;
    InitialInv(s);
    InvRun(s, run);
    NoEntriesWithoutWorkers(After(s, run));
  }

  /** While Stop waits for the workers each of them has a cancelled context, if no job was
      registered twice at a time. */
  lemma StopReachesEveryWorker(s: State, run: seq<Action>, w: int)
    requires Initial(s) && Admissible(s, run) && NeverDoubles(s, run)
    requires After(s, run).stop.AwaitWorkers? && w in ExecutingWorkers(After(s, run))
    ensures After(s, run).workers[w].cancelled
  {
    hide ApplySched, ApplyWorker, ApplyCall, ApplyLife;
    ReachableIsSingle(s, run);
  }

  lemma FlushKeepsRows(s: State, a: Action)
    requires Enabled(s, a) && a.Flush?
    ensures Apply(s, a).rows.Keys == s.rows.Keys
  {
    hide ApplySched, ApplyCall, ApplyLife, Enabled;
  }

  /** After Stop has returned, only API calls can change or remove what a status says. */
  lemma StoppedRowsRest(s: State, a: Action)
    requires Inv(s) && s.stop.Returned? && Enabled(s, a) && !CallAction(a)
    ensures forall id :: id in s.rows ==>
              id in Apply(s, a).rows && Apply(s, a).rows[id].status == s.rows[id].status
  {
    hide Apply, RowsOk, NumbersOk, EntriesOk, InterruptsOk, PassOk, NoneLost;
    StatusesStand(s, a);
    if WritesRows(a) { FlushKeepsRows(s, a); } else { OthersKeepRows(s, a); }
  }
}
