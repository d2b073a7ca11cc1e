/** Whom Stop tells to end: the exact condition, over every run. */
module ManagerStop {
  import opened JobManager
  import opened ManagerSteps

  /** Stop has collected the worker's cancel function and not called it yet. */
  predicate Collected(stop: StopCall, w: int) {
    match stop
    case AwaitLoop(cancels) => w in cancels
    case Firing(cancels) => w in cancels
    case _ => false
  }

  /** The worker's context is cancelled, or is going to be by Stop. */
  predicate Told(s: State, w: int) {
    w in s.workers && (s.workers[w].cancelled || Collected(s.stop, w))
  }

  /** A Cancel that has found this worker's cancel function calls it. */
  predicate Fires(s: State, a: Action, w: int) {
    a.CancelFire? && a.call in s.calls && s.calls[a.call].CancelFound? && s.calls[a.call].worker == w
  }

  ghost predicate EverFires(s: State, run: seq<Action>, w: int)
    requires Admissible(s, run)
    decreases |run|
  {
    run != [] && (Fires(s, run[0], w) || EverFires(Apply(s, run[0]), run[1..], w))
  }

  // ------------------------------------------------------------ one step

  lemma ToldByFire(s: State, c: int, w: int)
    requires Enabled(s, CancelFire(c))
    ensures w in s.workers ==> w in Apply(s, CancelFire(c)).workers
    ensures w in s.workers ==>
              (Apply(s, CancelFire(c)).workers[w].cancelled <==> s.workers[w].cancelled || Fires(s, CancelFire(c), w))
  {
    hide ApplySched, ApplyWorker, ApplyLife;
  }

  lemma ToldByLife(s: State, a: Action, w: int)
    requires Enabled(s, a) && s.stopping && LifeAction(a) && !a.Crash? && !s.stop.NotStopping?
    ensures Apply(s, a).stopping && !Apply(s, a).stop.NotStopping?
    ensures w in Apply(s, a).workers <==> w in s.workers
    ensures Told(Apply(s, a), w) <==> Told(s, w)
  {
    hide ApplySched, ApplyWorker, ApplyCall;
  }

  /** Once Stop has begun, nobody starts, and whether a worker is told changes only when a
      Cancel calls its cancel function. */
  lemma ToldStep(s: State, a: Action, w: int)
    requires Enabled(s, a) && s.stopping && !s.stop.NotStopping? && !a.Crash? && w in Apply(s, a).workers
    ensures Apply(s, a).stopping && !Apply(s, a).stop.NotStopping?
    ensures w in s.workers && (Told(Apply(s, a), w) <==> Told(s, w) || Fires(s, a, w))
  {
    hide Apply, Enabled;
    if SchedAction(a) { SchedFrames(s, a); }
    else if WorkerAction(a) { WorkerFrames(s, a); }
    else if CallAction(a) { CallFrames(s, a); if a.CancelFire? { ToldByFire(s, a.call, w); } }
    else { ToldByLife(s, a, w); }
  }

  // ------------------------------------------------------------ whole runs

  lemma {:induction false} ToldRun(s: State, run: seq<Action>, w: int)
    requires Admissible(s, run) && NoCrash(run) && s.stopping && !s.stop.NotStopping?
    requires w in After(s, run).workers
    ensures w in s.workers && (Told(After(s, run), w) <==> Told(s, w) || EverFires(s, run, w))
    decreases |run|
  {
    hide Apply, Enabled, Told, Fires;
    if run != [] {
      var t := Apply(s, run[0]);
      StoppingStays(s, run[0]);
      ToldRun(t, run[1..], w);
      ToldStep(s, run[0], w);
    }
  }

  lemma StoppingStays(s: State, a: Action)
    requires Enabled(s, a) && s.stopping && !s.stop.NotStopping? && !a.Crash?
    ensures Apply(s, a).stopping && !Apply(s, a).stop.NotStopping?
  {
    hide Apply, Enabled;
    if SchedAction(a) { SchedFrames(s, a); }
    else if WorkerAction(a) { WorkerFrames(s, a); }
    else if CallAction(a) { CallFrames(s, a); }
    else { ToldByLife(s, a, 0); }
  }

  /** Over every run from the beginning of Stop to its wait for the workers, with no
      hypothesis on what went before: a worker that Stop waits for was there when Stop began,
      and its context is cancelled if and only if its cancel function was stored in the map
      then, or its context was cancelled already, or some Cancel has called the function
      since. */
  lemma StopTellsExactly(s: State, run: seq<Action>, w: int)
    requires Enabled(s, StopBegin) && Admissible(Apply(s, StopBegin), run) && NoCrash(run)
    requires var t := After(Apply(s, StopBegin), run); t.stop.AwaitWorkers? && w in t.workers
    ensures var u := Apply(s, StopBegin); var t := After(u, run);
            && w in s.workers
            && (t.workers[w].cancelled <==>
                w in s.running.Values || s.workers[w].cancelled || EverFires(u, run, w))
  {
    hide ApplySched, ApplyWorker, ApplyCall;
    ToldRun(Apply(s, StopBegin), run, w);
  }

  /** So if every executing worker had its own entry when Stop began, every worker that is
      still executing has been told. */
  lemma OwnersAreTold(s: State, run: seq<Action>, w: int)
    requires Enabled(s, StopBegin) && Admissible(Apply(s, StopBegin), run) && NoCrash(run)
    requires var t := After(Apply(s, StopBegin), run); t.stop.AwaitWorkers? && w in t.workers
    requires w in s.workers ==> s.workers[w].job.id in s.running && s.running[s.workers[w].job.id] == w
    ensures After(Apply(s, StopBegin), run).workers[w].cancelled
  {
    hide ApplySched, ApplyWorker, ApplyCall;
    StopTellsExactly(s, run, w);
    assert s.running[s.workers[w].job.id] in s.running.Values;
  }
}
