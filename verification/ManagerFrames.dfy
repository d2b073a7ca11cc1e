/** What one goroutine's actions leave alone of another's. */
module ManagerFrames {
  import opened JobManager
  import opened ManagerInvariants
  import opened ManagerSteps

  // ------------------------------------------------------------ whose action it is

  datatype Goroutine = TheScheduler | TheWorker(w: int) | TheCall(c: int) | TheStop

  predicate Mine(g: Goroutine, a: Action) {
    match g
    case TheScheduler => SchedAction(a)
    case TheWorker(w) => OfWorker(a, w)
    case TheCall(c) => OfCall(a, c)
    case TheStop => OfStop(a)
  }

  /** Another goroutine's action; the process neither starts nor ends meanwhile. */
  predicate Elsewhere(g: Goroutine, a: Action) {
    !Mine(g, a) && !a.Crash? && !a.Recover? && !a.Launch?
  }

  // ------------------------------------------------------------ what the others leave alone

  predicate SameWorker(s: State, t: State, w: int) {
    w in s.workers ==> w in t.workers && SameWork(s.workers[w], t.workers[w])
  }

  predicate Untouched(g: Goroutine, s: State, t: State) {
    && t.phase == s.phase
    && match g
       case TheScheduler =>
         SamePlace(s.sched, t.sched) && t.running.Keys <= s.running.Keys && (s.stopping ==> t.stopping)
       case TheWorker(w) => SameWorker(s, t, w)
       case TheCall(c) => SameCall(s, t, c)
       case TheStop => t.stop == s.stop && t.stopping == s.stopping
  }

  lemma UntouchedBySched(g: Goroutine, s: State, a: Action)
    requires Inv(s) && Enabled(s, a) && Elsewhere(g, a) && SchedAction(a)
    ensures Untouched(g, s, Apply(s, a))
  {
    hide Apply, Enabled, PassOk, NoneLost;
    SchedFrames(s, a);
  }

  lemma UntouchedByWorker(g: Goroutine, s: State, a: Action)
    requires Enabled(s, a) && Elsewhere(g, a) && WorkerAction(a)
    ensures Untouched(g, s, Apply(s, a))
  {
    hide Apply, Enabled;
    WorkerFrames(s, a);
  }

  lemma UntouchedByCall(g: Goroutine, s: State, a: Action)
    requires Enabled(s, a) && Elsewhere(g, a) && CallAction(a)
    ensures Untouched(g, s, Apply(s, a))
  {
    hide Apply, Enabled;
    CallFrames(s, a);
  }

  lemma UntouchedByLife(g: Goroutine, s: State, a: Action)
    requires Enabled(s, a) && Elsewhere(g, a) && LifeAction(a)
    ensures Untouched(g, s, Apply(s, a))
  {
    hide Apply, Enabled;
    LifeFrames(s, a);
  }

  lemma UntouchedByOthers(g: Goroutine, s: State, a: Action)
    requires Inv(s) && Enabled(s, a) && Elsewhere(g, a)
    ensures Untouched(g, s, Apply(s, a))
  {
    hide Apply, Enabled, Inv;
    if SchedAction(a) { UntouchedBySched(g, s, a); }
    else if WorkerAction(a) { UntouchedByWorker(g, s, a); }
    else if CallAction(a) { UntouchedByCall(g, s, a); }
    else { UntouchedByLife(g, s, a); }
  }

  lemma UntouchedTwice(g: Goroutine, s: State, t: State, u: State)
    requires Untouched(g, s, t) && Untouched(g, t, u)
    ensures Untouched(g, s, u)
  {
  }
}
