/** One worker per job: the exact condition, over every run. */
module ManagerSingle {
  import opened Common
  import opened JobManager
  import opened ManagerInvariants
  import opened ManagerExclusion
  import opened ManagerSteps

  // ------------------------------------------------------------ the guard that is not there

  /** A worker is registered for a job that has an entry already: what the section under
      the mutex does not test. */
  predicate Doubles(s: State, a: Action) {
    a.Register? && s.sched.Marked? && !s.stopping && s.sched.job.id in s.running
  }

  ghost predicate NeverDoubles(s: State, run: seq<Action>)
    requires Admissible(s, run)
    decreases |run|
  {
    run == [] || (!Doubles(s, run[0]) && NeverDoubles(Apply(s, run[0]), run[1..]))
  }

  /** No two workers execute the same job. */
  ghost predicate Alone(s: State) {
    forall v, w | v in s.workers && w in s.workers ::
      Executing(s.workers[v]) && Executing(s.workers[w]) && s.workers[v].job.id == s.workers[w].job.id ==> v == w
  }

  ghost predicate AlwaysAlone(s: State, run: seq<Action>)
    requires Admissible(s, run)
    decreases |run|
  {
    Alone(s) && (run == [] || AlwaysAlone(Apply(s, run[0]), run[1..]))
  }

  /** Every executing worker owns its job's entry, and Stop has all of them. */
  ghost predicate Single(s: State) {
    OwnEntry(s) && StopOk(s)
  }

  // ------------------------------------------------------------ what keeps it

  lemma SingleElsewhere(s: State, t: State)
    requires Single(s) && t.workers == s.workers && t.running == s.running && t.stop == s.stop
    ensures Single(t)
  {
  }

  /** A registration that does not double. */
  lemma SingleRegister(s: State)
    requires Inv(s) && Single(s) && Enabled(s, Register) && !Doubles(s, Register)
    ensures Single(Apply(s, Register))
  {
    hide ApplyWorker, ApplyCall, ApplyLife;
  }

  lemma SingleSched(s: State, a: Action)
    requires Inv(s) && Single(s) && Enabled(s, a) && SchedAction(a) && !Doubles(s, a)
    ensures Single(Apply(s, a))
  {
    hide Apply, Inv, Single, Doubles;
    if a.Register? {
      SingleRegister(s);
    } else {
      SchedFrames(s, a);
      SingleElsewhere(s, Apply(s, a));
    }
  }

  lemma SingleSetWorker(s: State, w: int, x: Worker)
    requires Single(s) && w in s.workers && x.job.id == s.workers[w].job.id
    requires Executing(x) ==> Executing(s.workers[w])
    requires s.workers[w].cancelled ==> x.cancelled
    ensures Single(s.(workers := s.workers[w := x]))
  {
  }

  lemma SingleUnregister(s: State, w: int)
    requires Single(s) && w in s.workers && s.workers[w].at.Leaving?
    ensures Single(UnregisterStep(s, w))
  {
  }

  lemma SingleMeasure(s: State, w: int, size: Option<int>)
    requires Single(s) && w in s.workers && s.workers[w].at.AtSize?
    ensures Single(MeasureStep(s, w, size))
  {
    var t := MeasureStep(s, w, size);
    SingleSetWorker(s, w, t.workers[w]);
    SingleElsewhere(s.(workers := t.workers), t);
  }

  lemma SingleWorker(s: State, a: Action)
    requires Single(s) && Enabled(s, a) && WorkerAction(a)
    ensures Single(Apply(s, a))
  {
    hide ApplySched, ApplyCall, ApplyLife;
    if a.Unregister? { SingleUnregister(s, a.w); }
    else if a.MeasureSource? { SingleMeasure(s, a.w, a.size); }
    else if a.Finish? {
      SingleSetWorker(s, a.w, s.workers[a.w].(at := Leaving));
      SingleElsewhere(s.(workers := s.workers[a.w := s.workers[a.w].(at := Leaving)]), Apply(s, a));
    }
    else if a.Leave? { SingleLeave(s, a.w); }
    else if a.Flush? { SingleElsewhere(s, Apply(s, a)); }
    else { SingleSetWorker(s, a.w, s.workers[a.w].(at := NextPosition(s, a))); }
  }

  lemma SingleLeave(s: State, w: int)
    requires Single(s)
    ensures Single(LeaveStep(s, w))
  {
  }

  lemma SingleNoteCancel(s: State, id: int)
    requires Single(s)
    ensures Single(NoteCancel(s, id))
  {
  }

  lemma SingleCancelContext(s: State, w: int)
    requires Single(s)
    ensures Single(CancelContext(s, w))
  {
    if w in s.workers { SingleSetWorker(s, w, s.workers[w].(cancelled := true)); }
  }

  lemma SingleCancel(s: State, a: Action)
    requires Single(s) && Enabled(s, a) && CancelAction(a)
    ensures Single(Apply(s, a))
  {
    hide ApplySched, ApplyWorker, ApplyLife;
    if a.CancelWrite? {
      SingleNoteCancel(s, s.calls[a.call].id);
      var noted := NoteCancel(s, s.calls[a.call].id);
      if s.calls[a.call].id in s.rows { SingleElsewhere(noted, Apply(s, a)); } else { SingleElsewhere(s, Apply(s, a)); }
    } else if a.CancelFire? {
      SingleCancelContext(s, s.calls[a.call].worker);
      SingleElsewhere(CancelContext(s, s.calls[a.call].worker), Apply(s, a));
    } else {
      SingleElsewhere(s, Apply(s, a));
    }
  }

  lemma SingleCall(s: State, a: Action)
    requires Single(s) && Enabled(s, a) && CallAction(a) && !CancelAction(a)
    ensures Single(Apply(s, a))
  {
    hide Apply, Enabled, Single;
    CallFrames(s, a);
    SingleElsewhere(s, Apply(s, a));
  }

  lemma SingleStopFire(s: State, w: int)
    requires Single(s) && s.stop.Firing?
    ensures Single(StopFireStep(s, w))
  {
    SingleCancelContext(s, w);
  }

  lemma SingleLife(s: State, a: Action)
    requires Inv(s) && Single(s) && Enabled(s, a) && LifeAction(a)
    ensures Single(Apply(s, a))
  {
    hide ApplySched, ApplyWorker, ApplyCall;
    if a.StopFire? { SingleStopFire(s, a.w); }
  }

  lemma SingleStep(s: State, a: Action)
    requires Inv(s) && Single(s) && Enabled(s, a) && !Doubles(s, a)
    ensures Single(Apply(s, a))
  {
    hide ApplySched, ApplyWorker, ApplyCall, ApplyLife;
    if SchedAction(a) { SingleSched(s, a); }
    else if WorkerAction(a) { SingleWorker(s, a); }
    else if CancelAction(a) { SingleCancel(s, a); }
    else if CallAction(a) { SingleCall(s, a); }
    else { SingleLife(s, a); }
  }

  lemma {:induction false} SingleRun(s: State, run: seq<Action>)
    requires Inv(s) && Single(s) && Admissible(s, run) && NeverDoubles(s, run)
    ensures Single(After(s, run))
    decreases |run|
  {
    hide ApplySched, ApplyWorker, ApplyCall, ApplyLife;
    if run != [] {
      InvStep(s, run[0]);
      SingleStep(s, run[0]);
      SingleRun(Apply(s, run[0]), run[1..]);
    }
  }

  // ------------------------------------------------------------ and what breaks it

  /** Right after a doubling registration two workers execute the job. */
  lemma DoublingIsSeen(s: State, a: Action)
    requires Inv(s) && Enabled(s, a) && Doubles(s, a)
    ensures !Alone(Apply(s, a))
  {
    hide ApplyWorker, ApplyCall, ApplyLife;
    var id := s.sched.job.id;
    var v, w := s.running[id], s.nextWorker;
    var t := Apply(s, a);
    assert v in s.workers && v != w;
    assert t.workers[v] == s.workers[v] && t.workers[w].job.id == id;
    assert Executing(t.workers[v]) && Executing(t.workers[w]);
  }

  lemma {:induction false} AloneExactly(s: State, run: seq<Action>)
    requires Inv(s) && Single(s) && Admissible(s, run)
    ensures AlwaysAlone(s, run) <==> NeverDoubles(s, run)
    decreases |run|
  {
    hide ApplySched, ApplyWorker, ApplyCall, ApplyLife;
    if run != [] {
      var t := Apply(s, run[0]);
      InvStep(s, run[0]);
      if Doubles(s, run[0]) {
        DoublingIsSeen(s, run[0]);
      } else {
        SingleStep(s, run[0]);
        AloneExactly(t, run[1..]);
      }
    }
  }

  /** Over every run from a fresh database, each job has at most one executing worker at
      every state if and only if no step registers a worker for a job that has an entry. */
  lemma OneWorkerExactly(s: State, run: seq<Action>)
    requires Initial(s) && Admissible(s, run)
    ensures AlwaysAlone(s, run) <==> NeverDoubles(s, run)
  {
    InitialInv(s);
    ExDown(s);
    AloneExactly(s, run);
  }

  lemma {:induction false} UndisturbedFrom(s: State, run: seq<Action>)
    requires Inv(s) && Exclusive(s) && Admissible(s, run) && Undisturbed(s, run)
    ensures NeverDoubles(s, run)
    decreases |run|
  {
    hide ApplySched, ApplyWorker, ApplyCall, ApplyLife;
    if run != [] {
      InvStep(s, run[0]);
      ExclusiveStep(s, run[0]);
      UndisturbedFrom(Apply(s, run[0]), run[1..]);
    }
  }

  /** Fresh checks, and no cancelled row revived, are enough. */
  lemma UndisturbedNeverDoubles(s: State, run: seq<Action>)
    requires Initial(s) && Admissible(s, run) && Undisturbed(s, run)
    ensures NeverDoubles(s, run)
  {
    InitialInv(s);
    ExDown(s);
    UndisturbedFrom(s, run);
  }
}
