/** Whether a finished job stays finished, exactly: what deleting after a check of the
    status rests on, and what becomes of a Cancel seen by the error exit. */
module ManagerRest {
  import opened JobState
  import opened JobManager
  import opened ManagerInvariants
  import opened ManagerExclusion
  import opened ManagerRows
  import opened ManagerSteps

  // ------------------------------------------------------------ finished rows

  /** The row is terminal, or gone. */
  predicate Rests(s: State, id: int) {
    id in s.rows ==> Terminal(s.rows[id].status)
  }

  /** The scheduler marks the finished row from a copy that was still waiting, or a worker
      records an interruption over it: the two writes that do not look at the row. */
  predicate Wakes(s: State, a: Action, id: int) {
    && id in s.rows && Terminal(s.rows[id].status)
    && ((a.MarkNext? && s.sched.Picking? && s.sched.queue != [] && s.sched.queue[0].id == id
         && CanTransition(s.sched.queue[0].status, Running))
        || (a.Finish? && a.w in s.workers && s.workers[a.w].at.Finishing? && s.workers[a.w].job.id == id
            && s.workers[a.w].at.outcome == Interrupted))
  }

  ghost predicate AlwaysRests(s: State, run: seq<Action>, id: int)
    requires Admissible(s, run)
    decreases |run|
  {
    Rests(s, id) && (run == [] || AlwaysRests(Apply(s, run[0]), run[1..], id))
  }

  ghost predicate NeverWakes(s: State, run: seq<Action>, id: int)
    requires Admissible(s, run)
    decreases |run|
  {
    run == [] || (!Wakes(s, run[0], id) && NeverWakes(Apply(s, run[0]), run[1..], id))
  }

  lemma RestMark(s: State, id: int)
    requires Inv(s) && Rests(s, id) && Enabled(s, MarkNext)
    ensures Rests(Apply(s, MarkNext), id) <==> !Wakes(s, MarkNext, id)
  {
    hide ApplyWorker, ApplyCall, ApplyLife, Inv;
  }

  lemma RestFinish(s: State, w: int, message: string, id: int)
    requires Inv(s) && Rests(s, id) && Enabled(s, Finish(w, message))
    ensures Rests(Apply(s, Finish(w, message)), id) <==> !Wakes(s, Finish(w, message), id)
  {
    hide ApplySched, ApplyCall, ApplyLife;
  }

  lemma RestCancel(s: State, c: int, id: int)
    requires Rests(s, id) && Enabled(s, CancelWrite(c))
    ensures Rests(Apply(s, CancelWrite(c)), id)
  {
    hide ApplySched, ApplyWorker, ApplyLife;
  }

  lemma RestRecover(s: State, id: int)
    requires Rests(s, id) && Enabled(s, Recover)
    ensures Rests(Apply(s, Recover), id)
  {
    hide ApplySched, ApplyWorker, ApplyCall;
  }

  /** One step: a finished row stays so exactly if the step does not wake it. */
  lemma RestStep(s: State, a: Action, id: int)
    requires Inv(s) && Rests(s, id) && id < s.nextId && Enabled(s, a)
    ensures Rests(Apply(s, a), id) <==> !Wakes(s, a, id)
    ensures id < Apply(s, a).nextId
  {
    hide Apply, Enabled, Inv;
    IdsStep(s, a);
    match a
    case MarkNext => RestMark(s, id);
    case Finish(w, message) => RestFinish(s, w, message, id);
    case CancelWrite(c) => RestCancel(s, c, id);
    case Recover => RestRecover(s, id);
    case _ => StatusesStand(s, a);
  }

  /** Over every run: a finished row stays finished or goes, at every state, if and only if
      no step wakes it. */
  lemma {:induction false} RestsExactly(s: State, run: seq<Action>, id: int)
    requires Inv(s) && Rests(s, id) && id < s.nextId && Admissible(s, run)
    ensures AlwaysRests(s, run, id) <==> NeverWakes(s, run, id)
    decreases |run|
  {
    hide ApplySched, ApplyWorker, ApplyCall, ApplyLife;
    if run != [] {
      InvStep(s, run[0]);
      RestStep(s, run[0], id);
      if !Wakes(s, run[0], id) { RestsExactly(Apply(s, run[0]), run[1..], id); }
    }
  }

  lemma {:induction false} RestsAfter(s: State, run: seq<Action>, id: int)
    requires Admissible(s, run) && AlwaysRests(s, run, id)
    ensures Rests(After(s, run), id)
    decreases |run|
  {
    hide ApplySched, ApplyWorker, ApplyCall, ApplyLife;
    if run != [] { RestsAfter(Apply(s, run[0]), run[1..], id); }
  }

  // ------------------------------------------------------------ deleting

  /** A delete call reads a terminal row; then anything happens. The row stays terminal or
      goes, at every state up to the deletion, if and only if no step wakes it; and then
      what the call removes is a finished job. */
  lemma DeleteIsSafe(s: State, past: seq<Action>, c: int, id: int, run: seq<Action>)
    requires Initial(s) && Admissible(s, past)
    requires var t := After(s, past); Enabled(t, DeleteRead(c, id)) && id in t.rows && Terminal(t.rows[id].status)
    requires Admissible(Apply(After(s, past), DeleteRead(c, id)), run)
    ensures var u := Apply(After(s, past), DeleteRead(c, id));
            && u.calls[c] == DeleteChecked(id)
            && (AlwaysRests(u, run, id) <==> NeverWakes(u, run, id))
            && (NeverWakes(u, run, id) && id in After(u, run).rows ==> Terminal(After(u, run).rows[id].status))
  {
    hide ApplySched, ApplyWorker, ApplyLife, Enabled;
    var t := After(s, past);
    var u := Apply(t, DeleteRead(c, id));
    InitialInv(s);
    InvRun(s, past);
    InvStep(t, DeleteRead(c, id));
    RestsExactly(u, run, id);
    if NeverWakes(u, run, id) { RestsAfter(u, run, id); }
  }

  /** In an undisturbed run no step wakes the row of a pending delete. */
  lemma UndisturbedDeleteIsSafe(s: State, run: seq<Action>, c: int)
    requires Initial(s) && Admissible(s, run) && Undisturbed(s, run)
    requires Enabled(After(s, run), DeleteWrite(c))
    ensures var t := After(s, run); t.calls[c].id in t.rows ==> Terminal(t.rows[t.calls[c].id].status)
  {
    hide Apply, Inv, OwnEntry, RowsFollow, WaitersFree, StopOk, MarkedOk, CausesOk, Settled, Undisturbed, Terminal;
    InitialInv(s);
    ExDown(s);
    ExclusiveRun(s, run);
    var t := After(s, run);
    assert CallOk(t, t.calls[c]);
  }

  // ------------------------------------------------------------ the error exit and Cancel

  /** The worker has nothing left to record. */
  predicate Silenced(s: State, w: int) {
    w < s.nextWorker && (w in s.workers ==> !Live(s.workers[w]))
  }

  lemma SilencedByOwn(s: State, a: Action, w: int)
    requires Silenced(s, w) && Enabled(s, a) && OfWorker(a, w)
    ensures w in Apply(s, a).workers ==> !Live(Apply(s, a).workers[w])
  {
    hide ApplySched, ApplyCall, ApplyLife, MeasureStep, FinishStep, NextPosition;
  }

  lemma SilencedFinishesNot(s: State, a: Action, w: int)
    requires Silenced(s, w) && Enabled(s, a)
    ensures !(a.Finish? && a.w == w)
  {
  }

  lemma SilencedStep(s: State, a: Action, w: int)
    requires Inv(s) && Silenced(s, w) && Enabled(s, a) && !a.Crash?
    ensures Silenced(Apply(s, a), w)
  {
    hide Apply, Enabled, PassOk, NoneLost, Fresh, EntriesOk;
    if SchedAction(a) { SchedFrames(s, a); }
    else if WorkerAction(a) { WorkerFrames(s, a); if OfWorker(a, w) { SilencedByOwn(s, a, w); } }
    else if CallAction(a) { CallFrames(s, a); }
    else { LifeFrames(s, a); }
  }

  predicate NeverFinishes(run: seq<Action>, w: int) {
    forall i :: 0 <= i < |run| ==> !(run[i].Finish? && run[i].w == w)
  }

  lemma NeverFinishesFrom(run: seq<Action>, w: int)
    requires run != [] && !(run[0].Finish? && run[0].w == w) && NeverFinishes(run[1..], w)
    ensures NeverFinishes(run, w)
  {
    forall i | 0 <= i < |run| ensures !(run[i].Finish? && run[i].w == w) {
      if i > 0 { assert run[i] == run[1..][i - 1]; }
    }
  }

  lemma {:induction false} SilencedRun(s: State, run: seq<Action>, w: int)
    requires Inv(s) && Silenced(s, w) && Admissible(s, run) && NoCrash(run)
    ensures NeverFinishes(run, w)
    decreases |run|
  {
    hide ApplySched, ApplyWorker, ApplyCall, ApplyLife;
    if run != [] {
      InvStep(s, run[0]);
      SilencedStep(s, run[0], w);
      SilencedFinishesNot(s, run[0], w);
      SilencedRun(Apply(s, run[0]), run[1..], w);
      NeverFinishesFrom(run, w);
    }
  }

  /** A re-read that finds the row cancelled is the end of it: as long as the process lives,
      that worker records no outcome, whatever happens. */
  lemma ErrorExitHonoursCancel(s: State, w: int, run: seq<Action>)
    requires Inv(s) && Enabled(s, ReRead(w))
    requires s.workers[w].job.id in s.rows && s.rows[s.workers[w].job.id].status == Cancelled
    requires Admissible(Apply(s, ReRead(w)), run) && NoCrash(run)
    ensures Apply(s, ReRead(w)).rows == s.rows && NeverFinishes(run, w)
  {
    hide ApplySched, ApplyCall, ApplyLife;
    InvStep(s, ReRead(w));
    SilencedRun(Apply(s, ReRead(w)), run, w);
  }
}
