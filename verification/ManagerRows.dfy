/** Over whole runs: which moves a row's status makes, and what that guarantees. */
module ManagerRows {
  import opened Common
  import opened JobState
  import opened JobTable
  import opened JobManager
  import opened ManagerInvariants
  import opened ManagerExclusion
  import opened ManagerSteps

  // ------------------------------------------------------------ row effects

  lemma OthersKeepRows(s: State, a: Action)
    requires Enabled(s, a) && !WritesRows(a)
    ensures Apply(s, a).rows == s.rows && Apply(s, a).nextId == s.nextId
  {
    hide ApplySched, ApplyWorker, ApplyCall, Enabled;
    if a.Crash? {
    } else if SchedAction(a) { SchedFrames(s, a); }
    else if WorkerAction(a) { WorkerFrames(s, a); }
    else if CallAction(a) { CallFrames(s, a); }
    else { LifeFrames(s, a); }
  }

  /** The step leaves every row that survives it in a status the table allows next. */
  ghost predicate Legal(s: State, a: Action)
    requires Enabled(s, a)
  {
    var t := Apply(s, a);
    forall id :: id in s.rows && id in t.rows ==>
      t.rows[id].status == s.rows[id].status || CanTransition(s.rows[id].status, t.rows[id].status)
  }

  lemma LegalMark(s: State)
    requires Inv(s) && Enabled(s, MarkNext) && FreshWrite(s, MarkNext)
    ensures Legal(s, MarkNext)
  {
    hide Inv;
  }

  lemma LegalCancel(s: State, c: int)
    requires Exclusive(s) && Enabled(s, CancelWrite(c)) && FreshWrite(s, CancelWrite(c))
    ensures Legal(s, CancelWrite(c))
  {
    assert CallOk(s, s.calls[c]);
  }

  /** The one write that can break the state machine, and exactly when it does. */
  lemma LegalFinish(s: State, w: int, message: string)
    requires Inv(s) && Exclusive(s) && Enabled(s, Finish(w, message))
    ensures Legal(s, Finish(w, message)) <==> !Overwrites(s, Finish(w, message))
  {
    hide ApplySched, ApplyCall, ApplyLife;
    var worker := s.workers[w];
    var id := worker.job.id;
    var t := Apply(s, Finish(w, message));
    if id in s.rows {
      assert t.rows[id].status == worker.at.outcome;
      assert s.rows[id].status == Expected(worker.cancelWritten);
    }
  }

  /** A write that changes no status. */
  predicate QuietWrite(a: Action) {
    WritesRows(a) && !a.MarkNext? && !a.CancelWrite? && !a.Finish? && !a.Recover?
  }

  ghost predicate SameStatuses(t: Table, u: Table) {
    forall id :: id in t && id in u ==> u[id].status == t[id].status
  }

  lemma QuietWorkerWrites(s: State, a: Action)
    requires Enabled(s, a) && (a.MeasureSource? || a.Flush?)
    ensures SameStatuses(s.rows, Apply(s, a).rows)
  {
    hide ApplySched, ApplyCall, ApplyLife, Enabled;
  }

  lemma QuietCallWrites(s: State, a: Action)
    requires RowsOk(s) && Enabled(s, a) && CallAction(a) && QuietWrite(a)
    ensures SameStatuses(s.rows, Apply(s, a).rows)
  {
    hide ApplySched, ApplyWorker, ApplyLife, Enabled;
  }

  lemma QuietWrites(s: State, a: Action)
    requires RowsOk(s) && Enabled(s, a) && QuietWrite(a)
    ensures SameStatuses(s.rows, Apply(s, a).rows)
  {
    hide ApplyWorker, ApplyCall, ApplyLife, Enabled;
    if WorkerAction(a) { QuietWorkerWrites(s, a); }
    else if CallAction(a) { QuietCallWrites(s, a); }
  }

  lemma LegalRecover(s: State)
    requires Enabled(s, Recover)
    ensures Legal(s, Recover)
  {
    hide ApplySched, ApplyWorker, ApplyCall, Enabled;
  }

  lemma StatusesStand(s: State, a: Action)
    requires Inv(s) && Enabled(s, a) && !a.MarkNext? && !a.CancelWrite? && !a.Finish? && !a.Recover?
    ensures SameStatuses(s.rows, Apply(s, a).rows)
  {
    hide Apply, Enabled, PassOk, NoneLost, PhaseOk, InterruptsOk, EntriesOk, NumbersOk, Fresh;
    if WritesRows(a) { QuietWrites(s, a); } else { OthersKeepRows(s, a); }
  }

  /** With fresh checks, a step keeps to the transition table unless it is a worker
      recording its outcome over a row a Cancel has written since the worker's mark. */
  lemma LegalStep(s: State, a: Action)
    requires Inv(s) && Exclusive(s) && Enabled(s, a) && FreshWrite(s, a)
    ensures Legal(s, a) <==> !Overwrites(s, a)
  {
    hide Apply, Enabled, Inv, Exclusive;
    if a.MarkNext? { LegalMark(s); }
    else if a.CancelWrite? { LegalCancel(s, a.call); }
    else if a.Finish? { LegalFinish(s, a.w, a.message); }
    else if a.Recover? { LegalRecover(s); }
    else { StatusesStand(s, a); }
  }

  // ------------------------------------------------------------ whole runs

  ghost predicate AllFresh(s: State, run: seq<Action>)
    requires Admissible(s, run)
    decreases |run|
  {
    run == [] || (FreshWrite(s, run[0]) && AllFresh(Apply(s, run[0]), run[1..]))
  }

  ghost predicate AllLegal(s: State, run: seq<Action>)
    requires Admissible(s, run)
    decreases |run|
  {
    run == [] || (Legal(s, run[0]) && AllLegal(Apply(s, run[0]), run[1..]))
  }

  ghost predicate NoOverwrite(s: State, run: seq<Action>)
    requires Admissible(s, run)
    decreases |run|
  {
    run == [] || (!Overwrites(s, run[0]) && NoOverwrite(Apply(s, run[0]), run[1..]))
  }

  lemma {:induction false} LegalRun(s: State, run: seq<Action>)
    requires Inv(s) && Exclusive(s) && Admissible(s, run) && AllFresh(s, run)
    ensures AllLegal(s, run) <==> NoOverwrite(s, run)
    ensures NoOverwrite(s, run) ==> Undisturbed(s, run)
    decreases |run|
  {
    hide ApplySched, ApplyWorker, ApplyCall, ApplyLife;
    if run != [] {
      LegalStep(s, run[0]);
      if !Overwrites(s, run[0]) {
        InvStep(s, run[0]);
        ExclusiveStep(s, run[0]);
        LegalRun(Apply(s, run[0]), run[1..]);
      }
    }
  }

  /** Over every run with fresh checks, statuses move only along the transition table
      if and only if no worker records an outcome after a Cancel wrote its row. */
  lemma StatusesFollowTheTable(s: State, run: seq<Action>)
    requires Initial(s) && Admissible(s, run) && AllFresh(s, run)
    ensures AllLegal(s, run) <==> NoOverwrite(s, run)
  {
    InitialInv(s);
    ExDown(s);
    LegalRun(s, run);
  }

  /** A terminal status is never left while the row exists, over any legal run. */
  lemma {:induction false} TerminalIsFinal(s: State, run: seq<Action>, id: int)
    requires Inv(s) && Admissible(s, run) && AllLegal(s, run)
    requires id in s.rows && Terminal(s.rows[id].status)
    ensures id in After(s, run).rows ==> After(s, run).rows[id].status == s.rows[id].status
    decreases |run|
  {
    hide ApplySched, ApplyWorker, ApplyCall, ApplyLife;
    if run != [] {
      var t := Apply(s, run[0]);
      InvStep(s, run[0]);
      if id in t.rows {
        TerminalIsFinal(t, run[1..], id);
      } else {
        IdsStep(s, run[0]);
        GoneStaysGone(t, run[1..], id);
      }
    }
  }

  lemma IdsStep(s: State, a: Action)
    requires Enabled(s, a)
    ensures s.nextId <= Apply(s, a).nextId
    ensures forall id :: id in Apply(s, a).rows && id < s.nextId ==> id in s.rows
  {
    hide ApplySched, ApplyWorker, ApplyCall, Enabled;
    if a.Crash? {
    } else if SchedAction(a) { SchedFrames(s, a); }
    else if WorkerAction(a) { WorkerFrames(s, a); }
    else if CallAction(a) { CallFrames(s, a); }
    else { LifeFrames(s, a); }
  }

  /** Ids are never reused: a deleted row does not come back. */
  lemma {:induction false} GoneStaysGone(s: State, run: seq<Action>, id: int)
    requires Admissible(s, run) && id !in s.rows && id < s.nextId
    ensures id !in After(s, run).rows
    decreases |run|
  {
    hide ApplySched, ApplyWorker, ApplyCall, ApplyLife;
    if run != [] {
      IdsStep(s, run[0]);
      GoneStaysGone(Apply(s, run[0]), run[1..], id);
    }
  }

  /** What a Cancel writes, whatever the row says by then. */
  lemma CancelStores(s: State, c: int)
    requires Enabled(s, CancelWrite(c)) && s.calls[c].id in s.rows
    ensures var t, id := Apply(s, CancelWrite(c)), s.calls[c].id;
            && id in t.rows && SameJob(s.rows[id], t.rows[id])
            && t.rows[id].status == Cancelled && t.rows[id].error == "cancelled" && t.rows[id].exitCode == None
            && t.rows[id].finished && t.rows[id].total == s.rows[id].total
            && (forall other :: other in s.rows && other != id ==> other in t.rows && t.rows[other] == s.rows[other])
            && c in t.calls && t.calls[c] == Call.CancelWritten(id)
  {
    hide ApplySched, ApplyWorker, ApplyLife;
  }

  // ------------------------------------------------------------ the measured size

  /** A worker of the job measures its source. */
  predicate Measures(s: State, a: Action, id: int) {
    a.MeasureSource? && a.w in s.workers && s.workers[a.w].job.id == id
  }

  ghost predicate NeverMeasures(s: State, run: seq<Action>, id: int)
    requires Admissible(s, run)
    decreases |run|
  {
    run == [] || (!Measures(s, run[0], id) && NeverMeasures(Apply(s, run[0]), run[1..], id))
  }

  ghost predicate Says(s: State, id: int, total: int) { id in s.rows ==> s.rows[id].total == total }

  lemma MeasureSays(s: State, w: int, total: int)
    requires Enabled(s, MeasureSource(w, Some(total))) && s.workers[w].job.total == 0
    ensures var t, id := Apply(s, MeasureSource(w, Some(total))), s.workers[w].job.id;
            && Says(t, id, total) && t.nextId == s.nextId
            && w in t.workers && t.workers[w].job == s.workers[w].job.(total := total)
  {
    hide ApplySched, ApplyCall, ApplyLife;
  }

  lemma SaysBySched(s: State, a: Action, id: int, total: int)
    requires Enabled(s, a) && (a.MarkNext? || a.Purge?) && Says(s, id, total)
    ensures Says(Apply(s, a), id, total)
  {
    hide ApplyWorker, ApplyCall, ApplyLife, CanTransition;
  }

  lemma SaysByWorker(s: State, a: Action, id: int, total: int)
    requires Enabled(s, a) && (a.MeasureSource? || a.Finish? || a.Flush?) && Says(s, id, total) && !Measures(s, a, id)
    ensures Says(Apply(s, a), id, total)
  {
    hide ApplySched, ApplyCall, ApplyLife, CanTransition;
  }

  lemma SaysByCall(s: State, a: Action, id: int, total: int)
    requires Enabled(s, a) && CallAction(a) && WritesRows(a) && id < s.nextId && Says(s, id, total)
    ensures Says(Apply(s, a), id, total)
  {
    hide ApplySched, ApplyWorker, ApplyLife;
  }

  lemma SaysByRecover(s: State, id: int, total: int)
    requires Enabled(s, Recover) && Says(s, id, total)
    ensures Says(Apply(s, Recover), id, total)
  {
    hide ApplySched, ApplyWorker, ApplyCall;
  }

  lemma {:induction false} SaysOn(s: State, run: seq<Action>, id: int, total: int)
    requires Admissible(s, run) && NeverMeasures(s, run, id) && id < s.nextId && Says(s, id, total)
    ensures Says(After(s, run), id, total)
    decreases |run|
  {
    hide Apply, Enabled, Says, Measures;
    if run != [] {
      var a := run[0];
      IdsStep(s, a);
      SaysNext(s, a, id, total);
      SaysOn(Apply(s, a), run[1..], id, total);
    }
  }

  lemma SaysNext(s: State, a: Action, id: int, total: int)
    requires Enabled(s, a) && !Measures(s, a, id) && id < s.nextId && Says(s, id, total)
    ensures Says(Apply(s, a), id, total)
  {
    hide Apply, Enabled, Measures;
    if !WritesRows(a) { OthersKeepRows(s, a); }
    else if a.MarkNext? || a.Purge? { SaysBySched(s, a, id, total); }
    else if WorkerAction(a) { SaysByWorker(s, a, id, total); }
    else if CallAction(a) { SaysByCall(s, a, id, total); }
    else { SaysByRecover(s, id, total); }
  }

  /** A measured size is what the row says from then on, for as long as there is a row and
      until a worker of the job measures again: no write of a status or of progress, no
      Cancel, no crash and no recovery changes it. */
  lemma SizeIsKept(s: State, w: int, total: int, run: seq<Action>)
    requires NumbersOk(s) && Enabled(s, MeasureSource(w, Some(total))) && s.workers[w].job.total == 0
    requires var t := Apply(s, MeasureSource(w, Some(total)));
             Admissible(t, run) && NeverMeasures(t, run, s.workers[w].job.id)
    ensures Says(After(Apply(s, MeasureSource(w, Some(total))), run), s.workers[w].job.id, total)
  {
    hide Apply, Says;
    MeasureSays(s, w, total);
    SaysOn(Apply(s, MeasureSource(w, Some(total))), run, s.workers[w].job.id, total);
  }

  // ------------------------------------------------------------ no job is lost

  /** In every reachable state of a running process, a running row has a worker that
      will still record an outcome, or is about to get one, or Stop has begun. No
      hypothesis on the interleaving is needed. */
  lemma NoJobIsLost(s: State, run: seq<Action>, id: int)
    requires Initial(s) && Admissible(s, run)
    requires var t := After(s, run); t.phase == Up && id in t.rows && t.rows[id].status == Running
    ensures Carried(After(s, run), id)
  {
    hide ApplySched, ApplyWorker, ApplyCall, ApplyLife;
    InitialInv(s);
    InvRun(s, run);
  }

  lemma NoStep(s: State)
    ensures Admissible(s, []) && After(s, []) == s
  {
  }

  lemma FirstStep(s: State, a: Action, run: seq<Action>)
    requires Enabled(s, a) && Admissible(Apply(s, a), run)
    ensures Admissible(s, [a] + run) && After(s, [a] + run) == After(Apply(s, a), run)
  {
    hide Apply, Enabled;
    assert ([a] + run)[1..] == run;
  }

  lemma CrashIs(s: State)
    ensures Enabled(s, Crash) && Apply(s, Crash) == StartAll(s.rows, s.nextId)
  {
    hide ApplySched, ApplyWorker, ApplyCall;
  }

  lemma RecoverIs(s: State)
    requires s.phase == Down
    ensures Enabled(s, Recover) && Apply(s, Recover) == RecoverStep(s)
  {
    hide ApplySched, ApplyWorker, ApplyCall, RecoverStep;
  }

  lemma LaunchIs(s: State)
    requires s.phase == Recovered
    ensures Enabled(s, Launch) && Apply(s, Launch) == s.(phase := Up)
  {
    hide ApplySched, ApplyWorker, ApplyCall;
  }

  lemma RestartRows(s: State)
    ensures Admissible(s, [Crash, Recover, Launch])
    ensures After(s, [Crash, Recover, Launch]).rows == InterruptRunning(s.rows)
  {
    hide Admissible, After, Apply, Enabled, InterruptRunning;
    var down := StartAll(s.rows, s.nextId);
    var recovered := RecoverStep(down);
    CrashIs(s);
    RecoverIs(down);
    LaunchIs(recovered);
    assert [Crash, Recover, Launch] == [Crash] + [Recover, Launch] && [Recover, Launch] == [Recover] + [Launch];
    assert [Launch] + [] == [Launch];
    NoStep(recovered.(phase := Up));
    FirstStep(recovered, Launch, []);
    FirstStep(down, Recover, [Launch]);
    FirstStep(s, Crash, [Recover, Launch]);
  }

  lemma UnfinishedAreRunnable(s: State)
    requires Inv(s)
    ensures var after := InterruptRunning(s.rows);
            forall id :: id in after && !Terminal(after[id].status) ==> id in RunnableIds(after)
  {
    hide PassOk, NoneLost, PhaseOk, InterruptsOk, EntriesOk, NumbersOk;
  }

  /** Crash at any reachable state, then Start: exactly the running rows change status,
      to interrupted, and every row that is not terminal is then one the queue returns. */
  lemma RestartRecovers(s: State, run: seq<Action>)
    requires Initial(s) && Admissible(s, run)
    ensures Admissible(After(s, run), [Crash, Recover, Launch])
    ensures var before := After(s, run).rows;
            var after := After(After(s, run), [Crash, Recover, Launch]).rows;
            && before.Keys == after.Keys
            && (forall id :: id in before ==>
                  after[id].status == (if before[id].status == Running then Interrupted else before[id].status))
            && (forall id :: id in after && !Terminal(after[id].status) ==> id in RunnableIds(after))
  {
    hide Apply, Inv, Initial, Admissible, After;
    InitialInv(s);
    InvRun(s, run);
    RestartRows(After(s, run));
    UnfinishedAreRunnable(After(s, run));
  }

  /** What the queue then returns, when it asks for enough: every unfinished job. */
  lemma RecoveredQueueIsComplete(t: Table, limit: nat, id: int)
    requires Keyed(t) && id in RunnableIds(t) && |RunnableIds(t)| <= limit
    ensures Listed(Queue(t, limit), id)
  {
    var ids := Sorted(RunnableIds(t));
    var q := Queue(t, limit);
    assert ids[..Min(limit, |ids|)] == ids;
    assert id in ids;
    var k :| 0 <= k < |ids| && ids[k] == id;
    assert q[k] == t[ids[k]];
  }
}
