/** Short runs that show why the hypotheses of the run theorems are there, and what the
    theorems do not promise. Each starts from a database holding one queued job. */
module ManagerRuns {
  import opened Common
  import opened JobState
  import opened JobTable
  import opened JobManager
  import opened ManagerExclusion
  import opened ManagerRows
  import opened ManagerOrder
  import opened ManagerPool

  // ------------------------------------------------------------ building runs

  /** Some run with fresh checks leads from s to t; a calm one also revives nothing. */
  ghost predicate Reaches(s: State, t: State, calm: bool) {
    exists run :: Leads(s, run, t, calm)
  }

  ghost predicate Leads(s: State, run: seq<Action>, t: State, calm: bool) {
    Admissible(s, run) && AllFresh(s, run) && (calm ==> Undisturbed(s, run)) && After(s, run) == t
  }

  lemma {:induction false} LeadsFurther(s: State, run: seq<Action>, t: State, calm: bool, a: Action)
    requires Leads(s, run, t, calm) && Enabled(t, a) && FreshWrite(t, a) && (calm ==> !Revives(t, a))
    ensures Leads(s, run + [a], Apply(t, a), calm)
    decreases |run|
  {
    if run == [] {
      assert [] + [a] == [a];
      assert [a][1..] == [];
    } else {
      LeadsFurther(Apply(s, run[0]), run[1..], t, calm, a);
      assert (run + [a])[1..] == run[1..] + [a];
    }
  }

  lemma Step(s: State, t: State, calm: bool, a: Action, u: State)
    requires Reaches(s, t, calm) && Enabled(t, a) && FreshWrite(t, a) && (calm ==> !Revives(t, a))
    requires u == Apply(t, a)
    ensures Reaches(s, u, calm)
  {
    var run :| Leads(s, run, t, calm);
    LeadsFurther(s, run, t, calm, a);
  }

  // ------------------------------------------------------------ the common beginning

  predicate OneQueued(j: Job) { j.id == 1 && j.status == Queued }

  function Start(j: Job): State { StartAll(map[1 := j], 2) }

  lemma StartIsInitial(j: Job)
    requires OneQueued(j)
    ensures Initial(Start(j)) && Reaches(Start(j), Start(j), true)
  {
    assert Leads(Start(j), [], Start(j), true);
  }

  lemma QueueOfOne(t: Table, j: Job, limit: nat)
    requires t == map[1 := j] && j.id == 1 && Runnable(j.status) && limit > 0
    ensures Queue(t, limit) == [j]
  {
    QueueIsOldestFirst(t, limit);
    assert RunnableIds(t) == {1};
    assert |Queue(t, limit)| == 1;
    assert Queue(t, limit)[0].id == 1;
  }

  function Booted(j: Job): State { Start(j).(phase := Up) }

  lemma ReachBooted(j: Job)
    requires OneQueued(j)
    ensures Reaches(Start(j), Booted(j), true)
  {
    hide Reaches, Apply, Enabled, Initial;
    var s := Start(j);
    StartIsInitial(j);
    assert InterruptRunning(s.rows) == s.rows;
    RecoverIs(s);
    Step(s, s, true, Recover, s.(phase := Recovered));
    LaunchIs(s.(phase := Recovered));
    Step(s, s.(phase := Recovered), true, Launch, Booted(j));
  }

  /** The queue has been read: the scheduler holds a copy of the job. */
  function Queried(j: Job): State { Booted(j).(sched := Picking(1, [j])) }

  lemma ReachQueried(j: Job)
    requires OneQueued(j)
    ensures Reaches(Start(j), Queried(j), true)
  {
    hide Reaches;
    var s, b := Start(j), Booted(j);
    ReachBooted(j);
    Step(s, b, true, ReadLimit(1), b.(sched := HasLimit(1)));
    Step(s, b.(sched := HasLimit(1)), true, CountFree, b.(sched := HasFree(1, 1)));
    QueueOfOne(b.rows, j, 1);
    Step(s, b.(sched := HasFree(1, 1)), true, QueryQueue, Queried(j));
  }

  // ---- what single steps do to a table of one row

  lemma MarkOne(s: State, limit: nat, r: Job, job: Job)
    requires s.sched == Picking(limit, [job]) && s.rows == map[1 := r] && job.id == 1 && Runnable(job.status)
    ensures MarkNextStep(s) == s.(rows := map[1 := WithStatus(r, Running, "", None)],
                                  sched := Marked(limit, job.(status := Running), [], false))
  {
    assert [job][1..] == [];
  }

  lemma CancelOne(s: State, r: Job, read: Status, w: Worker)
    requires s.rows == map[1 := r] && s.calls == map[0 := CancelChecked(1, read)]
    requires s.workers == map[0 := w] && w.job.id == 1 && !s.sched.Marked?
    ensures CancelWriteStep(s, 0) ==
            s.(rows := map[1 := WithStatus(r, Cancelled, "cancelled", None)],
               workers := map[0 := w.(cancelWritten := true)], calls := map[0 := CancelWritten(1)])
  {
    assert NoteCancel(s, 1).workers == map[0 := w.(cancelWritten := true)];
  }

  lemma FinishOne(s: State, r: Job, w: Worker, message: string)
    requires s.rows == map[1 := r] && s.workers == map[0 := w] && w.job.id == 1 && w.job.status == Running
    requires w.at.Finishing? && CanTransition(Running, w.at.outcome)
    ensures FinishStep(s, 0, message) ==
            s.(rows := map[1 := WithStatus(r, w.at.outcome, message, w.at.code)],
               workers := map[0 := w.(at := Leaving)])
  {
  }

  function RunningRow(j: Job): Job { WithStatus(j, Running, "", None) }

  function CancelledRow(j: Job): Job { WithStatus(RunningRow(j), Cancelled, "cancelled", None) }

  function Copy(j: Job): Job { j.(status := Running) }

  /** Worker 0 is at work on job 1; its transfer has started. */
  function Busy(j: Job, row: Job, w: Worker): State {
    Booted(j).(rows := map[1 := row], sched := Picking(1, []), running := map[1 := 0],
               workers := map[0 := w], nextWorker := 1, helpers := {1})
  }

  function Marking(j: Job): State {
    Booted(j).(rows := map[1 := RunningRow(j)], sched := Marked(1, Copy(j), [], false))
  }

  lemma ReachMarking(j: Job)
    requires OneQueued(j)
    ensures Reaches(Start(j), Marking(j), true)
  {
    hide Reaches;
    ReachQueried(j);
    MarkOne(Queried(j), 1, j, j);
    Step(Start(j), Queried(j), true, MarkNext, Marking(j));
  }

  function Transferring(j: Job): State {
    Busy(j, RunningRow(j), Worker(Copy(j), AtTransfer, false, false))
  }

  lemma ReachTransferring(j: Job)
    requires OneQueued(j) && j.total != 0
    ensures Reaches(Start(j), Transferring(j), true)
  {
    hide Reaches;
    var s := Start(j);
    ReachMarking(j);
    var b := Busy(j, RunningRow(j), Worker(Copy(j), AtServer, false, false)).(helpers := {});
    Step(s, Marking(j), true, Register, b);
    var c := b.(workers := map[0 := Worker(Copy(j), AtSize, false, false)]);
    Step(s, b, true, LookUpServer(0, true), c);
    Step(s, c, true, MeasureSource(0, None), Transferring(j));
  }

  // ------------------------------------------------------------ a Cancel that is overwritten

  function CancelledWorker(j: Job, at: Position): Worker { Worker(Copy(j), at, false, true) }

  function CancelledMidTransfer(j: Job): State {
    Busy(j, CancelledRow(j), CancelledWorker(j, AtTransfer)).(calls := map[0 := CancelWritten(1)])
  }

  lemma ReachCancelledMidTransfer(j: Job)
    requires OneQueued(j) && j.total != 0
    ensures Reaches(Start(j), CancelledMidTransfer(j), true)
  {
    hide Reaches;
    var s, t0 := Start(j), Transferring(j);
    ReachTransferring(j);
    var t1 := t0.(calls := map[0 := CancelChecked(1, Running)]);
    Step(s, t0, true, CancelRead(0, 1), t1);
    CancelOne(t1, RunningRow(j), Running, t0.workers[0]);
    Step(s, t1, true, CancelWrite(0), CancelledMidTransfer(j));
  }

  /** Recording the exit code is about to turn the cancelled row into done. */
  ghost predicate AboutToOverwrite(t: State) {
    && Enabled(t, Finish(0, "")) && 1 in t.rows && t.rows[1].status == Cancelled
    && Apply(t, Finish(0, "")).rows == t.rows[1 := WithStatus(t.rows[1], Done, "", Some(0))]
    && !Legal(t, Finish(0, ""))
  }

  /** A Cancel is written while lftp runs, lftp then exits with status 0: the cancelled
      row becomes done. Every check in the run is fresh. */
  lemma ExitCodeOverwritesCancel(j: Job)
    requires OneQueued(j) && j.total != 0
    ensures exists t :: Reaches(Start(j), t, true) && AboutToOverwrite(t)
  {
    hide Reaches;
    var s, t2 := Start(j), CancelledMidTransfer(j);
    ReachCancelledMidTransfer(j);
    var w := CancelledWorker(j, Finishing(Done, Some(0)));
    var t3 := t2.(workers := map[0 := w]);
    Step(s, t2, true, EndTransfer(0, ExitCode(0)), t3);
    FinishOverwrites(t3, CancelledRow(j), w);
  }

  lemma FinishOverwrites(t: State, r: Job, w: Worker)
    requires t.rows == map[1 := r] && r.status == Cancelled && t.workers == map[0 := w]
    requires w.job.id == 1 && w.job.status == Running && w.at == Finishing(Done, Some(0))
    ensures AboutToOverwrite(t)
  {
    FinishOne(t, r, w, "");
    var u := Apply(t, Finish(0, ""));
    assert u.rows[1].status == Done;
  }

  // ------------------------------------------------------------ a cancelled job revived

  /** lftp fails, the worker re-reads its row, then a Cancel runs to its end, then the
      worker looks at its context. */
  function Reviving(j: Job): State {
    Busy(j, CancelledRow(j), Worker(Copy(j), Finishing(Interrupted, None), true, true)).(calls := map[])
  }

  lemma ReachReviving(j: Job)
    requires OneQueued(j) && j.total != 0
    ensures Reaches(Start(j), Reviving(j), true)
  {
    hide Reaches, Enabled, ApplySched, ApplyLife;
    var s, t0 := Start(j), Transferring(j);
    ReachTransferring(j);
    var t1 := Busy(j, RunningRow(j), Worker(Copy(j), AtReRead, false, false));
    Step(s, t0, true, EndTransfer(0, TransferError), t1);
    var t2 := Busy(j, RunningRow(j), Worker(Copy(j), AtContext, false, false));
    Step(s, t1, true, ReRead(0), t2);
    var t3 := t2.(calls := map[0 := CancelChecked(1, Running)]);
    Step(s, t2, true, CancelRead(0, 1), t3);
    ReachReviving2(j, t3);
  }

  lemma ReachReviving2(j: Job, t3: State)
    requires OneQueued(j)
    requires t3 == Busy(j, RunningRow(j), Worker(Copy(j), AtContext, false, false))
                     .(calls := map[0 := CancelChecked(1, Running)])
    requires Reaches(Start(j), t3, true)
    ensures Reaches(Start(j), Reviving(j), true)
  {
    hide Reaches;
    var s := Start(j);
    var b := Busy(j, CancelledRow(j), Worker(Copy(j), AtContext, false, true));
    var t4 := b.(calls := map[0 := CancelWritten(1)]);
    CancelOne(t3, RunningRow(j), Running, t3.workers[0]);
    Step(s, t3, true, CancelWrite(0), t4);
    ReachReviving3(j, t4);
  }

  lemma ReachReviving3(j: Job, t4: State)
    requires t4 == Busy(j, CancelledRow(j), Worker(Copy(j), AtContext, false, true)).(calls := map[0 := CancelWritten(1)])
    requires Reaches(Start(j), t4, true)
    ensures Reaches(Start(j), Reviving(j), true)
  {
    hide Reaches, Enabled, ApplySched, ApplyLife, NoteCancel;
    var s := Start(j);
    var b := Busy(j, CancelledRow(j), Worker(Copy(j), AtContext, false, true));
    var t5 := b.(calls := map[0 := CancelFound(1, 0)]);
    Step(s, t4, true, CancelLookUp(0), t5);
    var t6 := b.(workers := map[0 := Worker(Copy(j), AtContext, true, true)]);
    assert t5.calls - {0} == map[];
    Step(s, t5, true, CancelFire(0), t6);
    Step(s, t6, true, CheckContext(0), Reviving(j));
  }

  /** The next step breaks the transition table and puts the cancelled job back into the
      queue, although marking and Cancel were never disturbed. */
  lemma StaleReReadRevivesCancelledJob(j: Job)
    requires OneQueued(j) && j.total != 0
    ensures Reaches(Start(j), Reviving(j), true)
    ensures Enabled(Reviving(j), Finish(0, "")) && Reviving(j).rows[1].status == Cancelled
    ensures Apply(Reviving(j), Finish(0, "")).rows[1].status == Interrupted
    ensures 1 in RunnableIds(Apply(Reviving(j), Finish(0, "")).rows)
  {
    hide Reaches;
    ReachReviving(j);
    FinishOne(Reviving(j), CancelledRow(j), Reviving(j).workers[0], "");
  }

  function RevivedRow(j: Job): Job { WithStatus(CancelledRow(j), Interrupted, "", None) }

  /** The scheduler restarts the revived job while its first worker is still cleaning up. */
  function Doubled(j: Job): State {
    Booted(j).(rows := map[1 := RunningRow2(j)], sched := Picking(2, []), running := map[1 := 1],
               workers := map[0 := Worker(Copy(j), Leaving, true, true),
                              1 := Worker(RevivedRow(j).(status := Running), AtServer, false, false)],
               nextWorker := 2, helpers := {1})
  }

  function RunningRow2(j: Job): Job { WithStatus(RevivedRow(j), Running, "", None) }

  function Revived(j: Job): State { Busy(j, RevivedRow(j), Worker(Copy(j), Leaving, true, true)) }

  lemma ReachDisturbed(j: Job)
    requires OneQueued(j) && j.total != 0
    ensures Reaches(Start(j), Reviving(j), false)
  {
    ReachReviving(j);
    var run :| Leads(Start(j), run, Reviving(j), true);
    assert Leads(Start(j), run, Reviving(j), false);
  }

  lemma ReachRevived(j: Job)
    requires OneQueued(j) && j.total != 0
    ensures Reaches(Start(j), Revived(j), false)
  {
    hide Reaches;
    var s, t0 := Start(j), Reviving(j);
    ReachDisturbed(j);
    FinishOne(t0, CancelledRow(j), t0.workers[0], "");
    Step(s, t0, false, Finish(0, ""), Revived(j));
  }

  lemma ReachSecondQuery(j: Job)
    requires OneQueued(j) && j.total != 0
    ensures Reaches(Start(j), Revived(j).(sched := Picking(2, [RevivedRow(j)])), false)
  {
    hide Reaches;
    var s, t1 := Start(j), Revived(j);
    ReachRevived(j);
    Step(s, t1, false, EndPass, t1.(sched := Idle));
    Step(s, t1.(sched := Idle), false, ReadLimit(2), t1.(sched := HasLimit(2)));
    Step(s, t1.(sched := HasLimit(2)), false, CountFree, t1.(sched := HasFree(2, 1)));
    QueueOfOne(t1.rows, RevivedRow(j), 1);
    Step(s, t1.(sched := HasFree(2, 1)), false, QueryQueue, t1.(sched := Picking(2, [RevivedRow(j)])));
  }

  lemma ReachDoubled(j: Job)
    requires OneQueued(j) && j.total != 0
    ensures Reaches(Start(j), Doubled(j), false)
  {
    hide Reaches;
    var s, t1 := Start(j), Revived(j);
    ReachSecondQuery(j);
    var t2 := t1.(sched := Picking(2, [RevivedRow(j)]));
    var t3 := t1.(rows := map[1 := RunningRow2(j)], sched := Marked(2, RevivedRow(j).(status := Running), [], false));
    MarkOne(t2, 2, RevivedRow(j), RevivedRow(j));
    Step(s, t2, false, MarkNext, t3);
    assert t3.running[1 := 1] == map[1 := 1];
    Step(s, t3, false, Register, Doubled(j));
  }

  /** Two workers execute one job; then the first, leaving, removes the second's entry,
      so that neither a later Cancel nor Stop can find the second one's context. */
  lemma FreshMarksAloneAllowTwoWorkers(j: Job)
    requires OneQueued(j) && j.total != 0
    ensures Reaches(Start(j), Doubled(j), false)
    ensures {0, 1} <= ExecutingWorkers(Doubled(j))
    ensures Doubled(j).workers[0].job.id == Doubled(j).workers[1].job.id == 1
    ensures Enabled(Doubled(j), Unregister(0))
    ensures var t := Apply(Doubled(j), Unregister(0)); t.running == map[] && 1 in ExecutingWorkers(t)
  {
    hide Reaches;
    ReachDoubled(j);
    var t := Apply(Doubled(j), Unregister(0));
    assert t.running == map[1 := 1] - {1};
  }

  /** The first worker has removed the entry under which the second one was registered. */
  function Orphaned(j: Job): State {
    Doubled(j).(running := map[],
                workers := map[0 := Worker(Copy(j), Ended, true, true),
                               1 := Worker(RevivedRow(j).(status := Running), AtServer, false, false)])
  }

  lemma ReachOrphaned(j: Job)
    requires OneQueued(j) && j.total != 0
    ensures Reaches(Start(j), Orphaned(j), false)
  {
    hide Reaches;
    ReachDoubled(j);
    assert map[1 := 1] - {1} == map[];
    Step(Start(j), Doubled(j), false, Unregister(0), Orphaned(j));
  }

  /** Stop collects the cancel functions it finds: the second worker's is not among them.
      Stop waits for that worker, and nothing has told it to end. */
  lemma WorkerEscapesStop(j: Job)
    requires OneQueued(j) && j.total != 0
    ensures exists t :: Reaches(Start(j), t, false) && t.stop.AwaitWorkers?
                        && 1 in ExecutingWorkers(t) && !t.workers[1].cancelled
  {
    hide Reaches;
    ReachOrphaned(j);
    StopCollectsNobody(Start(j), Orphaned(j));
    var t := Orphaned(j).(sched := Exited, stopping := true, stop := AwaitLoop({}));
    StopFindsNobody(Start(j), t);
    assert Reaches(Start(j), t.(stop := AwaitWorkers), false);
  }

  lemma StopCollectsNobody(s: State, t: State)
    requires Reaches(s, t, false) && t.phase == Up && t.running == map[] && !t.stopping
    requires t.sched.Picking? && t.sched.queue == []
    ensures Reaches(s, t.(sched := Exited, stopping := true, stop := AwaitLoop({})), false)
  {
    hide Reaches;
    var t1 := t.(sched := Idle);
    Step(s, t, false, EndPass, t1);
    assert t1.running.Values == {};
    var t2 := t1.(stopping := true, stop := AwaitLoop({}));
    Step(s, t1, false, StopBegin, t2);
    Step(s, t2, false, ExitLoop, t2.(sched := Exited));
  }

  lemma StopFindsNobody(s: State, t: State)
    requires Reaches(s, t, false) && t.stop == AwaitLoop({}) && t.sched.Exited?
    ensures Reaches(s, t.(stop := AwaitWorkers), false)
  {
    hide Reaches;
    Step(s, t, false, StopLoopEnded, t.(stop := Firing({})));
    Step(s, t.(stop := Firing({})), false, StopFired, t.(stop := AwaitWorkers));
  }

  /** The next step deletes a job that waits to be resumed. */
  ghost predicate AboutToDelete(t: State) {
    && Enabled(t, DeleteWrite(0)) && t.calls[0] == DeleteChecked(1)
    && 1 in RunnableIds(t.rows) && 1 !in Apply(t, DeleteWrite(0)).rows
  }

  function DeletingRevived(j: Job): State { Revived(j).(calls := map[0 := DeleteChecked(1)]) }

  lemma DeletingRevivedDeletes(j: Job)
    requires OneQueued(j)
    ensures AboutToDelete(DeletingRevived(j))
  {
    hide ApplySched, ApplyWorker, ApplyLife;
  }

  /** A delete call finds a cancelled job; before it deletes, the job is interrupted and
      waits to be resumed. The call deletes it. */
  lemma DeleteRemovesAWaitingJob(j: Job)
    requires OneQueued(j) && j.total != 0
    ensures exists t :: Reaches(Start(j), t, false) && AboutToDelete(t)
  {
    hide Reaches;
    var s, t0 := Start(j), Reviving(j);
    ReachDisturbed(j);
    var t1 := t0.(calls := map[0 := DeleteChecked(1)]);
    Step(s, t0, false, DeleteRead(0, 1), t1);
    FinishOne(t1, CancelledRow(j), t1.workers[0], "");
    Step(s, t1, false, Finish(0, ""), DeletingRevived(j));
    DeletingRevivedDeletes(j);
  }

  // ------------------------------------------------------------ a stale mark

  /** A Cancel that completes between the queue's read and the mark is overwritten by
      the mark: the hypothesis of fresh writes is needed. */
  lemma StaleMarkOverwritesCancel(j: Job)
    requires OneQueued(j)
    ensures exists t :: Reaches(Start(j), t, true) && Enabled(t, MarkNext) && !FreshWrite(t, MarkNext) && 1 in t.rows
                        && t.rows[1].status == Cancelled && Apply(t, MarkNext).rows[1].status == Running
  {
    hide Reaches;
    var s, t0 := Start(j), Queried(j);
    ReachQueried(j);
    var t1 := t0.(calls := map[0 := CancelChecked(1, Queued)]);
    Step(s, t0, true, CancelRead(0, 1), t1);
    var row := WithStatus(j, Cancelled, "cancelled", None);
    var t2 := t0.(rows := map[1 := row], calls := map[0 := CancelWritten(1)]);
    assert NoteCancel(t1, 1) == t1;
    Step(s, t1, true, CancelWrite(0), t2);
    assert Apply(t2, MarkNext).rows == map[1 := WithStatus(row, Running, "", None)];
  }

  /** The other half: a Cancel that has read running writes cancelled over an outcome that
      was recorded meanwhile. */
  lemma StaleCancelOverwritesDone(j: Job)
    requires OneQueued(j) && j.total != 0
    ensures exists t :: Reaches(Start(j), t, true) && Enabled(t, CancelWrite(0)) && !FreshWrite(t, CancelWrite(0))
                        && 1 in t.rows && t.rows[1].status == Done
                        && Apply(t, CancelWrite(0)).rows[1].status == Cancelled
  {
    hide Reaches, ApplySched, ApplyWorker, ApplyLife;
    ReachOvertaken(j);
    CancelOne(Overtaken(j), DoneRow(j), Running, Worker(Copy(j), Leaving, false, false));
  }

  /** A Cancel has read running; the worker has recorded exit code 0 since. */
  function Overtaken(j: Job): State {
    Busy(j, DoneRow(j), Worker(Copy(j), Leaving, false, false)).(calls := map[0 := CancelChecked(1, Running)])
  }

  lemma ReachOvertaken(j: Job)
    requires OneQueued(j) && j.total != 0
    ensures Reaches(Start(j), Overtaken(j), true)
  {
    hide Reaches, Enabled, ApplySched, ApplyLife;
    var s, t0 := Start(j), Transferring(j);
    ReachTransferring(j);
    var t1 := t0.(calls := map[0 := CancelChecked(1, Running)]);
    Step(s, t0, true, CancelRead(0, 1), t1);
    var w := Worker(Copy(j), Finishing(Done, Some(0)), false, false);
    var t2 := t1.(workers := map[0 := w]);
    Step(s, t1, true, EndTransfer(0, ExitCode(0)), t2);
    FinishOne(t2, RunningRow(j), w, "");
    Step(s, t2, true, Finish(0, ""), Overtaken(j));
  }

  // ------------------------------------------------------------ a start out of line

  /** Job 1 has been queued and then cancelled, job 2 was created meanwhile. */
  function OutOfLine(j: Job, k: Job): State {
    Queried(j).(rows := map[1 := WithStatus(j, Cancelled, "cancelled", None), 2 := NewRow(k.(status := Queued), 2)],
                nextId := 3, calls := map[0 := CancelWritten(1)])
  }

  lemma ReachOutOfLine(j: Job, k: Job)
    requires OneQueued(j)
    ensures Reaches(Start(j), OutOfLine(j, k), true)
  {
    hide Reaches, Enabled, ApplyLife;
    var s, t0 := Start(j), Queried(j);
    ReachQueried(j);
    var rows := map[1 := j, 2 := NewRow(k.(status := Queued), 2)];
    var t1 := t0.(rows := rows, nextId := 3);
    assert t0.rows[2 := NewRow(k.(status := Queued), 2)] == rows;
    Step(s, t0, true, Create(k), t1);
    var t2 := t1.(calls := map[0 := CancelChecked(1, Queued)]);
    Step(s, t1, true, CancelRead(0, 1), t2);
    assert NoteCancel(t2, 1) == t2;
    Step(s, t2, true, CancelWrite(0), OutOfLine(j, k));
  }

  /** Nobody older is waiting, and yet a row is started before job 2: the cancelled one. */
  lemma StaleStartIsExtra(j: Job, k: Job)
    requires OneQueued(j)
    ensures exists t :: Reaches(Start(j), t, true) && HasPlace(t, 2) && Admissible(t, [MarkNext])
                        && KeepsWaiting(t, [MarkNext], 2)
                        && Older(t, 2) == {} && CountStarts(t, [MarkNext]) == 1 && CountExtra(t, [MarkNext], 2) == 1
  {
    hide Reaches;
    ReachOutOfLine(j, k);
    OneStaleStart(j, k);
  }

  lemma OneStaleStart(j: Job, k: Job)
    requires OneQueued(j)
    ensures var t := OutOfLine(j, k);
            && HasPlace(t, 2) && Admissible(t, [MarkNext]) && KeepsWaiting(t, [MarkNext], 2)
            && Older(t, 2) == {} && CountStarts(t, [MarkNext]) == 1 && CountExtra(t, [MarkNext], 2) == 1
  {
    var t := OutOfLine(j, k);
    assert [MarkNext][1..] == [];
    assert Starts(t, MarkNext) && StaleStart(t, MarkNext);
    assert Waits(t, 2) && Waits(Apply(t, MarkNext), 2);
    assert KeepsWaiting(Apply(t, MarkNext), [], 2);
  }

  // ------------------------------------------------------------ a Cancel that finds nobody

  /** A Cancel between the mark and the registration finds no cancel function: the call
      ends, the row says cancelled, and a worker starts with a live context. */
  lemma CancelBetweenMarkAndRegisterFindsNobody(j: Job)
    requires OneQueued(j)
    ensures exists t :: Reaches(Start(j), t, true) && t.calls == map[] && 1 in t.rows && t.rows[1].status == Cancelled
                        && 0 in t.workers && t.workers[0].job.id == 1
                        && Live(t.workers[0]) && !t.workers[0].cancelled
  {
    hide Reaches, Enabled;
    var s, t0 := Start(j), Marking(j);
    ReachMarking(j);
    var t1 := t0.(calls := map[0 := CancelChecked(1, Running)]);
    Step(s, t0, true, CancelRead(0, 1), t1);
    var t2 := Booted(j).(rows := map[1 := CancelledRow(j)], sched := Marked(1, Copy(j), [], true));
    assert NoteCancel(t1, 1).workers == map[];
    Step(s, t1, true, CancelWrite(0), t2.(calls := map[0 := CancelWritten(1)]));
    assert map[0 := CancelWritten(1)] - {0} == map[];
    Step(s, t2.(calls := map[0 := CancelWritten(1)]), true, CancelLookUp(0), t2);
    var t3 := Busy(j, CancelledRow(j), Worker(Copy(j), AtServer, false, true)).(helpers := {});
    Step(s, t2, true, Register, t3);
  }

  // ------------------------------------------------------------ what Stop leaves behind

  function DoneRow(j: Job): Job { WithStatus(RunningRow(j), Done, "", Some(0)) }

  function Finished(j: Job): State {
    Booted(j).(rows := map[1 := DoneRow(j)], sched := Picking(1, []), nextWorker := 1, helpers := {1})
  }

  lemma ReachFinished(j: Job)
    requires OneQueued(j) && j.total != 0
    ensures Reaches(Start(j), Finished(j), true)
  {
    hide Reaches, Enabled, ApplySched, ApplyCall;
    var s, t0 := Start(j), Transferring(j);
    ReachTransferring(j);
    var t1 := Busy(j, RunningRow(j), Worker(Copy(j), Finishing(Done, Some(0)), false, false));
    Step(s, t0, true, EndTransfer(0, ExitCode(0)), t1);
    var t2 := Busy(j, DoneRow(j), Worker(Copy(j), Leaving, false, false));
    Step(s, t1, true, Finish(0, ""), t2);
    var t3 := Finished(j).(workers := map[0 := Worker(Copy(j), Ended, false, false)]);
    assert t2.running - {1} == map[];
    Step(s, t2, true, Unregister(0), t3);
    assert t3.workers - {0} == map[];
    Step(s, t3, true, Leave(0), Finished(j));
  }

  function Stopped(j: Job): State {
    Finished(j).(sched := Exited, stopping := true, stop := Returned)
  }

  lemma ReachStopped(j: Job)
    requires OneQueued(j) && j.total != 0
    ensures Reaches(Start(j), Stopped(j), true)
  {
    hide Reaches, Enabled, ApplyWorker, ApplyCall;
    var s, t0 := Start(j), Finished(j).(sched := Idle);
    ReachFinished(j);
    Step(s, Finished(j), true, EndPass, t0);
    var t1 := t0.(stopping := true, stop := AwaitLoop({}));
    assert t0.running.Values == {};
    Step(s, t0, true, StopBegin, t1);
    Step(s, t1, true, ExitLoop, t1.(sched := Exited));
    FireNobody(s, t1.(sched := Exited));
  }

  lemma FireNobody(s: State, t: State)
    requires Reaches(s, t, true) && t.stop == AwaitLoop({}) && t.sched.Exited? && t.workers == map[]
    ensures Reaches(s, t.(stop := Returned), true)
  {
    hide Reaches, Enabled, ApplySched, ApplyWorker, ApplyCall;
    var t2 := t.(stop := Firing({}));
    Step(s, t, true, StopLoopEnded, t2);
    Step(s, t2, true, StopFired, t2.(stop := AwaitWorkers));
    Step(s, t2.(stop := AwaitWorkers), true, StopReturn, t.(stop := Returned));
  }

  /** Stop waits for workers, not for their helpers: a progress flush can still reach the
      table after Stop has returned. Only statuses are at rest. */
  lemma HelpersOutliveStop(j: Job)
    requires OneQueued(j) && j.total != 0
    ensures exists t :: Reaches(Start(j), t, true) && t.stop.Returned? && AboutToFlush(t)
  {
    hide Reaches, AboutToFlush;
    ReachStopped(j);
    StoppedFlushes(j);
  }

  /** A progress write of job 1 is possible. */
  predicate AboutToFlush(t: State) {
    Enabled(t, Flush(1, 7, 0, 0)) && 1 in t.rows && Apply(t, Flush(1, 7, 0, 0)).rows[1].transferred == 7
  }

  lemma StoppedFlushes(j: Job)
    ensures AboutToFlush(Stopped(j)) && Stopped(j).stop.Returned?
  {
    hide ApplySched, ApplyCall, ApplyLife;
    assert ApplyWorker(Stopped(j), Flush(1, 7, 0, 0)).rows[1] == DoneRow(j).(transferred := 7, speed := 0, eta := 0);
  }

  /** Stop waits for a worker that is about to record failed over running. */
  predicate AboutToFail(t: State) {
    && t.stop.AwaitWorkers? && Enabled(t, Finish(0, ""))
    && 1 in t.rows && t.rows[1].status == Running && Apply(t, Finish(0, "")).rows[1].status == Failed
  }

  /** Stop records running jobs as interrupted only when it catches them in the transfer:
      a job caught measuring its source is recorded as failed, and failed is terminal. */
  lemma StopWhileMeasuringFailsTheJob(j: Job)
    requires OneQueued(j) && j.total == 0
    ensures exists t :: Reaches(Start(j), t, true) && AboutToFail(t)
  {
    hide Reaches;
    var s := Start(j);
    ReachMarking(j);
    var t0 := Busy(j, RunningRow(j), Worker(Copy(j), AtServer, false, false)).(helpers := {});
    Step(s, Marking(j), true, Register, t0);
    var t1 := t0.(workers := map[0 := Worker(Copy(j), AtSize, false, false)]);
    Step(s, t0, true, LookUpServer(0, true), t1);
    Step(s, t1, true, EndPass, t1.(sched := Idle));
    StopInMeasure(j, t1.(sched := Idle));
  }

  lemma StopInMeasure(j: Job, t1: State)
    requires OneQueued(j) && j.total == 0 && Reaches(Start(j), t1, true)
    requires t1 == Busy(j, RunningRow(j), Worker(Copy(j), AtSize, false, false)).(helpers := {}, sched := Idle)
    ensures exists t :: Reaches(Start(j), t, true) && AboutToFail(t)
  {
    hide Reaches, Enabled, ApplyWorker, ApplyCall;
    var s := Start(j);
    assert t1.running.Values == {0} by { assert t1.running[1] == 0; }
    var t2 := t1.(stopping := true, stop := AwaitLoop({0}));
    Step(s, t1, true, StopBegin, t2);
    Step(s, t2, true, ExitLoop, t2.(sched := Exited));
    FailInMeasure(j, t2.(sched := Exited));
  }

  lemma FailInMeasure(j: Job, t2: State)
    requires OneQueued(j) && j.total == 0 && Reaches(Start(j), t2, true)
    requires t2 == Busy(j, RunningRow(j), Worker(Copy(j), AtSize, false, false)).(
                     helpers := {}, sched := Exited, stopping := true, stop := AwaitLoop({0}))
    ensures exists t :: Reaches(Start(j), t, true) && AboutToFail(t)
  {
    hide Reaches;
    var s := Start(j);
    FireOne(s, t2, Worker(Copy(j), AtSize, false, false));
    var w := Worker(Copy(j), Finishing(Failed, None), true, false);
    var t4 := t2.(stop := AwaitWorkers, workers := map[0 := w.(at := AtSize)]);
    var t5 := t4.(workers := map[0 := w]);
    Step(s, t4, true, MeasureSource(0, None), t5);
    FinishOne(t5, RunningRow(j), w, "");
  }

  lemma FireOne(s: State, t: State, w: Worker)
    requires Reaches(s, t, true) && t.stop == AwaitLoop({0}) && t.sched.Exited? && t.workers == map[0 := w]
    ensures Reaches(s, t.(stop := AwaitWorkers, workers := map[0 := w.(cancelled := true)]), true)
  {
    hide Reaches, Enabled, ApplySched, ApplyWorker, ApplyCall;
    var t3 := t.(stop := Firing({0}));
    Step(s, t, true, StopLoopEnded, t3);
    var t4 := t.(stop := Firing({}), workers := map[0 := w.(cancelled := true)]);
    FireStep(t3, w);
    Step(s, t3, true, StopFire(0), t4);
    Step(s, t4, true, StopFired, t4.(stop := AwaitWorkers));
  }

  lemma FireStep(t: State, w: Worker)
    requires t.stop == Firing({0}) && t.workers == map[0 := w]
    ensures Enabled(t, StopFire(0))
    ensures Apply(t, StopFire(0)) == t.(stop := Firing({}), workers := map[0 := w.(cancelled := true)])
  {
    assert {0} - {0} == {};
    assert t.workers[0 := w.(cancelled := true)] == map[0 := w.(cancelled := true)];
  }
}
