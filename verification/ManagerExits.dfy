/** How a worker comes to its outcome: over every run, what it records is a function of what
    it did since it started, and that is one of four kinds of path. */
module ManagerExits {
  import opened Common
  import opened JobState
  import opened JobManager
  import opened ManagerInvariants
  import opened ManagerFrames
  import opened ManagerSteps

  // ------------------------------------------------------------ the trail of a worker

  /** An action of a worker with what it saw: whether the job's total was known, whether the
      row said cancelled, whether its context was cancelled. */
  datatype Taken = Taken(action: Action, known: bool, rowCancelled: bool, contextCancelled: bool)

  function Seen(s: State, a: Action, w: int): Taken
    requires w in s.workers
  {
    var id := s.workers[w].job.id;
    Taken(a, s.workers[w].job.total != 0, id in s.rows && s.rows[id].status == Cancelled, s.workers[w].cancelled)
  }

  /** The trail grows with the worker's own actions; a new process starts new trails. */
  function Extended(s: State, a: Action, w: int, trail: seq<Taken>): seq<Taken> {
    if a.Crash? then []
    else if OfWorker(a, w) && w in s.workers then trail + [Seen(s, a, w)]
    else trail
  }

  ghost function Trail(s: State, run: seq<Action>, w: int, trail: seq<Taken>): seq<Taken>
    requires Admissible(s, run)
    decreases |run|
  {
    if run == [] then trail else Trail(Apply(s, run[0]), run[1..], w, Extended(s, run[0], w, trail))
  }

  // ------------------------------------------------------------ the paths

  predicate Found(trail: seq<Taken>, w: int) {
    |trail| >= 1 && trail[0].action == LookUpServer(w, true)
  }

  predicate Sized(trail: seq<Taken>, w: int) {
    Found(trail, w) && |trail| >= 2 && trail[1].action.MeasureSource? && trail[1].action.w == w
    && (trail[1].known || trail[1].action.size.Some?)
  }

  predicate Broken(trail: seq<Taken>, w: int) {
    Sized(trail, w) && |trail| >= 3 && trail[2].action == EndTransfer(w, TransferError)
  }

  predicate NotCancelled(trail: seq<Taken>, w: int) {
    Broken(trail, w) && |trail| >= 4 && trail[3].action == ReRead(w) && !trail[3].rowCancelled
  }

  /** The complete path of the error exit. */
  predicate Checked(trail: seq<Taken>, w: int) {
    NotCancelled(trail, w) && |trail| == 5 && trail[4].action == CheckContext(w)
  }

  /** One of the ways to an outcome. */
  predicate Settled(trail: seq<Taken>, w: int) {
    || (|trail| == 1 && trail[0].action == LookUpServer(w, false))
    || (|trail| == 2 && Found(trail, w) && trail[1].action == MeasureSource(w, None) && !trail[1].known)
    || (|trail| == 3 && Sized(trail, w) && trail[2].action.EndTransfer? && trail[2].action.w == w
        && trail[2].action.outcome.ExitCode?)
    || Checked(trail, w)
  }

  /** What such a path leads to. */
  function OutcomeOf(trail: seq<Taken>): (Status, Option<int>)
    requires trail != []
  {
    var last := trail[|trail| - 1];
    if last.action.CheckContext? then (if last.contextCancelled then Interrupted else Failed, None)
    else if last.action.EndTransfer? && last.action.outcome.ExitCode? then
      (if last.action.outcome.code != 0 then Failed else Done, Some(last.action.outcome.code))
    else (Failed, None)
  }

  /** The worker stands where its trail has led. */
  predicate OnTrail(at: Position, trail: seq<Taken>, w: int) {
    match at
    case AtServer => trail == []
    case AtSize => |trail| == 1 && Found(trail, w)
    case AtTransfer => |trail| == 2 && Sized(trail, w)
    case AtReRead => |trail| == 3 && Broken(trail, w)
    case AtContext => |trail| == 4 && NotCancelled(trail, w)
    case Finishing(outcome, code) => Settled(trail, w) && OutcomeOf(trail) == (outcome, code)
    case Leaving => true
    case Ended => true
  }

  ghost predicate Tracked(s: State, w: int, trail: seq<Taken>) {
    && (w in s.workers ==> OnTrail(s.workers[w].at, trail, w))
    && (w !in s.workers && w >= s.nextWorker ==> trail == [])
  }

  // ------------------------------------------------------------ every step keeps it

  function MeasuredPosition(known: bool, size: Option<int>): Position {
    if known || size.Some? then AtTransfer else Finishing(Failed, None)
  }

  lemma MeasureMoves(s: State, w: int, size: Option<int>)
    requires w in s.workers && Enabled(s, MeasureSource(w, size))
    ensures var t := Apply(s, MeasureSource(w, size));
            w in t.workers && t.workers[w].at == MeasuredPosition(s.workers[w].job.total != 0, size)
  {
    hide ApplySched, ApplyCall, ApplyLife, FinishStep, UnregisterStep, LeaveStep, FlushStep, NextPosition;
  }

  lemma AfterMeasuring(s: State, w: int, size: Option<int>, trail: seq<Taken>)
    requires w in s.workers && s.workers[w].at.AtSize? && OnTrail(AtSize, trail, w)
    ensures OnTrail(MeasuredPosition(s.workers[w].job.total != 0, size), trail + [Seen(s, MeasureSource(w, size), w)], w)
  {
    var longer := trail + [Seen(s, MeasureSource(w, size), w)];
    assert longer[|trail|] == Seen(s, MeasureSource(w, size), w) && longer[0] == trail[0];
  }

  predicate Deciding(a: Action) { a.LookUpServer? || a.EndTransfer? || a.ReRead? || a.CheckContext? }

  lemma DecidedPosition(s: State, a: Action, w: int)
    requires w in s.workers && Enabled(s, a) && OfWorker(a, w) && Deciding(a)
    ensures w in Apply(s, a).workers && Apply(s, a).workers[w].at == NextPosition(s, a)
  {
    hide ApplySched, ApplyCall, ApplyLife, MeasureStep, FinishStep, UnregisterStep, LeaveStep, FlushStep, NextPosition;
  }

  lemma AfterDeciding(s: State, a: Action, w: int, trail: seq<Taken>)
    requires w in s.workers && Enabled(s, a) && OfWorker(a, w) && Deciding(a) && OnTrail(s.workers[w].at, trail, w)
    ensures OnTrail(NextPosition(s, a), trail + [Seen(s, a, w)], w)
  {
    var longer := trail + [Seen(s, a, w)];
    assert longer[|trail|] == Seen(s, a, w) && forall i :: 0 <= i < |trail| ==> longer[i] == trail[i];
  }

  lemma LastSteps(s: State, a: Action, w: int)
    requires Inv(s) && w in s.workers && Enabled(s, a) && OfWorker(a, w)
    requires a.Finish? || a.Unregister? || a.Leave?
    ensures w in Apply(s, a).workers ==> !Live(Apply(s, a).workers[w])
    ensures w < Apply(s, a).nextWorker
  {
    hide ApplySched, ApplyCall, ApplyLife;
  }

  lemma OwnStep(s: State, a: Action, w: int, trail: seq<Taken>)
    requires Inv(s) && w in s.workers && Enabled(s, a) && OfWorker(a, w) && Tracked(s, w, trail)
    ensures Tracked(Apply(s, a), w, trail + [Seen(s, a, w)])
  {
    hide Apply, NextPosition, Inv;
    if a.MeasureSource? { MeasureMoves(s, w, a.size); AfterMeasuring(s, w, a.size, trail); }
    else if Deciding(a) { DecidedPosition(s, a, w); AfterDeciding(s, a, w, trail); }
    else { LastSteps(s, a, w); }
  }

  /** Numbers are handed out by registrations only. */
  lemma NumbersGrow(s: State, a: Action, w: int)
    requires NumbersOk(s) && Enabled(s, a) && !a.Crash?
    ensures s.nextWorker <= Apply(s, a).nextWorker
    ensures w !in s.workers && w in Apply(s, a).workers ==>
              w == s.nextWorker && Apply(s, a).workers[w].at == AtServer
    ensures !a.Leave? && w in s.workers ==> w in Apply(s, a).workers
  {
    hide Apply, Enabled;
    if SchedAction(a) { SchedFrames(s, a); }
    else if WorkerAction(a) { WorkerFrames(s, a); }
    else if CallAction(a) { CallFrames(s, a); }
    else { LifeFrames(s, a); }
  }

  lemma OthersStep(s: State, a: Action, w: int, trail: seq<Taken>)
    requires Inv(s) && Enabled(s, a) && !OfWorker(a, w) && !a.Crash? && Tracked(s, w, trail)
    ensures Tracked(Apply(s, a), w, trail)
  {
    hide ApplySched, ApplyWorker, ApplyCall, ApplyLife;
    NumbersGrow(s, a, w);
    if w in s.workers {
      assert w < s.nextWorker;
      if a.Recover? || a.Launch? { StartMovesNobody(s, a, w); }
      else { UntouchedByOthers(TheWorker(w), s, a); }
    }
  }

  lemma StartMovesNobody(s: State, a: Action, w: int)
    requires Enabled(s, a) && (a.Recover? || a.Launch?)
    ensures SameWorker(s, Apply(s, a), w)
  {
    hide ApplySched, ApplyWorker, ApplyCall;
  }

  lemma TrackedStep(s: State, a: Action, w: int, trail: seq<Taken>)
    requires Inv(s) && Enabled(s, a) && Tracked(s, w, trail)
    ensures Tracked(Apply(s, a), w, Extended(s, a, w, trail))
  {
    hide ApplySched, ApplyWorker, ApplyCall;
    if OfWorker(a, w) && w in s.workers {
      OwnStep(s, a, w, trail);
    } else if !OfWorker(a, w) && !a.Crash? {
      OthersStep(s, a, w, trail);
    }
  }

  lemma {:induction false} TrackedRun(s: State, run: seq<Action>, w: int, trail: seq<Taken>)
    requires Inv(s) && Admissible(s, run) && Tracked(s, w, trail)
    ensures Tracked(After(s, run), w, Trail(s, run, w, trail))
    decreases |run|
  {
    hide ApplySched, ApplyWorker, ApplyCall, ApplyLife;
    if run != [] {
      InvStep(s, run[0]);
      TrackedStep(s, run[0], w, trail);
      TrackedRun(Apply(s, run[0]), run[1..], w, Extended(s, run[0], w, trail));
    }
  }

  // ------------------------------------------------------------ the theorems

  /** Over every run: a worker about to record its outcome got there by one of the four
      kinds of path, and its outcome is the one that path leads to. */
  lemma OutcomeFollowsTrail(s: State, run: seq<Action>, w: int)
    requires Initial(s) && Admissible(s, run)
    requires w in After(s, run).workers && After(s, run).workers[w].at.Finishing?
    ensures var trail := Trail(s, run, w, []); var at := After(s, run).workers[w].at;
            Settled(trail, w) && OutcomeOf(trail) == (at.outcome, at.code)
  {
    hide ApplySched, ApplyWorker, ApplyCall, ApplyLife;
    InitialInv(s);
    TrackedRun(s, run, w, []);
  }

  /** It is an interruption if and only if a transfer ended in an error, the re-read did not
      find the row cancelled, and the context was then found cancelled. So Stop and Cancel,
      whose only effect on a worker is to cancel its context, make it record an interruption
      on that path alone. */
  lemma InterruptedExactly(s: State, run: seq<Action>, w: int)
    requires Initial(s) && Admissible(s, run)
    requires w in After(s, run).workers && After(s, run).workers[w].at.Finishing?
    ensures var trail := Trail(s, run, w, []);
            After(s, run).workers[w].at.outcome == Interrupted <==>
            Checked(trail, w) && trail[4].contextCancelled
  {
    hide Apply, Inv, Admissible, After, Trail, Sized, Found, Broken;
    OutcomeFollowsTrail(s, run, w);
  }

  /** What the row then says: done for exit code 0, failed for any other and for a server or
      a size that could not be had, interrupted or failed after a transfer error. */
  lemma RowFollowsTrail(s: State, run: seq<Action>, w: int, message: string)
    requires Initial(s) && Admissible(s, run) && Enabled(After(s, run), Finish(w, message))
    requires After(s, run).workers[w].job.id in After(s, run).rows
    ensures var trail := Trail(s, run, w, []); var id := After(s, run).workers[w].job.id;
            var row := Apply(After(s, run), Finish(w, message)).rows[id];
            trail != [] && (row.status, row.exitCode) == OutcomeOf(trail) && row.error == message
  {
    hide ApplySched, ApplyCall, ApplyLife;
    OutcomeFollowsTrail(s, run, w);
    InitialInv(s);
    InvRun(s, run);
  }
}
