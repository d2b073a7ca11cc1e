/** internal/jobs/manager.go as an object: its methods in the order of their statements,
    one method per section under the mutex or database call, with the other goroutines
    acting between sections. The rows are those of a Store, and every read or write of them
    is a call of one of its methods.

    What the others do is fixed by `future`, which is arbitrary: before each section the
    object performs the next list of actions, skipping those that are not possible there.
    `history` records every action, and `Valid` says that the object is always where that
    history leads. The contract of a section is `Did`: it performed its action, so it left
    the state of that step and nothing else. So whatever is proved about runs of the step
    system is proved about this code, for every interleaving. */
module ManagerCode {
  import opened Common
  import opened JobState
  import opened JobTable
  import opened JobManager
  import opened JobStore
  import opened ManagerInvariants
  import opened ManagerFrames
  import opened ManagerSteps
  import opened ManagerPool
  import opened ManagerSingle

  // ------------------------------------------------------------ runs

  /** `run` leads from s to t. */
  ghost predicate LeadsTo(s: State, run: seq<Action>, t: State) {
    Admissible(s, run) && After(s, run) == t
  }

  lemma {:induction false} OneMore(s: State, run: seq<Action>, t: State, a: Action)
    requires LeadsTo(s, run, t) && Enabled(t, a)
    ensures LeadsTo(s, run + [a], Apply(t, a))
    decreases |run|
  {
    if run == [] {
      assert [] + [a] == [a] && [a][1..] == [];
    } else {
      OneMore(Apply(s, run[0]), run[1..], t, a);
      assert (run + [a])[0] == run[0] && (run + [a])[1..] == run[1..] + [a];
    }
  }

  /** The action, if it is possible. */
  function Next(s: State, a: Action): State { if Enabled(s, a) then Apply(s, a) else s }

  ghost function Noted(run: seq<Action>, s: State, a: Action): seq<Action> {
    if Enabled(s, a) then run + [a] else run
  }

  lemma NextLeads(s: State, run: seq<Action>, t: State, a: Action)
    requires LeadsTo(s, run, t)
    ensures LeadsTo(s, Noted(run, t, a), Next(t, a))
  {
    if Enabled(t, a) { OneMore(s, run, t, a); }
  }

  lemma MeasureLeads(s: State, run: seq<Action>, t: State, w: int, size: Option<int>)
    requires LeadsTo(s, run, t) && w in t.workers && t.workers[w].at.AtSize?
    ensures LeadsTo(s, run + [MeasureSource(w, size)], MeasureStep(t, w, size))
  {
    OneMore(s, run, t, MeasureSource(w, size));
  }

  lemma FinishIs(s: State, w: int, message: string)
    requires w in s.workers && s.workers[w].at.Finishing?
    ensures Enabled(s, Finish(w, message)) && Apply(s, Finish(w, message)) == FinishStep(s, w, message)
  {
    hide ApplySched, ApplyCall, ApplyLife, FinishStep;
  }

  lemma AbsentUntouched(t: Table, id: int)
    ensures id !in t ==> SetStatus(t, id, Running, "", None) == t
  {
  }

  lemma MarkIs(s: State)
    requires s.sched.Picking? && s.sched.queue != []
    ensures Enabled(s, MarkNext) && Apply(s, MarkNext) == MarkNextStep(s)
  {
    hide ApplyWorker, ApplyCall, ApplyLife, MarkNextStep;
  }

  lemma PurgeIs(s: State, ids: set<int>)
    requires s.phase == Up && s.sched == Idle
    requires forall id :: id in ids ==> id in s.rows && Terminal(s.rows[id].status)
    ensures Enabled(s, Purge(ids)) && Apply(s, Purge(ids)) == RemoveRows(s, ids)
  {
    hide ApplyWorker, ApplyCall, ApplyLife, RemoveRows;
  }

  lemma CancelWriteLeads(s: State, run: seq<Action>, t: State, c: int)
    requires LeadsTo(s, run, t) && c in t.calls && t.calls[c].CancelChecked?
    ensures LeadsTo(s, run + [CancelWrite(c)], CancelWriteStep(t, c))
  {
    OneMore(s, run, t, CancelWrite(c));
  }

  /** Together with those still to be considered, the entries fit into the pass's limit. */
  lemma LedToFit(s: State, run: seq<Action>, t: State)
    requires Initial(s) && LeadsTo(s, run, t)
    ensures t.sched.Picking? && t.sched.queue != [] ==> |t.running| + |t.sched.queue| <= t.sched.limit
    ensures t.sched.Marked? ==> |t.running| + 1 + |t.sched.queue| <= t.sched.limit
  {
    InitialInv(s);
    InvRun(s, run);
  }

  /** A worker about to record its outcome has a copy that says running. */
  lemma LedToFinish(s: State, run: seq<Action>, t: State, w: int)
    requires Initial(s) && LeadsTo(s, run, t) && w in t.workers && t.workers[w].at.Finishing?
    ensures CanTransition(t.workers[w].job.status, t.workers[w].at.outcome)
  {
    InitialInv(s);
    InvRun(s, run);
  }

  lemma LedToInv(s: State, run: seq<Action>, t: State)
    requires Initial(s) && LeadsTo(s, run, t)
    ensures Inv(t)
  {
    InitialInv(s);
    InvRun(s, run);
  }

  lemma OthersStep(g: Goroutine, s: State, a: Action)
    requires Inv(s) && Elsewhere(g, a)
    ensures Inv(Next(s, a)) && Untouched(g, s, Next(s, a))
  {
    if Enabled(s, a) {
      UntouchedByOthers(g, s, a);
      InvStep(s, a);
    }
  }

  // ------------------------------------------------------------ what the goroutines do

  /** What an API call answers: 404, 409 or success. */
  datatype Reply = NotFound | Conflict | Accepted

  /** A moment of a run: what had been done by then, and where that led. */
  datatype Moment = Moment(past: seq<Action>, state: State)

  /** What one pass did. It counted the slots at one moment and, if there were any, read the
      queue at another; for each job considered it learned whether its row was still there;
      and it may have been given up because Stop had begun. */
  datatype Pass = NoSlots(counted: Moment) | Pass(counted: Moment, read: Moment, there: seq<bool>, gaveUp: bool)

  function Considering(there: seq<bool>): seq<Action> {
    if there == [] then []
    else
      var n := |there| - 1;
      Considering(there[..n]) + (if there[n] then [MarkNext, Register] else [MarkNext])
  }

  lemma OneMoreConsidered(there: seq<bool>, next: bool) returns (more: seq<bool>)
    ensures more == there + [next]
    ensures Considering(more) == Considering(there) + (if next then [MarkNext, Register] else [MarkNext])
  {
    more := there + [next];
    assert more[..|there|] == there;
  }

  /** The sections of a pass, in order. */
  function PassSections(limit: nat, pass: Pass): seq<Action> {
    [ReadLimit(limit), CountFree] +
    if pass.NoSlots? then []
    else [QueryQueue] + Considering(pass.there) + if pass.gaveUp then [] else [EndPass]
  }

  lemma PassInOrder(before: seq<Action>, limit: nat, pass: Pass)
    requires pass.Pass?
    ensures before + [ReadLimit(limit), CountFree] + [QueryQueue] + Considering(pass.there)
            + (if pass.gaveUp then [] else [EndPass]) == before + PassSections(limit, pass)
  {
  }

  /** The slots that a pass found free. */
  function Slots(pass: Pass, limit: nat): int { limit - |pass.counted.state.running| }

  /** A pass ends at the count exactly when Stop has begun or the limit is reached. Otherwise
      it considers the waiting jobs oldest first, as many as there are free slots, and all of
      these unless Stop has begun. */
  predicate PassOf(pass: Pass, limit: nat, stopping: bool) {
    && (pass.NoSlots? <==> pass.counted.state.stopping || Slots(pass, limit) <= 0)
    && (pass.Pass? ==>
          var waiting := Queue(pass.read.state.rows, Slots(pass, limit));
          && |pass.there| <= |waiting|
          && (if pass.gaveUp then stopping && pass.there != [] && pass.there[|pass.there| - 1]
              else |pass.there| == |waiting|))
  }

  /** At that moment of this history, after what was done before, the action was taken. */
  ghost predicate Happened(origin: State, before: seq<Action>, history: seq<Action>, m: Moment, a: Action) {
    LeadsTo(origin, m.past, m.state) && before <= m.past && m.past + [a] <= history
  }

  lemma HappenedStays(origin: State, before: seq<Action>, history: seq<Action>, later: seq<Action>, m: Moment, a: Action)
    requires Happened(origin, before, history, m, a) && history <= later
    ensures Happened(origin, before, later, m, a)
  {
  }

  lemma HappenedIn(origin: State, before: seq<Action>, history: seq<Action>, m: Moment, a: Action)
    requires Happened(origin, before, history, m, a)
    ensures m.past <= history
  {
  }

  lemma HappenedSince(origin: State, before: seq<Action>, later: seq<Action>, history: seq<Action>, m: Moment, a: Action)
    requires Happened(origin, later, history, m, a) && before <= later
    ensures Happened(origin, before, history, m, a)
  {
  }

  /** What the calls of one worker return: whether the server is there, whether the job's
      total is known, the measured size, the end of the transfer, whether the re-read finds
      the row cancelled, and whether the context is then found cancelled. */
  datatype Results = Results(
    found: bool, known: bool, size: Option<int>, outcome: Outcome, rowCancelled: bool, contextCancelled: bool)

  /** What the worker records, if anything. */
  function Recorded(r: Results): Option<(Status, Option<int>)> {
    if !r.found || (!r.known && r.size.None?) then Some((Failed, None))
    else match r.outcome
      case ExitCode(code) => Some((if code != 0 then Failed else Done, Some(code)))
      case TransferError =>
        if r.rowCancelled then None else Some((if r.contextCancelled then Interrupted else Failed, None))
  }

  /** A size that had to be measured is what the row then says. */
  predicate SizeStored(r: Results, row: Option<Job>) {
    r.found && !r.known && r.size.Some? && row.Some? ==> row.value.total == r.size.value
  }

  /** The sections up to the outcome, in order. */
  function WorkSections(w: int, r: Results): seq<Action> {
    [LookUpServer(w, r.found)] + if r.found then SizeSections(w, r) else []
  }

  function SizeSections(w: int, r: Results): seq<Action> {
    [MeasureSource(w, r.size)] + if r.known || r.size.Some? then TransferSections(w, r) else []
  }

  function TransferSections(w: int, r: Results): seq<Action> {
    [EndTransfer(w, r.outcome)] + if r.outcome.TransferError? then ErrorSections(w, r) else []
  }

  function ErrorSections(w: int, r: Results): seq<Action> {
    [ReRead(w)] + if r.rowCancelled then [] else [CheckContext(w)]
  }

  /** All the sections of a worker, in order. */
  function RunSections(w: int, r: Results, message: string): seq<Action> {
    WorkSections(w, r) + (if Recorded(r).Some? then [Finish(w, message)] else []) + [Unregister(w), Leave(w)]
  }

  function Fires(workers: seq<int>): seq<Action> {
    if workers == [] then [] else Fires(workers[..|workers| - 1]) + [StopFire(workers[|workers| - 1])]
  }

  lemma Joined(a: seq<Action>, b: seq<Action>, c: seq<Action>)
    ensures a + b + c == a + (b + c)
  {
  }

  lemma Concluded(before: seq<Action>, w: int, r: Results, message: string)
    ensures before + WorkSections(w, r) + (if Recorded(r).Some? then [Finish(w, message)] else [])
            + [Unregister(w)] + [Leave(w)]
            == before + RunSections(w, r, message)
  {
  }

  /** Where the work has led, before the outcome is recorded. */
  predicate LedTo(at: Position, r: Results) {
    match Recorded(r)
    case Some(outcome) => at == Finishing(outcome.0, outcome.1)
    case None => at == Leaving
  }

  /** One turn of the loop's select: a stop or the end of the context, if it is taken; a
      tick; the hourly sweep. */
  datatype Turn = Asked | Tick(limit: nat) | Sweep(older: set<int>)

  /** What a turn came to: nothing yet to leave for, the end of the loop, a pass, or the rows
      that the sweep removed. */
  datatype Done = Stayed | Left | Passed(pass: Pass) | Swept(gone: set<int>)

  predicate DoneBy(turn: Turn, done: Done) {
    match turn
    case Asked => done.Stayed? || done.Left?
    case Tick(_) => done.Passed?
    case Sweep(older) => done.Swept? && done.gone <= older
  }

  function TurnSections(turn: Turn, done: Done): seq<Action>
    requires DoneBy(turn, done)
  {
    match turn
    case Asked => if done.Left? then [ExitLoop] else []
    case Tick(limit) => PassSections(limit, done.pass)
    case Sweep(_) => [Purge(done.gone)]
  }

  predicate AllDoneBy(turns: seq<Turn>, done: seq<Done>) {
    |done| == |turns| && forall i :: 0 <= i < |turns| ==> DoneBy(turns[i], done[i])
  }

  /** The sections of the loop, turn after turn. */
  function LoopSections(turns: seq<Turn>, done: seq<Done>): seq<Action>
    requires AllDoneBy(turns, done)
    decreases |turns|
  {
    if turns == [] then []
    else
      var n := |turns| - 1;
      LoopSections(turns[..n], done[..n]) + TurnSections(turns[n], done[n])
  }

  lemma OneMoreTurn(turns: seq<Turn>, k: nat, done: seq<Done>, next: Done)
    requires k < |turns| && AllDoneBy(turns[..k], done) && DoneBy(turns[k], next)
    ensures AllDoneBy(turns[..k + 1], done + [next])
    ensures LoopSections(turns[..k + 1], done + [next]) == LoopSections(turns[..k], done) + TurnSections(turns[k], next)
  {
    var more, all := turns[..k + 1], done + [next];
    assert more[..k] == turns[..k] && all[..k] == done && more[k] == turns[k];
    forall i | 0 <= i < |more| ensures DoneBy(more[i], all[i]) {
      if i < k { assert DoneBy(turns[..k][i], done[i]); }
    }
  }

  // ------------------------------------------------------------ the manager

  const LOG_KEEP := 200

  class Manager {
    const db: Store
    // what the mutex guards: the id of a job to the worker whose cancel function is stored
    var running: map<int, int>
    var stopping: bool
    // the process and its goroutines
    var phase: Phase
    var contextDone: bool
    var stop: StopCall
    var sched: Scheduler
    var workers: map<int, Worker>
    var nextWorker: int
    var calls: map<int, Call>
    var helpers: set<int>
    // what the other goroutines will do between this one's sections
    var future: seq<seq<Action>>

    ghost const origin: State
    ghost var history: seq<Action>
    // the actions of this code's own sections, which `history` holds among the others
    ghost var acted: seq<Action>

    function View(): State
      reads this, db
    {
      State(db.rows, db.nextId, phase, contextDone, running, stopping, stop, sched, workers, nextWorker, calls, helpers)
    }

    /** The object is where an admissible run from a fresh database has led. */
    ghost predicate Valid()
      reads this, db
    {
      Initial(origin) && LeadsTo(origin, history, View())
    }

    constructor (db: Store, future: seq<seq<Action>>)
      requires Fresh(db.rows, db.nextId)
      ensures Valid() && View() == StartAll(db.rows, db.nextId) && history == [] && acted == []
      ensures this.db == db && origin == View()
    {
      this.db := db;
      running, stopping := map[], false;
      phase, contextDone, stop, sched := Down, false, NotStopping, Idle;
      workers, nextWorker, calls, helpers := map[], 0, map[], {};
      this.future := future;
      origin := StartAll(db.rows, db.nextId);
      history, acted := [], [];
    }

    /** The action was possible, its step was taken, and nothing else has happened. */
    twostate predicate Did(a: Action)
      reads this, db
    {
      && Enabled(old(View()), a) && View() == Apply(old(View()), a)
      && history == old(history) + [a] && acted == old(acted) + [a]
    }

    ghost method Note(was: State, a: Action)
      requires Initial(origin) && LeadsTo(origin, history, was) && Enabled(was, a) && Apply(was, a) == View()
      modifies this`history, this`acted
      ensures Valid() && history == old(history) + [a] && acted == old(acted) + [a]
    {
      hide LeadsTo, Initial;
      OneMore(origin, history, was, a);
      history, acted := history + [a], acted + [a];
    }

    method BecomeShared(t: State)
      modifies this`phase, this`contextDone, this`running, this`stopping, db`rows, db`nextId
      ensures db.rows == t.rows && db.nextId == t.nextId && phase == t.phase && contextDone == t.contextDone
      ensures running == t.running && stopping == t.stopping
    {
      db.rows, db.nextId := t.rows, t.nextId;
      phase, contextDone, running, stopping := t.phase, t.contextDone, t.running, t.stopping;
    }

    method BecomeOthers(t: State)
      modifies this`stop, this`sched, this`workers, this`nextWorker, this`calls, this`helpers
      ensures stop == t.stop && sched == t.sched && workers == t.workers && nextWorker == t.nextWorker
      ensures calls == t.calls && helpers == t.helpers
    {
      stop, sched, workers, nextWorker, calls, helpers :=
        t.stop, t.sched, t.workers, t.nextWorker, t.calls, t.helpers;
    }

    method Become(t: State)
      modifies this, db
      ensures View() == t && future == old(future) && history == old(history) && acted == old(acted)
    {
      BecomeShared(t);
      BecomeOthers(t);
    }

    /** One action of another goroutine, if it is possible. */
    method Perform(a: Action)
      requires Valid()
      modifies this, db
      ensures Valid() && View() == Next(old(View()), a) && old(history) <= history
      ensures future == old(future) && acted == old(acted)
    {
      hide LeadsTo, Initial;
      NextLeads(origin, history, View(), a);
      history := Noted(history, View(), a);
      Become(Next(View(), a));
    }

    /** The others run for a while. */
    method Others(g: Goroutine)
      requires Valid()
      modifies this, db
      ensures Valid() && old(history) <= history && acted == old(acted)
      ensures Untouched(g, old(View()), View())
    {
      hide LeadsTo, Initial, Apply, Enabled;
      LedToInv(origin, history, View());
      if future == [] { return; }
      var actions := future[0];
      future := future[1..];
      for i := 0 to |actions|
        invariant Valid() && Inv(View()) && old(history) <= history && acted == old(acted)
        invariant Untouched(g, old(View()), View())
      {
        if Elsewhere(g, actions[i]) {
          ghost var was := View();
          OthersStep(g, was, actions[i]);
          Perform(actions[i]);
          UntouchedTwice(g, old(View()), was, View());
        }
      }
    }

    // ---------------------------------------------------------- schedule

    method ReadSettings(limit: nat)
      requires Valid() && phase == Up && sched == Idle
      modifies this`sched, this`history, this`acted
      ensures Valid() && Did(ReadLimit(limit))
    {
      hide LeadsTo, Initial;
      ghost var was := View();
      sched := HasLimit(limit);
      Note(was, ReadLimit(limit));
    }

    /** First section under the mutex: count the free slots. */
    method CountSlots()
      requires Valid() && sched.HasLimit?
      modifies this`sched, this`history, this`acted
      ensures Valid() && Did(CountFree)
      ensures if stopping || old(sched).limit <= |running| then sched == Idle
              else sched == HasFree(old(sched).limit, old(sched).limit - |running|)
    {
      hide LeadsTo, Initial, ApplyLife, ApplyCall, ApplyWorker, Happened;
      ghost var was := View();
      var free := sched.limit - |running|;
      if free <= 0 || stopping {
        sched := Idle;
      } else {
        sched := HasFree(sched.limit, free);
      }
      Note(was, CountFree);
    }

    method ReadQueue()
      requires Valid() && sched.HasFree?
      modifies this`sched, this`history, this`acted
      ensures Valid() && Did(QueryQueue)
    {
      hide LeadsTo, Initial;
      ghost var was := View();
      var waiting := db.RunnableJobs(sched.free);
      sched := Picking(sched.limit, waiting);
      Note(was, QueryQueue);
    }

    /** Check the copy, then write the row. */
    method TryMark()
      requires sched.Picking? && sched.queue != []
      modifies this`sched, db`rows
      ensures View() == MarkNextStep(old(View()))
      ensures sched.Picking? || sched.Marked?
      ensures sched.limit == old(sched).limit && sched.queue == old(sched).queue[1..]
    {
      hide CanTransition, SetStatus;
      var job, rest := sched.queue[0], sched.queue[1..];
      var found := false;
      if CanTransition(job.status, Running) {
        found := db.SetJobStatus(job.id, Running, "", None);
      }
      if found {
        sched := Marked(sched.limit, job.(status := Running), rest, false);
      } else {
        AbsentUntouched(old(db.rows), job.id);
        sched := Picking(sched.limit, rest);
      }
    }

    method MarkRow()
      requires Valid() && sched.Picking? && sched.queue != []
      modifies this`sched, db`rows, this`history, this`acted
      ensures Valid() && Did(MarkNext)
      ensures sched.Picking? || sched.Marked?
      ensures sched.limit == old(sched).limit && sched.queue == old(sched).queue[1..]
    {
      hide LeadsTo, Initial, Apply, Enabled, MarkNextStep;
      ghost var was := View();
      MarkIs(was);
      TryMark();
      Note(was, MarkNext);
    }

    /** Second section under the mutex: register the worker and start it, unless Stop has
        begun. */
    method StartWorker()
      requires Valid() && sched.Marked?
      modifies this`sched, this`running, this`workers, this`nextWorker, this`history, this`acted
      ensures Valid() && Did(Register)
    {
      hide LeadsTo, Initial, ApplyLife, ApplyCall, ApplyWorker;
      ghost var was := View();
      if stopping {
        sched := Idle;
      } else {
        running := running[sched.job.id := nextWorker];
        workers := workers[nextWorker := Worker(sched.job, AtServer, false, sched.cancelWritten)];
        nextWorker := nextWorker + 1;
        sched := Picking(sched.limit, sched.queue);
      }
      Note(was, Register);
    }

    method FinishPass()
      requires Valid() && sched.Picking? && sched.queue == []
      modifies this`sched, this`history, this`acted
      ensures Valid() && Did(EndPass)
    {
      hide LeadsTo, Initial;
      ghost var was := View();
      sched := Idle;
      Note(was, EndPass);
    }

    /** The body of the loop over the waiting jobs: the next one is considered, and started
        if its row is still there. */
    method StartNext() returns (ghost there: bool)
      requires Valid() && sched.Picking? && sched.queue != []
      modifies this, db
      ensures Valid() && phase == old(phase) && old(history) <= history
      ensures acted == old(acted) + (if there then [MarkNext, Register] else [MarkNext])
      ensures if sched.Picking? then sched.limit == old(sched).limit && sched.queue == old(sched).queue[1..]
              else sched == Idle && there && stopping
      ensures |running| <= old(sched).limit
    {
      hide LeadsTo, Initial;
      ConsiderNext();
      there := sched.Marked?;
      if sched.Marked? {
        RegisterNext();
      }
    }

    method ConsiderNext()
      requires Valid() && sched.Picking? && sched.queue != []
      modifies this, db
      ensures Valid() && phase == old(phase) && old(history) <= history && acted == old(acted) + [MarkNext]
      ensures sched.Picking? || sched.Marked?
      ensures sched.limit == old(sched).limit && sched.queue == old(sched).queue[1..]
      ensures |running| <= old(sched).limit
    {
      hide LeadsTo, Initial, Apply, Enabled;
      LedToFit(origin, history, View());
      Others(TheScheduler);
      SubsetSize(running.Keys, old(running).Keys);
      MarkRow();
    }

    method RegisterNext()
      requires Valid() && sched.Marked?
      modifies this, db
      ensures Valid() && phase == old(phase) && old(history) <= history
      ensures acted == old(acted) + [Register]
      ensures if sched.Picking? then sched.limit == old(sched).limit && sched.queue == old(sched).queue
              else sched == Idle && stopping
      ensures |running| <= old(sched).limit
    {
      hide LeadsTo, Initial;
      LedToFit(origin, history, View());
      Others(TheScheduler);
      SubsetSize(running.Keys, old(running).Keys);
      StartWorker();
    }

    /** The loop over the waiting jobs. */
    method StartWaiting() returns (ghost there: seq<bool>, ghost gaveUp: bool)
      requires Valid() && sched.Picking?
      modifies this, db
      ensures Valid() && sched == Idle && phase == old(phase) && old(history) <= history
      ensures acted == old(acted) + Considering(there) + (if gaveUp then [] else [EndPass])
      ensures |there| <= |old(sched).queue| && (!gaveUp ==> |there| == |old(sched).queue|)
      ensures gaveUp ==> stopping && there != [] && there[|there| - 1]
      ensures |running| <= Max(old(sched).limit, |old(running)|)
    {
      hide LeadsTo, Initial;
      there, gaveUp := [], false;
      while sched.Picking? && sched.queue != []
        invariant Valid() && phase == old(phase) && old(history) <= history
        invariant acted == old(acted) + Considering(there)
        invariant |there| <= |old(sched).queue| && gaveUp == sched.Idle?
        invariant if gaveUp then stopping && there != [] && there[|there| - 1]
                  else sched.Picking? && sched.limit == old(sched).limit && sched.queue == old(sched).queue[|there|..]
        invariant |running| <= Max(old(sched).limit, |old(running)|)
        decreases if sched.Picking? then |sched.queue| else 0
      {
        ghost var next := StartNext();
        there := OneMoreConsidered(there, next);
        gaveUp := sched.Idle?;
      }
      if sched.Picking? {
        FinishPass();
      }
    }

    /** The limit is read, then the free slots are counted. */
    method OpenPass(limit: nat) returns (ghost counted: Moment)
      requires Valid() && phase == Up && sched == Idle
      modifies this, db
      ensures Valid() && phase == Up && old(history) <= history
      ensures acted == old(acted) + [ReadLimit(limit), CountFree]
      ensures Happened(origin, old(history), history, counted, CountFree)
      ensures var slots := limit - |counted.state.running|;
              if counted.state.stopping || slots <= 0 then sched == Idle else sched == HasFree(limit, slots)
      ensures |running| <= |old(running)|
    {
      hide LeadsTo, Initial;
      ReadSettings(limit);
      Others(TheScheduler);
      SubsetSize(running.Keys, old(running).Keys);
      counted := Moment(history, View());
      CountSlots();
    }

    /** The queue is read. */
    method QueryWaiting() returns (ghost read: Moment)
      requires Valid() && sched.HasFree?
      modifies this, db
      ensures Valid() && phase == old(phase) && old(history) <= history
      ensures acted == old(acted) + [QueryQueue]
      ensures Happened(origin, old(history), history, read, QueryQueue)
      ensures sched == Picking(old(sched).limit, Queue(read.state.rows, old(sched).free))
      ensures |running| <= |old(running)|
    {
      hide LeadsTo, Initial;
      Others(TheScheduler);
      SubsetSize(running.Keys, old(running).Keys);
      read := Moment(history, View());
      ReadQueue();
    }

    /** schedule: one pass from its first section to its last, whatever happens around it.
        The entries never exceed the limit it read, or what there were before. */
    method Schedule(limit: nat) returns (ghost pass: Pass)
      requires Valid() && phase == Up && sched == Idle
      modifies this, db
      ensures Valid() && sched == Idle && phase == Up && old(history) <= history
      ensures acted == old(acted) + PassSections(limit, pass) && PassOf(pass, limit, stopping)
      ensures Happened(origin, old(history), history, pass.counted, CountFree)
      ensures pass.Pass? ==> Happened(origin, pass.counted.past, history, pass.read, QueryQueue)
      ensures |running| <= Max(limit, |old(running)|)
    {
      hide LeadsTo, Initial, Happened, Queue;
      ghost var counted := OpenPass(limit);
      ghost var begun := history;
      if sched.Idle? { return NoSlots(counted); }
      ghost var read := QueryWaiting();
      HappenedIn(origin, old(history), begun, counted, CountFree);
      HappenedSince(origin, counted.past, begun, history, read, QueryQueue);
      ghost var queried := history;
      ghost var there, gaveUp := StartWaiting();
      pass := Pass(counted, read, there, gaveUp);
      PassInOrder(old(acted), limit, pass);
      HappenedStays(origin, old(history), begun, history, counted, CountFree);
      HappenedStays(origin, counted.past, queried, history, read, QueryQueue);
    }

    // ---------------------------------------------------------- loop

    method LeaveLoop()
      requires Valid() && phase == Up && sched == Idle && (stopping || contextDone)
      modifies this`sched, this`history, this`acted
      ensures Valid() && Did(ExitLoop)
    {
      hide LeadsTo, Initial;
      ghost var was := View();
      sched := Exited;
      Note(was, ExitLoop);
    }

    /** purge: only finished rows go. */
    method SweepOld(older: set<int>)
      requires Valid() && phase == Up && sched == Idle
      modifies db`rows, db`log, this`history, this`acted
      ensures Valid()
      ensures Did(Purge(set id | id in old(db.rows) && id in older && Terminal(old(db.rows)[id].status)))
    {
      hide LeadsTo, Initial, Apply, Enabled, Terminal;
      ghost var was := View();
      ghost var gone := set id | id in db.rows && id in older && Terminal(db.rows[id].status);
      PurgeIs(was, gone);
      var n := db.PurgeJobs(older);
      Note(was, Purge(gone));
    }

    /** One turn of loop's select. */
    method TakeTurn(turn: Turn) returns (ghost done: Done)
      requires Valid() && phase == Up && sched == Idle
      modifies this, db
      ensures Valid() && phase == Up && old(history) <= history
      ensures DoneBy(turn, done) && acted == old(acted) + TurnSections(turn, done)
      ensures if done.Left? then sched == Exited && (stopping || contextDone) else sched == Idle
      ensures done.Stayed? ==> !stopping && !contextDone
    {
      hide LeadsTo, Initial, Enabled, ApplyLife, ApplyCall, ApplyWorker;
      Others(TheScheduler);
      match turn
      case Asked =>
        done := Stayed;
        if stopping || contextDone {
          LeaveLoop();
          done := Left;
        }
      case Tick(limit) =>
        ghost var pass := Schedule(limit);
        done := Passed(pass);
      case Sweep(older) =>
        done := Swept(set id | id in db.rows && id in older && Terminal(db.rows[id].status));
        SweepOld(older);
    }

    /** loop, for as long as `turns` says which of its select's ready cases is taken. Being
        asked to stop is one of them, and a tick that is ready too may go first. Every turn
        does exactly what its case asks for, and the first look that finds a reason to leave
        ends the loop. */
    method Loop(turns: seq<Turn>) returns (taken: nat, ghost done: seq<Done>)
      requires Valid() && phase == Up && sched == Idle
      modifies this, db
      ensures Valid() && phase == Up && old(history) <= history && taken <= |turns|
      ensures AllDoneBy(turns[..taken], done) && acted == old(acted) + LoopSections(turns[..taken], done)
      ensures forall i :: 0 <= i < taken - 1 ==> !done[i].Left?
      ensures if taken > 0 && done[taken - 1].Left? then sched == Exited else sched == Idle && taken == |turns|
    {
      hide LeadsTo, Initial;
      taken, done := 0, [];
      while taken < |turns|
        invariant Valid() && phase == Up && sched == Idle && old(history) <= history && taken <= |turns|
        invariant AllDoneBy(turns[..taken], done) && acted == old(acted) + LoopSections(turns[..taken], done)
        invariant forall i :: 0 <= i < taken ==> !done[i].Left?
      {
        ghost var next := TakeTurn(turns[taken]);
        OneMoreTurn(turns, taken, done, next);
        Joined(old(acted), LoopSections(turns[..taken], done), TurnSections(turns[taken], next));
        done, taken := done + [next], taken + 1;
        if sched.Exited? { return; }
      }
    }

    // ---------------------------------------------------------- run, finish

    /** A section of `run` that only decides where the worker goes. */
    method Decide(w: int, a: Action)
      requires Valid() && w in workers && OfWorker(a, w)
      requires a.LookUpServer? || a.EndTransfer? || a.ReRead? || a.CheckContext?
      requires Enabled(View(), a)
      modifies this`workers, this`history, this`acted
      ensures Valid() && Did(a)
      ensures workers == old(workers)[w := old(workers)[w].(at := NextPosition(old(View()), a))]
    {
      hide LeadsTo, Initial;
      ghost var was := View();
      workers := workers[w := workers[w].(at := NextPosition(View(), a))];
      Note(was, a);
    }

    method BeginTransfer(w: int, job: Job)
      requires w in workers
      modifies this`workers, this`helpers
      ensures workers == old(workers)[w := old(workers)[w].(job := job, at := AtTransfer)]
      ensures helpers == old(helpers) + {job.id}
    {
      workers := workers[w := workers[w].(job := job, at := AtTransfer)];
      helpers := helpers + {job.id};
    }

    /** The source is measured unless its size is known. */
    method FindSize(w: int, size: Option<int>)
      requires w in workers
      modifies db`rows, this`workers, this`helpers
      ensures View() == MeasureStep(old(View()), w, size)
      ensures var job := old(workers)[w].job;
              job.total == 0 && size.Some? && job.id in db.rows ==> db.rows[job.id].total == size.value
    {
      var job := workers[w].job;
      if job.total != 0 {
        BeginTransfer(w, job);
      } else if size.None? {
        workers := workers[w := workers[w].(at := Finishing(Failed, None))];
      } else {
        var found := db.SetJobTotal(job.id, size.value);
        BeginTransfer(w, job.(total := size.value));
      }
    }

    method Measure(w: int, size: Option<int>)
      requires Valid() && w in workers && workers[w].at.AtSize?
      modifies db`rows, this`workers, this`helpers, this`history, this`acted
      ensures Valid() && Did(MeasureSource(w, size))
      ensures var job := old(workers)[w].job;
              job.total == 0 && size.Some? && job.id in db.rows ==> db.rows[job.id].total == size.value
    {
      hide LeadsTo, Initial;
      MeasureLeads(origin, history, View(), w, size);
      history, acted := history + [MeasureSource(w, size)], acted + [MeasureSource(w, size)];
      FindSize(w, size);
    }

    /** finish: the check is of the worker's own copy. */
    method WriteOutcome(w: int, message: string)
      requires Valid() && w in workers && workers[w].at.Finishing?
      modifies db`rows, this`workers, this`history, this`acted
      ensures Valid() && Did(Finish(w, message))
    {
      hide LeadsTo, Initial, Apply, Enabled, CanTransition;
      ghost var was := View();
      FinishIs(was, w, message);
      var worker := workers[w];
      if CanTransition(worker.job.status, worker.at.outcome) {
        var found := db.SetJobStatus(worker.job.id, worker.at.outcome, message, worker.at.code);
      }
      workers := workers[w := worker.(at := Leaving)];
      Note(was, Finish(w, message));
    }

    method DropEntry(w: int)
      requires Valid() && w in workers && workers[w].at.Leaving?
      modifies this`running, this`workers, this`history, this`acted
      ensures Valid() && Did(Unregister(w))
    {
      hide LeadsTo, Initial, ApplySched, ApplyCall, ApplyLife;
      ghost var was := View();
      running := running - {workers[w].job.id};
      workers := workers[w := workers[w].(at := Ended)];
      Note(was, Unregister(w));
    }

    method Depart(w: int)
      requires Valid() && w in workers && workers[w].at.Ended?
      modifies this`workers, this`history, this`acted
      ensures Valid() && Did(Leave(w))
    {
      hide LeadsTo, Initial, ApplySched, ApplyCall, ApplyLife;
      ghost var was := View();
      workers := workers - {w};
      Note(was, Leave(w));
    }

    /** After a transfer error: was it a Cancel? Or a shutdown? */
    method Explain(w: int) returns (ghost rowCancelled: bool, ghost contextCancelled: bool)
      requires Valid() && w in workers && workers[w].at.AtReRead?
      modifies this, db
      ensures Valid() && phase == old(phase) && old(history) <= history
      ensures w in workers && workers[w].job == old(workers)[w].job
      ensures workers[w].at == if rowCancelled then Leaving
                               else Finishing(if contextCancelled then Interrupted else Failed, None)
      ensures acted == old(acted) + [ReRead(w)] + if rowCancelled then [] else [CheckContext(w)]
    {
      hide LeadsTo, Initial, Apply;
      contextCancelled := false;
      Decide(w, ReRead(w));
      rowCancelled := workers[w].at.Leaving?;
      if workers[w].at.AtContext? {
        contextCancelled := LookAtContext(w);
      }
    }

    method LookAtContext(w: int) returns (ghost contextCancelled: bool)
      requires Valid() && w in workers && workers[w].at.AtContext?
      modifies this, db
      ensures Valid() && phase == old(phase) && old(history) <= history
      ensures w in workers && workers[w].job == old(workers)[w].job
      ensures workers[w].at == Finishing(if contextCancelled then Interrupted else Failed, None)
      ensures acted == old(acted) + [CheckContext(w)]
    {
      hide LeadsTo, Initial, Apply;
      Others(TheWorker(w));
      contextCancelled := workers[w].cancelled;
      Decide(w, CheckContext(w));
    }

    method Settle(w: int, outcome: Outcome, ghost begun: Results) returns (ghost r: Results)
      requires Valid() && w in workers && workers[w].at.AtTransfer?
      requires begun.found && (begun.known || begun.size.Some?) && begun.outcome == outcome
      modifies this, db
      ensures Valid() && phase == old(phase) && old(history) <= history
      ensures w in workers && LedTo(workers[w].at, r)
      ensures r == begun.(rowCancelled := r.rowCancelled, contextCancelled := r.contextCancelled)
      ensures acted == old(acted) + TransferSections(w, r)
    {
      hide LeadsTo, Initial, Apply;
      r := begun;
      Decide(w, EndTransfer(w, outcome));
      if workers[w].at.AtReRead? {
        Others(TheWorker(w));
        ghost var rowCancelled, contextCancelled := Explain(w);
        r := begun.(rowCancelled := rowCancelled, contextCancelled := contextCancelled);
        Joined(old(acted), [EndTransfer(w, outcome)], ErrorSections(w, r));
      }
    }

    method MeasureAndTransfer(w: int, size: Option<int>, outcome: Outcome, ghost begun: Results)
      returns (ghost r: Results, ghost sized: Option<Job>)
      requires Valid() && w in workers && workers[w].at.AtSize?
      requires begun == Results(true, workers[w].job.total != 0, size, outcome, false, false)
      modifies this, db
      ensures Valid() && phase == old(phase) && old(history) <= history
      ensures w in workers && LedTo(workers[w].at, r)
      ensures r == begun.(rowCancelled := r.rowCancelled, contextCancelled := r.contextCancelled)
      ensures acted == old(acted) + SizeSections(w, r) && SizeStored(r, sized)
    {
      hide LeadsTo, Initial, Enabled, ApplyLife, ApplyCall, ApplySched;
      r := begun;
      ghost var id := workers[w].job.id;
      Measure(w, size);
      sized := if id in db.rows then Some(db.rows[id]) else None;
      if workers[w].at.AtTransfer? {
        Others(TheWorker(w));
        r := Settle(w, outcome, begun);
        Joined(old(acted), [MeasureSource(w, size)], TransferSections(w, r));
      }
    }

    /** run, up to the recording of the outcome. */
    method Execute(w: int, found: bool, size: Option<int>, outcome: Outcome)
      returns (ghost r: Results, ghost sized: Option<Job>)
      requires Valid() && w in workers && workers[w].at.AtServer?
      modifies this, db
      ensures Valid() && phase == old(phase) && old(history) <= history
      ensures w in workers && LedTo(workers[w].at, r)
      ensures r == Results(found, old(workers)[w].job.total != 0, size, outcome, r.rowCancelled, r.contextCancelled)
      ensures acted == old(acted) + WorkSections(w, r) && SizeStored(r, sized)
    {
      hide LeadsTo, Initial;
      r, sized := Results(found, workers[w].job.total != 0, size, outcome, false, false), None;
      Decide(w, LookUpServer(w, found));
      if workers[w].at.AtSize? {
        Others(TheWorker(w));
        r, sized := MeasureAndTransfer(w, size, outcome, r);
        Joined(old(acted), [LookUpServer(w, found)], SizeSections(w, r));
      }
    }

    /** A worker goroutine from its start to its end, whatever its calls return and whatever
        happens around it: exactly the sections its results ask for, in order; and what it
        records is what they lead to. `sized` is the job's row right after its source was
        measured, and `row` is its row right after the outcome was recorded. */
    method Run(w: int, found: bool, size: Option<int>, outcome: Outcome, message: string)
      returns (ghost r: Results, ghost sized: Option<Job>, ghost row: Option<Job>)
      requires Valid() && w in workers && workers[w].at.AtServer?
      modifies this, db
      ensures Valid() && phase == old(phase) && old(history) <= history
      ensures w !in workers
      ensures r == Results(found, old(workers)[w].job.total != 0, size, outcome, r.rowCancelled, r.contextCancelled)
      ensures acted == old(acted) + RunSections(w, r, message) && SizeStored(r, sized)
      ensures row.Some? ==> Recorded(r) == Some((row.value.status, row.value.exitCode)) && row.value.error == message
    {
      hide LeadsTo, Initial;
      r, sized := Execute(w, found, size, outcome);
      row := None;
      if workers[w].at.Finishing? {
        row := Record(w, message, r);
      }
      Conclude(w);
      Concluded(old(acted), w, r, message);
    }

    method Record(w: int, message: string, ghost r: Results) returns (ghost row: Option<Job>)
      requires Valid() && w in workers && workers[w].at.Finishing? && LedTo(workers[w].at, r)
      modifies this, db
      ensures Valid() && phase == old(phase) && old(history) <= history
      ensures w in workers && workers[w].at.Leaving?
      ensures acted == old(acted) + [Finish(w, message)]
      ensures row.Some? ==> Recorded(r) == Some((row.value.status, row.value.exitCode)) && row.value.error == message
    {
      hide LeadsTo, Initial;
      Others(TheWorker(w));
      LedToFinish(origin, history, View(), w);
      WriteOutcome(w, message);
      row := if workers[w].job.id in db.rows then Some(db.rows[workers[w].job.id]) else None;
    }

    method Conclude(w: int)
      requires Valid() && w in workers && workers[w].at.Leaving?
      modifies this, db
      ensures Valid() && phase == old(phase) && old(history) <= history
      ensures w !in workers && acted == old(acted) + [Unregister(w)] + [Leave(w)]
    {
      hide LeadsTo, Initial, Enabled, ApplyLife, ApplyCall, ApplySched;
      Others(TheWorker(w));
      DropEntry(w);
      GoAway(w);
    }

    method GoAway(w: int)
      requires Valid() && w in workers && workers[w].at.Ended?
      modifies this, db
      ensures Valid() && phase == old(phase) && old(history) <= history
      ensures w !in workers && acted == old(acted) + [Leave(w)]
    {
      hide LeadsTo, Initial;
      Others(TheWorker(w));
      Depart(w);
    }

    /** The callback of the tracker's flush: the job's progress, and no status. */
    method FlushProgress(id: int, transferred: int, speed: int, eta: int)
      requires Valid() && id in helpers
      modifies db`rows, this`history, this`acted
      ensures Valid() && Did(Flush(id, transferred, speed, eta))
    {
      hide LeadsTo, Initial;
      ghost var was := View();
      var found := db.SetJobProgress(id, transferred, speed, eta);
      Note(was, Flush(id, transferred, speed, eta));
    }

    /** log: no row changes; the job's log keeps its newest lines. */
    method KeepLine(id: int, line: string)
      requires Valid()
      modifies db`log
      ensures Valid() && View() == old(View())
      ensures id in db.rows ==> LinesOf(db.log, id) == Newest(LinesOf(old(db.log), id) + [line], LOG_KEEP)
    {
      hide LeadsTo, Initial;
      var found := db.AppendJobLog(id, line, LOG_KEEP);
    }

    // ---------------------------------------------------------- API calls

    /** The first read of an API call: the call goes on if there is something to go on with. */
    method Answer(c: int, a: Action, call: Option<Call>)
      requires Valid() && Enabled(View(), a)
      requires Apply(View(), a) == if call.None? then View() else View().(calls := calls[c := call.value])
      modifies this`calls, this`history, this`acted
      ensures Valid() && Did(a)
    {
      hide LeadsTo, Initial;
      ghost var was := View();
      if call.Some? {
        calls := calls[c := call.value];
      }
      Note(was, a);
    }

    method ReadForCancel(c: int, id: int) returns (r: Reply)
      requires Valid() && phase == Up && c !in calls
      modifies this`calls, this`history, this`acted
      ensures Valid() && Did(CancelRead(c, id))
      ensures r == if id !in db.rows then NotFound
                   else if CanTransition(db.rows[id].status, Cancelled) then Accepted else Conflict
    {
      hide LeadsTo, Initial;
      var job := db.GetJob(id);
      r := if job.None? then NotFound else if CanTransition(job.value.status, Cancelled) then Accepted else Conflict;
      Answer(c, CancelRead(c, id), if r == Accepted then Some(CancelChecked(id, job.value.status)) else None);
    }

    /** History only: workers of this job remember that a Cancel has written its row. */
    method Remember(id: int)
      modifies this`workers, this`sched
      ensures View() == NoteCancel(old(View()), id)
    {
      workers := map w | w in workers ::
        if workers[w].job.id == id then workers[w].(cancelWritten := true) else workers[w];
      if sched.Marked? && sched.job.id == id {
        sched := sched.(cancelWritten := true);
      }
    }

    /** The write has no condition on the status. */
    method PutCancelled(c: int) returns (found: bool)
      requires c in calls && calls[c].CancelChecked?
      modifies db`rows, this`calls, this`workers, this`sched
      ensures View() == CancelWriteStep(old(View()), c) && found == (c in calls)
      ensures found ==> calls[c].CancelWritten?
    {
      var id := calls[c].id;
      found := db.SetJobStatus(id, Cancelled, "cancelled", None);
      if found {
        Remember(id);
        calls := calls[c := CancelWritten(id)];
      } else {
        calls := calls - {c};
      }
    }

    method WriteCancelled(c: int) returns (found: bool)
      requires Valid() && c in calls && calls[c].CancelChecked?
      modifies db`rows, this`calls, this`workers, this`sched, this`history, this`acted
      ensures Valid() && phase == old(phase)
      ensures history == old(history) + [CancelWrite(c)] && acted == old(acted) + [CancelWrite(c)]
      ensures View() == CancelWriteStep(old(View()), c) && found == (c in calls)
      ensures found ==> calls[c].CancelWritten?
    {
      hide LeadsTo, Initial;
      CancelWriteLeads(origin, history, View(), c);
      history, acted := history + [CancelWrite(c)], acted + [CancelWrite(c)];
      found := PutCancelled(c);
    }

    method LookUpEntry(c: int)
      requires Valid() && c in calls && calls[c].CancelWritten?
      modifies this`calls, this`history, this`acted
      ensures Valid() && Did(CancelLookUp(c))
    {
      hide LeadsTo, Initial, ApplySched, ApplyWorker, ApplyLife;
      ghost var was := View();
      var id := calls[c].id;
      if id in running {
        calls := calls[c := CancelFound(id, running[id])];
      } else {
        calls := calls - {c};
      }
      Note(was, CancelLookUp(c));
    }

    /** The stored function is called; its worker may have gone. */
    method FireEntry(c: int)
      requires Valid() && c in calls && calls[c].CancelFound?
      modifies this`calls, this`workers, this`history, this`acted
      ensures Valid() && Did(CancelFire(c))
      ensures var w := old(calls)[c].worker; w in workers ==> workers[w].cancelled
    {
      hide LeadsTo, Initial, ApplySched, ApplyWorker, ApplyLife;
      ghost var was := View();
      var w := calls[c].worker;
      if w in workers {
        workers := workers[w := workers[w].(cancelled := true)];
      }
      calls := calls - {c};
      Note(was, CancelFire(c));
    }

    /** If the job has an entry, the function stored there is called. */
    method SignalWorker(c: int) returns (ghost signalled: Option<int>)
      requires Valid() && c in calls && calls[c].CancelWritten?
      modifies this, db
      ensures Valid() && phase == old(phase) && old(history) <= history && c !in calls
      ensures acted == old(acted) + [CancelLookUp(c)] + if signalled.Some? then [CancelFire(c)] else []
      ensures signalled == if old(calls)[c].id in old(running) then Some(old(running)[old(calls)[c].id]) else None
      ensures signalled.Some? && signalled.value in workers ==> workers[signalled.value].cancelled
    {
      hide LeadsTo, Initial;
      signalled := None;
      LookUpEntry(c);
      if c in calls {
        signalled := Some(calls[c].worker);
        FireFound(c);
      }
    }

    method FireFound(c: int)
      requires Valid() && c in calls && calls[c].CancelFound?
      modifies this, db
      ensures Valid() && phase == old(phase) && old(history) <= history && c !in calls
      ensures acted == old(acted) + [CancelFire(c)]
      ensures var w := old(calls)[c].worker; w in workers ==> workers[w].cancelled
    {
      hide LeadsTo, Initial;
      Others(TheCall(c));
      FireEntry(c);
    }

    method CarryOut(c: int) returns (found: bool, ghost signalled: Option<int>)
      requires Valid() && c in calls && calls[c].CancelChecked?
      modifies this, db
      ensures Valid() && phase == old(phase) && old(history) <= history && c !in calls
      ensures !found ==> acted == old(acted) + [CancelWrite(c)]
      ensures found ==> acted == old(acted) + [CancelWrite(c), CancelLookUp(c)]
                                 + if signalled.Some? then [CancelFire(c)] else []
      ensures found && signalled.Some? && signalled.value in workers ==> workers[signalled.value].cancelled
    {
      hide LeadsTo, Initial;
      signalled := None;
      found := WriteCancelled(c);
      if found {
        Others(TheCall(c));
        signalled := SignalWorker(c);
      }
    }

    /** Cancel. Refused exactly when the row, as first read, is missing or may not be
        cancelled; the row may also vanish before it is written. Otherwise the row is
        written, the entry is looked up and, if there is one, its function is called: the
        worker it belongs to then has a cancelled context. */
    method Cancel(c: int, id: int) returns (r: Reply, ghost signalled: Option<int>)
      requires Valid() && phase == Up && c !in calls
      modifies this, db
      ensures Valid() && phase == Up && old(history) <= history && c !in calls
      ensures r == Conflict <==> id in old(db.rows) && !CanTransition(old(db.rows)[id].status, Cancelled)
      ensures id !in old(db.rows) ==> r == NotFound
      ensures r == Conflict || id !in old(db.rows) ==> acted == old(acted) + [CancelRead(c, id)]
      ensures r == NotFound && id in old(db.rows) ==> acted == old(acted) + [CancelRead(c, id)] + [CancelWrite(c)]
      ensures r == Accepted ==>
                acted == old(acted) + [CancelRead(c, id)] + [CancelWrite(c), CancelLookUp(c)]
                         + if signalled.Some? then [CancelFire(c)] else []
      ensures r == Accepted && signalled.Some? && signalled.value in workers ==> workers[signalled.value].cancelled
    {
      hide LeadsTo, Initial;
      signalled := None;
      r := ReadForCancel(c, id);
      if r != Accepted { return; }
      Others(TheCall(c));
      var found: bool;
      found, signalled := CarryOut(c);
      if !found { r := NotFound; }
    }

    method ReadForDelete(c: int, id: int) returns (r: Reply)
      requires Valid() && phase == Up && c !in calls
      modifies this`calls, this`history, this`acted
      ensures Valid() && Did(DeleteRead(c, id))
      ensures r == if id !in db.rows then NotFound else if Terminal(db.rows[id].status) then Accepted else Conflict
    {
      hide LeadsTo, Initial;
      var job := db.GetJob(id);
      r := if job.None? then NotFound else if Terminal(job.value.status) then Accepted else Conflict;
      Answer(c, DeleteRead(c, id), if r == Accepted then Some(DeleteChecked(id)) else None);
    }

    method DeleteRow(c: int)
      requires Valid() && c in calls && calls[c].DeleteChecked?
      modifies db`rows, db`log, this`calls, this`history, this`acted
      ensures Valid() && Did(DeleteWrite(c))
    {
      hide LeadsTo, Initial, ApplySched, ApplyWorker, ApplyLife;
      ghost var was := View();
      var found := db.DeleteJob(calls[c].id);
      calls := calls - {c};
      Note(was, DeleteWrite(c));
    }

    /** deleteJob: only a finished job, as first read, is deleted. */
    method Delete(c: int, id: int) returns (r: Reply)
      requires Valid() && phase == Up && c !in calls
      modifies this, db
      ensures Valid() && phase == Up && old(history) <= history && c !in calls
      ensures r == if id !in old(db.rows) then NotFound
                   else if Terminal(old(db.rows)[id].status) then Accepted else Conflict
      ensures r == Accepted ==> id !in db.rows && acted == old(acted) + [DeleteRead(c, id)] + [DeleteWrite(c)]
    {
      hide LeadsTo, Initial;
      r := ReadForDelete(c, id);
      if r == Accepted {
        DeleteFound(c);
      }
    }

    method DeleteFound(c: int)
      requires Valid() && c in calls && calls[c].DeleteChecked?
      modifies this, db
      ensures Valid() && phase == old(phase) && old(history) <= history && c !in calls
      ensures old(calls)[c].id !in db.rows && acted == old(acted) + [DeleteWrite(c)]
    {
      hide LeadsTo, Initial;
      Others(TheCall(c));
      DeleteRow(c);
    }

    method ReadForRetry(c: int, id: int) returns (r: Reply)
      requires Valid() && phase == Up && c !in calls
      modifies this`calls, this`history, this`acted
      ensures Valid() && Did(RetryRead(c, id))
      ensures r == if id !in db.rows then NotFound else if Terminal(db.rows[id].status) then Accepted else Conflict
    {
      hide LeadsTo, Initial;
      var job := db.GetJob(id);
      r := if job.None? then NotFound else if Terminal(job.value.status) then Accepted else Conflict;
      Answer(c, RetryRead(c, id), if r == Accepted then Some(RetryChecked(job.value)) else None);
    }

    method CreateClone(c: int) returns (newId: int)
      requires Valid() && c in calls && calls[c].RetryChecked?
      modifies db`rows, db`nextId, this`calls, this`history, this`acted
      ensures Valid() && Did(RetryCreate(c)) && newId == old(db.nextId)
    {
      hide LeadsTo, Initial, ApplySched, ApplyWorker, ApplyLife;
      ghost var was := View();
      newId := db.CreateJob(calls[c].clone.(status := Queued));
      calls := calls - {c};
      Note(was, RetryCreate(c));
    }

    /** Retry: a finished job is cloned under a new id, queued, with its paths and total. */
    method Retry(c: int, id: int) returns (r: Reply, newId: int)
      requires Valid() && phase == Up && c !in calls
      modifies this, db
      ensures Valid() && phase == Up && old(history) <= history && c !in calls
      ensures r == if id !in old(db.rows) then NotFound
                   else if Terminal(old(db.rows)[id].status) then Accepted else Conflict
      ensures r == Accepted ==>
                newId in db.rows && FreshRow(db.rows[newId], old(db.rows)[id].(status := Queued), newId)
      ensures r == Accepted ==> acted == old(acted) + [RetryRead(c, id)] + [RetryCreate(c)]
    {
      hide LeadsTo, Initial;
      newId := 0;
      r := ReadForRetry(c, id);
      if r == Accepted {
        newId := CloneFound(c);
      }
    }

    method CloneFound(c: int) returns (newId: int)
      requires Valid() && c in calls && calls[c].RetryChecked?
      modifies this, db
      ensures Valid() && phase == old(phase) && old(history) <= history && c !in calls
      ensures acted == old(acted) + [RetryCreate(c)]
      ensures newId in db.rows && FreshRow(db.rows[newId], old(calls)[c].clone.(status := Queued), newId)
    {
      hide LeadsTo, Initial;
      Others(TheCall(c));
      newId := CreateClone(c);
    }

    // ---------------------------------------------------------- Start, Stop

    method Recovery()
      requires Valid() && phase == Down
      modifies db`rows, this`phase, this`history, this`acted
      ensures Valid() && Did(Recover)
    {
      hide LeadsTo, Initial;
      ghost var was := View();
      var n := db.InterruptRunningJobs();
      phase := Recovered;
      Note(was, Recover);
    }

    /** Start: exactly the running rows become interrupted before the scheduler starts. */
    method Start()
      requires Valid() && phase == Down
      modifies db`rows, this`phase, this`history, this`acted
      ensures Valid() && phase == Up && acted == old(acted) + [Recover] + [Launch]
      ensures db.rows == InterruptRunning(old(db.rows))
    {
      hide LeadsTo, Initial;
      Recovery();
      ghost var was := View();
      phase := Up;
      Note(was, Launch);
    }

    /** The section under the mutex: collect the cancel functions. */
    method BeginStop()
      requires Valid() && phase == Up && !stopping
      modifies this`stopping, this`stop, this`history, this`acted
      ensures Valid() && Did(StopBegin)
    {
      hide LeadsTo, Initial, ApplySched, ApplyWorker, ApplyCall;
      ghost var was := View();
      stopping := true;
      stop := AwaitLoop(running.Values);
      Note(was, StopBegin);
    }

    method LoopHasEnded()
      requires Valid() && stop.AwaitLoop? && sched.Exited?
      modifies this`stop, this`history, this`acted
      ensures Valid() && Did(StopLoopEnded)
    {
      hide LeadsTo, Initial, ApplySched, ApplyWorker, ApplyCall;
      ghost var was := View();
      stop := Firing(stop.cancels);
      Note(was, StopLoopEnded);
    }

    method FireNext(w: int)
      requires Valid() && stop.Firing? && w in stop.cancels
      modifies this`stop, this`workers, this`history, this`acted
      ensures Valid() && Did(StopFire(w))
    {
      hide LeadsTo, Initial, ApplySched, ApplyWorker, ApplyCall;
      ghost var was := View();
      if w in workers {
        workers := workers[w := workers[w].(cancelled := true)];
      }
      stop := Firing(stop.cancels - {w});
      Note(was, StopFire(w));
    }

    method AllFired()
      requires Valid() && stop.Firing? && stop.cancels == {}
      modifies this`stop, this`history, this`acted
      ensures Valid() && Did(StopFired) && stop == AwaitWorkers
    {
      hide LeadsTo, Initial, ApplySched, ApplyWorker, ApplyCall;
      ghost var was := View();
      stop := AwaitWorkers;
      Note(was, StopFired);
    }

    method WorkersHaveLeft()
      requires Valid() && stop.AwaitWorkers? && workers == map[]
      modifies this`stop, this`history, this`acted
      ensures Valid() && Did(StopReturn) && stop == Returned
    {
      hide LeadsTo, Initial, ApplySched, ApplyWorker, ApplyCall;
      ghost var was := View();
      stop := Returned;
      Note(was, StopReturn);
    }

    /** Every collected function is called, each once. */
    method FireAll() returns (ghost fired: seq<int>)
      requires Valid() && stop.Firing?
      modifies this, db
      ensures Valid() && stopping == old(stopping) && old(history) <= history && stop == AwaitWorkers
      ensures acted == old(acted) + Fires(fired) + [StopFired]
      ensures (forall w :: w in fired <==> w in old(stop).cancels) && |fired| == |old(stop).cancels|
    {
      hide LeadsTo, Initial, Apply, Enabled;
      fired := [];
      while stop.cancels != {}
        invariant Valid() && stopping == old(stopping) && old(history) <= history && stop.Firing?
        invariant acted == old(acted) + Fires(fired)
        invariant stop.cancels <= old(stop).cancels
        invariant forall w :: w in fired <==> w in old(stop).cancels - stop.cancels
        invariant |fired| + |stop.cancels| == |old(stop).cancels|
        decreases stop.cancels
      {
        ghost var some := Pick(stop.cancels);
        var w :| w in stop.cancels;
        fired := FireOne(w, fired);
      }
      AllFired();
    }

    method FireOne(w: int, ghost fired: seq<int>) returns (ghost more: seq<int>)
      requires Valid() && stop.Firing? && w in stop.cancels
      modifies this, db
      ensures Valid() && stopping == old(stopping) && old(history) <= history
      ensures stop == Firing(old(stop).cancels - {w}) && more == fired + [w]
      ensures old(acted) + [StopFire(w)] == acted && Fires(more) == Fires(fired) + [StopFire(w)]
    {
      hide LeadsTo, Initial;
      FireNext(w);
      Others(TheStop);
      more := fired + [w];
      assert more[..|fired|] == fired;
    }

    /** The wait for the workers. */
    method AwaitDrain() returns (returned: bool)
      requires Valid() && stop.AwaitWorkers?
      modifies this, db
      ensures Valid() && stopping == old(stopping) && old(history) <= history && old(acted) <= acted
      ensures returned ==> stop == Returned && workers == map[] && running == map[] && sched.Exited?
    {
      hide LeadsTo, Initial, Apply, Enabled;
      Others(TheStop);
      if workers != map[] { return false; }
      WorkersHaveLeft();
      LedToInv(origin, history, View());
      NoEntriesWithoutWorkers(View());
      return true;
    }

    /** Stop. Before Start, and when a Stop has begun already, it returns at once. Otherwise
        it blocks until the loop has ended and again until the workers have left; when the
        others never get that far, it has not returned. When it has, there are no workers
        and no entries, and the scheduler is gone. */
    method StopAll() returns (returned: bool)
      requires Valid()
      modifies this, db
      ensures Valid() && old(history) <= history
      ensures old(stopping) || old(phase) != Up ==> returned && View() == old(View())
      ensures !old(stopping) && old(phase) == Up ==> stopping && old(acted) + [StopBegin] <= acted
      ensures !old(stopping) && old(phase) == Up && returned ==>
                stop == Returned && workers == map[] && running == map[] && sched.Exited?
    {
      hide LeadsTo, Initial;
      if stopping || phase != Up { return true; }
      AskLoop();
      if !sched.Exited? { return false; }
      returned := Drain();
    }

    /** The wait for the loop begins. */
    method AskLoop()
      requires Valid() && phase == Up && !stopping
      modifies this, db
      ensures Valid() && stopping && old(history) <= history && acted == old(acted) + [StopBegin] && stop.AwaitLoop?
    {
      hide LeadsTo, Initial;
      BeginStop();
      Others(TheStop);
    }

    /** The loop has ended: every collected function is called, then the workers are waited for. */
    method Drain() returns (returned: bool)
      requires Valid() && stopping && stop.AwaitLoop? && sched.Exited?
      modifies this, db
      ensures Valid() && stopping && old(history) <= history && old(acted) <= acted
      ensures returned ==> stop == Returned && workers == map[] && running == map[] && sched.Exited?
    {
      hide LeadsTo, Initial;
      LoopHasEnded();
      Others(TheStop);
      ghost var fired := FireAll();
      returned := AwaitDrain();
    }
  }

  // ------------------------------------------------------------ the run theorems, for the object

  /** Wherever the code stands: if no job was ever registered twice at a time, two executing
      workers of a job are the same, and the map's entry for the job is that worker's. */
  lemma OneWorkerAtATime(m: Manager, v: int, w: int)
    requires m.Valid() && NeverDoubles(m.origin, m.history)
    requires v in m.workers && w in m.workers && Executing(m.workers[v]) && Executing(m.workers[w])
    requires m.workers[v].job.id == m.workers[w].job.id
    ensures v == w && m.workers[w].job.id in m.running && m.running[m.workers[w].job.id] == w
  {
    OneWorkerPerJob(m.origin, m.history);
    assert v in ExecutingWorkers(m.View()) && w in ExecutingWorkers(m.View());
  }

  /** Wherever the code stands: a row that says running has someone responsible for it. */
  lemma RunningRowsAreCarried(m: Manager, id: int)
    requires m.Valid() && m.phase == Up && id in m.db.rows && m.db.rows[id].status == Running
    ensures Carried(m.View(), id)
  {
    hide LeadsTo, Initial;
    LedToInv(m.origin, m.history, m.View());
  }
}
