/** What one pass of the scheduler starts when nobody else acts: as many of the oldest
    waiting jobs as there are free slots, and nothing else. */
module ManagerPass {
  import opened Common
  import opened JobState
  import opened JobTable
  import opened JobManager
  import opened ManagerInvariants
  import opened ManagerExclusion

  /** The slots are counted under the mutex: the pass ends there exactly when Stop has begun
      or the limit is reached, and otherwise it goes on with all the slots that are left. */
  lemma CountFreeDecides(s: State)
    requires Enabled(s, CountFree)
    ensures var t, free := Apply(s, CountFree), s.sched.limit - |s.running|;
            && (t.sched == Idle <==> s.stopping || free <= 0)
            && (t.sched != Idle ==> t.sched == HasFree(s.sched.limit, free))
            && t == s.(sched := t.sched)
  {
    hide ApplyWorker, ApplyCall, ApplyLife;
  }

  // ------------------------------------------------------------ a pass by itself

  /** A pass from the reading of its limit on, with no other action in between. */
  predicate PassRun(run: seq<Action>, limit: nat) {
    run != [] && run[0] == ReadLimit(limit) && Passing(run[1..])
  }

  predicate InPass(a: Action) { a.CountFree? || a.QueryQueue? || a.MarkNext? || a.Register? || a.EndPass? }

  predicate Passing(run: seq<Action>) {
    forall i :: 0 <= i < |run| ==> InPass(run[i])
  }

  /** No waiting row has an entry. */
  ghost predicate WaitersAreFree(s: State) {
    forall id :: id in RunnableIds(s.rows) ==> id !in s.running
  }

  /** The row says running, since now at the latest, and nothing of an earlier end; what the
      job is about and how far it has come stands. */
  predicate JustMarked(was: Job, row: Job) {
    && row.status == Running && row.started && row.error == "" && row.exitCode == None
    && SameJob(was, row) && row.total == was.total && row.transferred == was.transferred
  }

  /** The first `marked` rows of the queue say running, and nobody else's row has changed. */
  ghost predicate RowsMarked(s: State, t: State, q: seq<Job>, marked: nat)
    requires marked <= |q|
  {
    && t.rows.Keys == s.rows.Keys
    && (forall i :: 0 <= i < marked ==>
          q[i].id in s.rows && q[i].id in t.rows && JustMarked(s.rows[q[i].id], t.rows[q[i].id]))
    && (forall id :: id in s.rows && !(exists i :: 0 <= i < marked && q[i].id == id) ==> t.rows[id] == s.rows[id])
  }

  /** A worker at the beginning of its work, with a live context. */
  predicate Begun(t: State, id: int) {
    && id in t.running && t.running[id] in t.workers
    && t.workers[t.running[id]].job.id == id
    && t.workers[t.running[id]].at == AtServer && !t.workers[t.running[id]].cancelled
  }

  /** The first `begun` jobs of the queue have a worker and an entry each; the other entries
      are as they were. */
  ghost predicate WorkersBegun(s: State, t: State, q: seq<Job>, begun: nat)
    requires begun <= |q|
  {
    && (forall i :: 0 <= i < begun ==> Begun(t, q[i].id) && t.running[q[i].id] < t.nextWorker)
    && (forall id :: id in s.running ==> id in t.running && t.running[id] == s.running[id])
    && (forall id :: id in t.running && id !in s.running ==> exists i :: 0 <= i < begun && q[i].id == id)
    && |t.running| == |s.running| + begun
  }

  /** Where a pass that began in s can stand. */
  ghost predicate Underway(s: State, limit: nat, t: State) {
    var slots := limit - |s.running|;
    && t.stopping == s.stopping
    && match t.sched
       case HasLimit(l) => l == limit && t == s.(sched := t.sched)
       case HasFree(l, free) => l == limit && free == slots > 0 && !s.stopping && t == s.(sched := t.sched)
       case Picking(l, rest) => !s.stopping && slots > 0 && PickingFrom(s, t, Queue(s.rows, slots), rest)
       case Marked(l, job, rest, _) => !s.stopping && slots > 0 && MarkedFrom(s, t, Queue(s.rows, slots), job, rest)
       case Idle => Ended(s, limit, t)
       case Exited => false
  }

  ghost predicate PickingFrom(s: State, t: State, q: seq<Job>, rest: seq<Job>) {
    var k := |q| - |rest|;
    k >= 0 && rest == q[k..] && RowsMarked(s, t, q, k) && WorkersBegun(s, t, q, k)
  }

  ghost predicate MarkedFrom(s: State, t: State, q: seq<Job>, job: Job, rest: seq<Job>) {
    var k := |q| - |rest| - 1;
    k >= 0 && rest == q[k + 1..] && job.id == q[k].id && RowsMarked(s, t, q, k + 1) && WorkersBegun(s, t, q, k)
  }

  ghost predicate Ended(s: State, limit: nat, t: State) {
    var slots := limit - |s.running|;
    if s.stopping || slots <= 0 then t == s
    else
      var q := Queue(s.rows, slots);
      RowsMarked(s, t, q, |q|) && WorkersBegun(s, t, q, |q|)
  }

  /** What is known of the queue of a pass. */
  ghost predicate Candidates(s: State, q: seq<Job>) {
    && AscendingIds(q)
    && (forall i :: 0 <= i < |q| ==> q[i].id in s.rows && q[i].id !in s.running && Runnable(q[i].status))
  }

  lemma QueueIsCandidates(s: State, slots: nat)
    requires Keyed(s.rows) && WaitersAreFree(s)
    ensures Candidates(s, Queue(s.rows, slots))
  {
    hide Queue;
    QueueIsOldestFirst(s.rows, slots);
  }

  // ------------------------------------------------------------ step by step

  lemma MarkStep(s: State, t: State, q: seq<Job>, rest: seq<Job>)
    requires Candidates(s, q) && PickingFrom(s, t, q, rest) && rest != []
    requires t.sched.Picking? && t.sched.queue == rest
    ensures var u := MarkNextStep(t);
            u.sched.Marked? && MarkedFrom(s, u, q, u.sched.job, u.sched.queue) && u.stopping == t.stopping
            && u.sched.limit == t.sched.limit
  {
    hide SetStatus, RowsMarked, WorkersBegun, CanTransition;
    var k := |q| - |rest|;
    var u := MarkNextStep(t);
    assert rest[0] == q[k] && rest[1..] == q[k + 1..];
    WaitersCanRun(q[k].status);
    SameRows(s, t, q, k);
    RowMarked(s, t, q, k, u);
    SameBegun(s, t, u, q, k);
  }

  lemma WaitersCanRun(status: Status)
    requires Runnable(status)
    ensures CanTransition(status, Running)
  {
  }

  lemma SameRows(s: State, t: State, q: seq<Job>, k: nat)
    requires k <= |q| && RowsMarked(s, t, q, k)
    ensures t.rows.Keys == s.rows.Keys
  {
  }

  lemma IsMarked(j: Job)
    ensures JustMarked(j, WithStatus(j, Running, "", None))
  {
  }

  lemma RowMarked(s: State, t: State, q: seq<Job>, k: nat, u: State)
    requires k < |q| && AscendingIds(q) && RowsMarked(s, t, q, k) && q[k].id in t.rows
    requires u.rows == SetStatus(t.rows, q[k].id, Running, "", None)
    ensures RowsMarked(s, u, q, k + 1)
  {
    hide WithStatus, JustMarked;
    assert u.rows == t.rows[q[k].id := WithStatus(t.rows[q[k].id], Running, "", None)];
    assert t.rows[q[k].id] == s.rows[q[k].id];
    IsMarked(s.rows[q[k].id]);
    forall id | id in s.rows && !(exists i :: 0 <= i < k + 1 && q[i].id == id) ensures u.rows[id] == s.rows[id] {
      assert id != q[k].id;
      assert !(exists i :: 0 <= i < k && q[i].id == id);
    }
  }

  lemma SameBegun(s: State, t: State, u: State, q: seq<Job>, k: nat)
    requires k <= |q| && WorkersBegun(s, t, q, k)
    requires u.running == t.running && u.workers == t.workers && u.nextWorker == t.nextWorker
    ensures WorkersBegun(s, u, q, k)
  {
  }

  lemma RegisterOne(s: State, t: State, q: seq<Job>, rest: seq<Job>)
    requires Candidates(s, q) && t.sched.Marked? && MarkedFrom(s, t, q, t.sched.job, t.sched.queue) && !t.stopping
    ensures var u := RegisterStep(t);
            u.sched.Picking? && PickingFrom(s, u, q, u.sched.queue) && u.stopping == t.stopping
            && u.sched.limit == t.sched.limit
  {
    var k := |q| - |t.sched.queue| - 1;
    var u := RegisterStep(t);
    var id := q[k].id;
    NotYet(s, t, q, k);
    assert u.running == t.running[id := t.nextWorker];
    OneMoreBegun(s, t, q, k, u);
  }

  /** Its turn has not come before. */
  lemma NotYet(s: State, t: State, q: seq<Job>, k: nat)
    requires Candidates(s, q) && k < |q| && WorkersBegun(s, t, q, k)
    ensures q[k].id !in t.running
  {
    hide Begun;
    forall i | 0 <= i < k ensures q[i].id != q[k].id { }
  }

  lemma OneMoreBegun(s: State, t: State, q: seq<Job>, k: nat, u: State)
    requires k < |q| && WorkersBegun(s, t, q, k) && q[k].id !in t.running
    requires u.running == t.running[q[k].id := t.nextWorker] && u.nextWorker == t.nextWorker + 1
    requires exists x :: u.workers == t.workers[t.nextWorker := x] && x.job.id == q[k].id && x.at == AtServer && !x.cancelled
    ensures WorkersBegun(s, u, q, k + 1)
  {
    assert |t.running[q[k].id := t.nextWorker]| == |t.running| + 1;
    forall i | 0 <= i < k + 1 ensures Begun(u, q[i].id) && u.running[q[i].id] < u.nextWorker {
      if i < k { assert Begun(t, q[i].id); }
    }
  }

  lemma FirstPick(s: State, t: State, q: seq<Job>)
    requires t.rows == s.rows && t.running == s.running
    ensures PickingFrom(s, t, q, q)
  {
    assert q[0..] == q;
  }

  lemma CountStep(s: State, limit: nat, t: State)
    requires Underway(s, limit, t) && t.sched.HasLimit? && s.sched.Idle?
    ensures Underway(s, limit, CountFreeStep(t))
  {
    hide PickingFrom, MarkedFrom;
  }

  lemma QueryStep(s: State, limit: nat, t: State)
    requires Underway(s, limit, t) && t.sched.HasFree?
    ensures Underway(s, limit, QueryQueueStep(t))
  {
    hide PickingFrom, MarkedFrom, Queue;
    FirstPick(s, QueryQueueStep(t), Queue(s.rows, limit - |s.running|));
  }

  lemma PassStep(s: State, limit: nat, t: State, a: Action)
    requires Keyed(s.rows) && WaitersAreFree(s) && s.sched.Idle?
    requires Underway(s, limit, t) && Enabled(t, a) && InPass(a)
    ensures Underway(s, limit, Apply(t, a))
  {
    hide ApplyWorker, ApplyCall, ApplyLife, Queue, MarkNextStep, RegisterStep, PickingFrom, MarkedFrom, WaitersAreFree;
    var slots := limit - |s.running|;
    if slots > 0 { QueueIsCandidates(s, slots); }
    match a
    case CountFree => CountStep(s, limit, t);
    case QueryQueue => QueryStep(s, limit, t);
    case MarkNext => MarkStep(s, t, Queue(s.rows, slots), t.sched.queue);
    case Register => RegisterOne(s, t, Queue(s.rows, slots), t.sched.queue);
    case EndPass => PassEnds(s, limit, t);
  }

  lemma PassEnds(s: State, limit: nat, t: State)
    requires Underway(s, limit, t) && t.sched.Picking? && t.sched.queue == []
    ensures Underway(s, limit, SchedTo(t, Idle))
  {
    hide Queue;
  }

  lemma {:induction false} PassFrom(s: State, limit: nat, t: State, run: seq<Action>)
    requires Keyed(s.rows) && WaitersAreFree(s) && s.sched.Idle? && Underway(s, limit, t)
    requires Admissible(t, run) && Passing(run)
    ensures Underway(s, limit, After(t, run))
    decreases |run|
  {
    hide Apply, Enabled, Underway, WaitersAreFree;
    if run != [] {
      PassStep(s, limit, t, run[0]);
      PassFrom(s, limit, Apply(t, run[0]), run[1..]);
    }
  }

  // ------------------------------------------------------------ the theorem

  /** The jobs that got an entry. */
  ghost function Started(s: State, t: State): set<int> { t.running.Keys - s.running.Keys }

  /** The oldest waiting jobs and no others; their rows say running and each has a worker
      that begins with a live context; every other row and entry is as it was. */
  ghost predicate StartsOldest(s: State, t: State) {
    var started, waiting := Started(s, t), RunnableIds(s.rows);
    && started <= waiting
    && (forall id, other :: id in started && other in waiting && other !in started ==> id < other)
    && (forall id :: id in started ==> Begun(t, id) && id in s.rows && id in t.rows && JustMarked(s.rows[id], t.rows[id]))
    && (forall id :: id in s.running ==> id in t.running && t.running[id] == s.running[id])
    && t.rows.Keys == s.rows.Keys && (forall id :: id in s.rows && id !in started ==> t.rows[id] == s.rows[id])
  }

  lemma EndedStartsOldest(s: State, t: State, slots: nat)
    requires Keyed(s.rows) && WaitersAreFree(s)
    requires var q := Queue(s.rows, slots); RowsMarked(s, t, q, |q|) && WorkersBegun(s, t, q, |q|)
    ensures StartsOldest(s, t) && |t.running| == |s.running| + Min(slots, |RunnableIds(s.rows)|)
  {
    hide Queue, Begun, JustMarked;
    var q := Queue(s.rows, slots);
    QueueIsOldestFirst(s.rows, slots);
    forall id ensures (id in Started(s, t) <==> Listed(q, id)) && (Listed(q, id) ==> id in RunnableIds(s.rows)) {
      if i :| 0 <= i < |q| && q[i].id == id { assert Begun(t, q[i].id); StartedByPass(s, t, q, i); }
    }
    StartedAreMarked(s, t, q);
    forall id, other | id in Started(s, t) && other in RunnableIds(s.rows) && other !in Started(s, t) ensures id < other {
      assert Listed(q, id) && !Listed(q, other);
    }
    forall id | id in Started(s, t) ensures id in RunnableIds(s.rows) { assert Listed(q, id); }
  }

  lemma StartedAreMarked(s: State, t: State, q: seq<Job>)
    requires RowsMarked(s, t, q, |q|) && WorkersBegun(s, t, q, |q|)
    requires forall id :: id in Started(s, t) <==> Listed(q, id)
    ensures forall id :: id in Started(s, t) ==>
              Begun(t, id) && id in s.rows && id in t.rows && JustMarked(s.rows[id], t.rows[id])
    ensures forall id :: id in s.rows && id !in Started(s, t) ==> id in t.rows && t.rows[id] == s.rows[id]
  {
    hide Begun, JustMarked;
    forall id | id in Started(s, t)
      ensures Begun(t, id) && id in s.rows && id in t.rows && JustMarked(s.rows[id], t.rows[id])
    {
      assert Listed(q, id);
      var i :| 0 <= i < |q| && q[i].id == id;
    }
    forall id | id in s.rows && id !in Started(s, t) ensures t.rows[id] == s.rows[id] {
      assert !Listed(q, id);
    }
  }

  lemma StartedByPass(s: State, t: State, q: seq<Job>, i: nat)
    requires i < |q| && q[i].id in RunnableIds(s.rows) && WaitersAreFree(s) && Begun(t, q[i].id)
    ensures q[i].id in Started(s, t)
  {
  }

  /** Work conservation. A pass in which nobody else acts, when no waiting row has an entry,
      fills the free slots as far as there are waiting jobs, with the oldest ones; if Stop has
      begun it starts nobody. */
  lemma PassFillsSlots(s: State, run: seq<Action>, limit: nat)
    requires Inv(s) && s.sched.Idle? && WaitersAreFree(s)
    requires Admissible(s, run) && PassRun(run, limit) && After(s, run).sched.Idle?
    ensures var t := After(s, run);
            if s.stopping then t == s
            else StartsOldest(s, t) &&
                 |t.running| == Max(|s.running|, Min(limit, |s.running| + |RunnableIds(s.rows)|))
  {
    hide Apply, Enabled, Underway, Ended, StartsOldest, WaitersAreFree, PassOk, NoneLost, PhaseOk, NumbersOk, EntriesOk;
    LimitIsRead(s, limit);
    PassFrom(s, limit, Apply(s, run[0]), run[1..]);
    EndIsIdle(s, limit, After(s, run));
    EndFillsSlots(s, limit, After(s, run));
  }

  lemma EndIsIdle(s: State, limit: nat, t: State)
    requires Underway(s, limit, t) && t.sched.Idle?
    ensures Ended(s, limit, t)
  {
    hide Ended, PickingFrom, MarkedFrom;
  }

  lemma EndFillsSlots(s: State, limit: nat, t: State)
    requires Keyed(s.rows) && WaitersAreFree(s) && Ended(s, limit, t)
    ensures if s.stopping then t == s
            else StartsOldest(s, t) &&
                 |t.running| == Max(|s.running|, Min(limit, |s.running| + |RunnableIds(s.rows)|))
  {
    hide WaitersAreFree, WorkersBegun, RowsMarked, StartsOldest, Queue;
    var slots := limit - |s.running|;
    if !s.stopping && slots > 0 { EndedStartsOldest(s, t, slots); } else { NobodyStarted(s); }
  }

  /** After every undisturbed run no waiting row has an entry while the scheduler is there. So
      then every pass by itself fills the slots. */
  lemma UndisturbedPassFillsSlots(s: State, past: seq<Action>, run: seq<Action>, limit: nat)
    requires Initial(s) && Admissible(s, past) && Undisturbed(s, past) && After(s, past).sched.Idle?
    requires Admissible(After(s, past), run) && PassRun(run, limit) && After(After(s, past), run).sched.Idle?
    ensures var t := After(s, past); var u := After(t, run);
            if t.stopping then u == t
            else StartsOldest(t, u) &&
                 |u.running| == Max(|t.running|, Min(limit, |t.running| + |RunnableIds(t.rows)|))
  {
    hide Apply, Enabled, StartsOldest, OwnEntry, MarkedOk, RowsFollow, CausesOk, CallsOk, StopOk, Inv;
    InitialInv(s);
    InvRun(s, past);
    ExDown(s);
    ExclusiveRun(s, past);
    PassFillsSlots(After(s, past), run, limit);
  }

  lemma LimitIsRead(s: State, limit: nat)
    requires Enabled(s, ReadLimit(limit))
    ensures Underway(s, limit, Apply(s, ReadLimit(limit)))
  {
    hide ApplyWorker, ApplyCall, ApplyLife;
  }

  lemma NobodyStarted(s: State)
    ensures StartsOldest(s, s)
  {
  }
}
