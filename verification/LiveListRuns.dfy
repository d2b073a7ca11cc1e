/** A run in which two publishes of a job overtake each other between read and send. */
module LiveListRuns {
  import opened Common
  import opened JobState
  import opened JobTable
  import opened JobView
  import opened Hub
  import opened LiveList
  import opened LiveListProofs

  /** The run leads from s to t, and leaves the row of job 1 announced. */
  ghost predicate Happens(s: System, run: seq<Action>, t: System, before: bool) {
    Admissible(s, run) && After(s, run) == t && !Unannounced(s, run, 1, before)
  }

  /** The step leads from s to u, and what it does to the announcement. */
  ghost predicate Leads(s: System, a: Action, u: System, before: bool, after: bool) {
    Enabled(s, a) && u == Apply(s, a) && after == StillUnannounced(s, a, 1, before)
  }

  lemma First(s: System, a: Action, u: System, rest: seq<Action>, t: System, before: bool, after: bool)
    requires Leads(s, a, u, before, after) && Happens(u, rest, t, after)
    ensures Happens(s, [a] + rest, t, before)
  {
    assert ([a] + rest)[1..] == rest;
  }

  predicate OneRunning(j: Job) { j.id == 1 && j.status == Running }

  function CancelledRow(j: Job): Job { j.(status := Cancelled) }

  /** A hub whose only subscriber, 1, holds these events. */
  function HubWith(queue: seq<Event>, received: seq<Event>, lastSent: map<int, int>): HubState {
    HubState(1, map[1 := Subscriber(queue, false, received)], lastSent)
  }

  function Before(j: Job): System {
    System(map[1 := j], EMPTY, 0, Connecting, [], Cache([], map[]), map[], map[], {})
  }

  /** The client shows the running job. */
  function Watching(j: Job): System {
    System(map[1 := j], HubWith([], [], map[]), 1, Streaming, [], Cache([ViewOf(j)], map[]), map[], map[1 := ViewOf(j)], {})
  }

  lemma LargestOfOne(limit: nat)
    requires limit >= 1
    ensures LargestFirst({1}, limit) == [1]
  {
    hide Sorted;
    LargestFirstIsTop({1}, limit, 1);
  }

  lemma ListOfOne(j: Job)
    requires j.id == 1
    ensures ListJobs(map[1 := j], None, SNAPSHOT_LIMIT, 0) == [j]
  {
    hide LargestFirst;
    var t := map[1 := j];
    assert PageIds(t, None, 0) == {1};
    LargestOfOne(SNAPSHOT_LIMIT);
  }

  lemma NewestOfOne(j: Job)
    requires j.id == 1
    ensures Newest(map[1 := j]) == [ViewOf(j)]
  {
    hide ListJobs, ViewOf;
    ListOfOne(j);
  }

  /** Two publishes have read the row, one before and one after the Cancel's write. */
  function BothRead(j: Job): System {
    Watching(j).(rows := map[1 := CancelledRow(j)], dirty := {1},
                 pending := map[0 := Read(JobProgress, 1, ViewOf(j), false),
                                1 := Read(JobDone, 1, ViewOf(CancelledRow(j)), true)])
  }

  function DoneEvent(j: Job): Event { Event(JobDone, 1, OneJob(ViewOf(CancelledRow(j)))) }

  function ProgressEvent(j: Job): Event { Event(JobProgress, 1, OneJob(ViewOf(j))) }

  /** The later read is sent first. */
  function BothSent(j: Job): System {
    BothRead(j).(hub := HubWith([DoneEvent(j), ProgressEvent(j)], [], map[1 := 0]), pending := map[],
                 last := map[1 := ViewOf(j)], dirty := {1})
  }

  function Drained(j: Job): System {
    BothSent(j).(hub := HubWith([], [DoneEvent(j), ProgressEvent(j)], map[1 := 0]))
  }

  function Attaching(j: Job): System { Before(j).(hub := HubWith([], [], map[]), id := 1, phase := Attached) }

  function Snapped(j: Job): System {
    Attaching(j).(phase := Streaming, wire := [SnapshotEvent([ViewOf(j)])], last := map[1 := ViewOf(j)])
  }

  lemma Attaches(j: Job)
    ensures Leads(Before(j), Attach, Attaching(j), true, false)
  {
  }

  lemma Snaps(j: Job)
    requires OneRunning(j)
    ensures Leads(Attaching(j), SendSnapshot, Snapped(j), false, false)
  {
    hide SnapshotStep;
    SnapshotOfOne(j, Attaching(j));
  }

  lemma ConsumesSnapshot(j: Job)
    ensures Leads(Snapped(j), Consume, Watching(j), false, false)
  {
  }

  lemma Connects(j: Job, rest: seq<Action>, t: System)
    requires OneRunning(j) && Happens(Watching(j), rest, t, false)
    ensures Happens(Before(j), [Attach] + ([SendSnapshot] + ([Consume] + rest)), t, true)
  {
    hide *;
    Attaches(j);
    Snaps(j);
    ConsumesSnapshot(j);
    First(Snapped(j), Consume, Watching(j), rest, t, false, false);
    First(Attaching(j), SendSnapshot, Snapped(j), [Consume] + rest, t, false, false);
    First(Before(j), Attach, Attaching(j), [SendSnapshot] + ([Consume] + rest), t, true, false);
  }

  lemma SnapshotOfOne(j: Job, s: System)
    requires j.id == 1 && s.rows == map[1 := j] && s.last == map[] && s.dirty == {} && s.wire == []
    ensures SnapshotStep(s) == s.(phase := Streaming, wire := [SnapshotEvent([ViewOf(j)])], last := map[1 := ViewOf(j)])
  {
    hide Newest, IdSet;
    NewestOfOne(j);
    OneId(ViewOf(j));
    assert ViewsById(s.rows, {1}) == map[1 := ViewOf(j)];
  }

  lemma OneId(v: View)
    ensures IdSet([v]) == {v.id}
  {
    assert IdsOf([v], v.id) by { assert [v][0].id == v.id; }
  }

  function FlushRead(j: Job): System {
    Watching(j).(pending := map[0 := Read(JobProgress, 1, ViewOf(j), true)])
  }

  function Cancelling(j: Job): System {
    Watching(j).(rows := map[1 := CancelledRow(j)], dirty := {1},
                 pending := map[0 := Read(JobProgress, 1, ViewOf(j), false)])
  }

  lemma ReadsOnce(j: Job)
    requires OneRunning(j)
    ensures Leads(Watching(j), ReadRow(0, JobProgress, 1), FlushRead(j), false, false)
  {
  }

  lemma Writes(j: Job)
    requires OneRunning(j)
    ensures Leads(FlushRead(j), WriteRow(CancelledRow(j)), Cancelling(j), false, true)
  {
    assert WriteStep(FlushRead(j), CancelledRow(j)) == Cancelling(j);
  }

  lemma ReadsTwice(j: Job)
    requires OneRunning(j)
    ensures Leads(Cancelling(j), ReadRow(1, JobDone, 1), BothRead(j), true, true)
  {
  }

  lemma Reads(j: Job, rest: seq<Action>, t: System)
    requires OneRunning(j) && Happens(BothRead(j), rest, t, true)
    ensures Happens(Watching(j),
                    [ReadRow(0, JobProgress, 1)] + ([WriteRow(CancelledRow(j))] + ([ReadRow(1, JobDone, 1)] + rest)),
                    t, false)
  {
    hide *;
    ReadsOnce(j);
    Writes(j);
    ReadsTwice(j);
    First(Cancelling(j), ReadRow(1, JobDone, 1), BothRead(j), rest, t, true, true);
    First(FlushRead(j), WriteRow(CancelledRow(j)), Cancelling(j), [ReadRow(1, JobDone, 1)] + rest, t, false, true);
    First(Watching(j), ReadRow(0, JobProgress, 1), FlushRead(j),
          [WriteRow(CancelledRow(j))] + ([ReadRow(1, JobDone, 1)] + rest), t, false, false);
  }

  lemma SendsTo(h: HubState, q: seq<Event>, l: map<int, int>, e: Event, now: int)
    requires h == HubWith(q, [], l) && |q| < BUFFER_SIZE && !Coalesced(h, e, now)
    ensures Published(h, e, now) == HubWith(q + [e], [], Clock(l, e, now))
  {
  }

  /** The later read has been sent, the earlier one not yet. */
  function OneSent(j: Job): System {
    BothRead(j).(hub := HubWith([DoneEvent(j)], [], map[]), last := map[1 := ViewOf(CancelledRow(j))], dirty := {},
                 pending := map[0 := Read(JobProgress, 1, ViewOf(j), false)])
  }

  lemma SendsDone(j: Job)
    requires OneRunning(j)
    ensures Leads(BothRead(j), Send(1, 0), OneSent(j), true, false)
  {
    var s0, d := BothRead(j), DoneEvent(j);
    SendsTo(s0.hub, [], map[], d, 0);
    assert [] + [d] == [d] && Clock(map[], d, 0) == map[];
    assert s0.pending - {1} == OneSent(j).pending;
  }

  lemma SendsProgress(j: Job)
    requires OneRunning(j)
    ensures Leads(OneSent(j), Send(0, 0), BothSent(j), false, false)
  {
    var s1, d, e := OneSent(j), DoneEvent(j), ProgressEvent(j);
    SendsTo(s1.hub, [d], map[], e, 0);
    assert [d] + [e] == [d, e] && s1.pending - {0} == map[];
  }

  lemma Sends(j: Job, rest: seq<Action>, t: System)
    requires OneRunning(j) && Happens(BothSent(j), rest, t, false)
    ensures Happens(BothRead(j), [Send(1, 0)] + ([Send(0, 0)] + rest), t, true)
  {
    hide *;
    SendsDone(j);
    SendsProgress(j);
    First(OneSent(j), Send(0, 0), BothSent(j), rest, t, false, false);
    First(BothRead(j), Send(1, 0), OneSent(j), [Send(0, 0)] + rest, t, true, false);
  }

  function OneTaken(j: Job): System {
    BothSent(j).(hub := HubWith([ProgressEvent(j)], [DoneEvent(j)], map[1 := 0]), wire := [DoneEvent(j)])
  }

  function OnWire(j: Job): System { Drained(j).(wire := [DoneEvent(j), ProgressEvent(j)]) }

  function OneShown(j: Job): System {
    Drained(j).(wire := [ProgressEvent(j)], cache := Cache([ViewOf(CancelledRow(j))], map[]))
  }

  lemma DeliversDone(j: Job)
    ensures Leads(BothSent(j), Deliver, OneTaken(j), false, false)
  {
    hide ViewOf, CancelledRow;
    var d, e := DoneEvent(j), ProgressEvent(j);
    assert [d, e][1..] == [e] && [] + [d] == [d];
  }

  lemma DeliversProgress(j: Job)
    ensures Leads(OneTaken(j), Deliver, OnWire(j), false, false)
  {
    hide ViewOf, CancelledRow;
    var d, e := DoneEvent(j), ProgressEvent(j);
    assert [e][1..] == [] && [d] + [e] == [d, e];
  }

  lemma ConsumesDone(j: Job)
    requires OneRunning(j)
    ensures Leads(OnWire(j), Consume, OneShown(j), false, false)
  {
    assert [DoneEvent(j), ProgressEvent(j)][1..] == [ProgressEvent(j)];
    assert Upsert([ViewOf(j)], ViewOf(CancelledRow(j))) == [ViewOf(CancelledRow(j))];
  }

  lemma ConsumesProgress(j: Job)
    requires OneRunning(j)
    ensures Leads(OneShown(j), Consume, Drained(j), false, false)
  {
    assert [ProgressEvent(j)][1..] == [];
    assert Upsert([ViewOf(CancelledRow(j))], ViewOf(j)) == [ViewOf(j)];
  }

  lemma NothingMore(t: System)
    ensures Happens(t, [], t, false)
  {
  }

  lemma Takes(j: Job)
    requires OneRunning(j)
    ensures Happens(BothSent(j), [Deliver] + ([Deliver] + ([Consume] + ([Consume] + []))), Drained(j), false)
  {
    hide *;
    NothingMore(Drained(j));
    DeliversDone(j);
    DeliversProgress(j);
    ConsumesDone(j);
    ConsumesProgress(j);
    First(OneShown(j), Consume, Drained(j), [], Drained(j), false, false);
    First(OnWire(j), Consume, OneShown(j), [Consume] + [], Drained(j), false, false);
    First(OneTaken(j), Deliver, OnWire(j), [Consume] + ([Consume] + []), Drained(j), false, false);
    First(BothSent(j), Deliver, OneTaken(j), [Deliver] + ([Consume] + ([Consume] + [])), Drained(j), false, false);
  }

  /** A flush reads the row; a Cancel writes it, reads it and sends; then the flush sends what
      it had read. The row's last write has been announced, the client is up to date, and it
      shows a cancelled job as running. */
  lemma OlderViewIsSentLast(j: Job) returns (run: seq<Action>)
    requires OneRunning(j)
    ensures Initial(Before(j)) && Admissible(Before(j), run) && !Unannounced(Before(j), run, 1, true)
    ensures var t := After(Before(j), run);
      && UpToDate(t) && 1 in t.rows && t.rows[1].status == Cancelled
      && Find(t.cache.jobs, 1) == Some(ViewOf(j)) && ViewOf(j).status == Running
  {
    run := OlderViewRuns(j);
    DrainedShowsRunning(j);
  }

  lemma DrainedShowsRunning(j: Job)
    requires OneRunning(j)
    ensures var t := Drained(j);
      && UpToDate(t) && 1 in t.rows && t.rows[1].status == Cancelled
      && Find(t.cache.jobs, 1) == Some(ViewOf(j)) && ViewOf(j).status == Running
  {
  }

  lemma OlderViewRuns(j: Job) returns (run: seq<Action>)
    requires OneRunning(j)
    ensures Happens(Before(j), run, Drained(j), true)
  {
    hide *;
    var taken := [Deliver] + ([Deliver] + ([Consume] + ([Consume] + [])));
    var sent := [Send(1, 0)] + ([Send(0, 0)] + taken);
    var read := [ReadRow(0, JobProgress, 1)] + ([WriteRow(CancelledRow(j))] + ([ReadRow(1, JobDone, 1)] + sent));
    Takes(j);
    Sends(j, taken, Drained(j));
    Reads(j, sent, Drained(j));
    Connects(j, read, Drained(j));
    run := [Attach] + ([SendSnapshot] + ([Consume] + read));
  }
}
