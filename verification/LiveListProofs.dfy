/** What a client shows, exactly, and when it is what the database says. */
module LiveListProofs {
  import opened Common
  import opened JobTable
  import opened JobView
  import opened Hub
  import opened LiveList
  import HubRuns

  // ------------------------------------------------------------ lists of views

  predicate Unique(list: seq<View>) {
    forall i, j :: 0 <= i < j < |list| ==> list[i].id != list[j].id
  }

  /** The entry the client shows for an id. */
  function Find(list: seq<View>, id: int): Option<View> {
    var i := IndexOf(list, id);
    if i == |list| then None else Some(list[i])
  }

  lemma FindNone(list: seq<View>, id: int)
    ensures Find(list, id).None? <==> !IdsOf(list, id)
  {
    if Find(list, id).Some? { assert list[IndexOf(list, id)].id == id; }
  }

  /** Where two lists agree on the ids, position by position, they agree on indices. */
  lemma {:induction false} SameIndex(a: seq<View>, b: seq<View>, id: int)
    requires |a| == |b| && forall i :: 0 <= i < |a| ==> a[i].id == b[i].id
    ensures IndexOf(a, id) == IndexOf(b, id)
    decreases |a|
  {
    if a != [] { SameIndex(a[1..], b[1..], id); }
  }

  /** upsert keeps ids distinct, sets one entry and leaves every other as it was. */
  lemma UpsertFind(prev: seq<View>, job: View, id: int)
    requires Unique(prev)
    ensures Unique(Upsert(prev, job))
    ensures Find(Upsert(prev, job), id) == if id == job.id then Some(job) else Find(prev, id)
  {
    var i := IndexOf(prev, job.id);
    var next := Upsert(prev, job);
    if i == |prev| {
      assert next[1..] == prev;
    } else {
      SameIndex(prev, next, id);
    }
  }

  /** A new job goes in front; a known one changes in its place. Nobody else moves. */
  lemma UpsertPlaces(prev: seq<View>, job: View)
    ensures !IdsOf(prev, job.id) ==> Upsert(prev, job) == [job] + prev
    ensures IdsOf(prev, job.id) ==>
              exists i :: 0 <= i < |prev| && prev[i].id == job.id && Upsert(prev, job) == prev[i := job]
  {
    var i := IndexOf(prev, job.id);
    if i < |prev| { assert prev[i].id == job.id && Upsert(prev, job) == prev[i := job]; }
  }

  // ------------------------------------------------------------ folding deltas

  predicate Delta(e: Event) {
    e.kind in {JobCreated, JobProgress, JobDone, JobFailed} && e.data.OneJob? && e.data.view.id == e.jobId
  }

  predicate Quiet(e: Event) { e.kind == JobLog && e.data.Line? }

  predicate Deltas(frames: seq<Event>) {
    forall i :: 0 <= i < |frames| ==> Delta(frames[i]) || Quiet(frames[i])
  }

  /** The last delta for an id. */
  function Latest(frames: seq<Event>, id: int): Option<View>
    decreases |frames|
  {
    if frames == [] then None
    else
      var n := |frames| - 1;
      if Delta(frames[n]) && frames[n].jobId == id then Some(frames[n].data.view)
      else Latest(frames[..n], id)
  }

  lemma LatestAppend(frames: seq<Event>, e: Event, id: int)
    ensures Latest(frames + [e], id) ==
            if Delta(e) && e.jobId == id then Some(e.data.view) else Latest(frames, id)
  {
    assert (frames + [e])[..|frames|] == frames;
  }

  lemma FrameFind(c: Cache, e: Event, id: int)
    requires Unique(c.jobs) && (Delta(e) || Quiet(e))
    ensures Unique(ApplyFrame(c, e).jobs)
    ensures Find(ApplyFrame(c, e).jobs, id) ==
            if Delta(e) && e.jobId == id then Some(e.data.view) else Find(c.jobs, id)
  {
    if Delta(e) { UpsertFind(c.jobs, e.data.view, id); }
  }

  /** Folding deltas shows, for each id, its last delta, or what was shown before. */
  lemma {:induction false} FoldFind(c: Cache, frames: seq<Event>, id: int)
    requires Unique(c.jobs) && Deltas(frames)
    ensures Unique(Fold(c, frames).jobs)
    ensures Find(Fold(c, frames).jobs, id) ==
            if Latest(frames, id).Some? then Latest(frames, id) else Find(c.jobs, id)
    decreases |frames|
  {
    if frames != [] {
      var n := |frames| - 1;
      var front, e := frames[..n], frames[n];
      assert frames == front + [e];
      FoldFind(c, front, id);
      FoldAppend(c, front, [e]);
      assert [e][1..] == [];
      assert Fold(Fold(c, front), [e]) == ApplyFrame(Fold(c, front), e);
      FrameFind(Fold(c, front), e, id);
    }
  }

  // ------------------------------------------------------------ folding log lines

  function LogOf(c: Cache, job: int): seq<string> { if job in c.logs then c.logs[job] else [] }

  /** The lines about a job among the frames, in order. */
  function LinesFor(frames: seq<Event>, job: int): seq<string> {
    if frames == [] then []
    else (if frames[0].kind == JobLog && frames[0].jobId == job && frames[0].data.Line? then [frames[0].data.text] else [])
         + LinesFor(frames[1..], job)
  }

  /** The end of a list: as much as fits. */
  predicate NewestOf(kept: seq<string>, all: seq<string>, limit: nat) {
    |kept| == Min(limit, |all|) && kept == all[|all| - |kept|..]
  }

  lemma NewestThenNewest(a: seq<string>, b: seq<string>, c: seq<string>, kept: seq<string>, limit: nat)
    requires NewestOf(b, a, limit) && NewestOf(kept, b + c, limit)
    ensures NewestOf(kept, a + c, limit)
  {
    var d := |a| - |b|;
    assert (a + c)[d..] == b + c;
    assert kept == (a + c)[d..][|b + c| - |kept|..];
  }

  lemma FrameLogs(c: Cache, e: Event, job: int)
    requires job != 0 && |LogOf(c, job)| <= 500
    ensures NewestOf(LogOf(ApplyFrame(c, e), job), LogOf(c, job) + LinesFor([e], job), 500)
  {
    assert [e][1..] == [] && LogOf(c, job) + [] == LogOf(c, job);
    assert e.kind == JobLog && e.data.Line? && e.jobId == job ==> LinesFor([e], job) == [e.data.text];
  }

  /** A job's log after any frames at all: the newest 500 of what was there and of the lines
      about that job, in order. */
  lemma {:induction false} FoldLogs(c: Cache, frames: seq<Event>, job: int)
    requires job != 0 && |LogOf(c, job)| <= 500
    ensures NewestOf(LogOf(Fold(c, frames), job), LogOf(c, job) + LinesFor(frames, job), 500)
    decreases |frames|
  {
    hide LogOf, ApplyFrame, NewestOf, LinesFor;
    if frames == [] {
      NothingFolded(c, job);
    } else {
      var next, first, rest := ApplyFrame(c, frames[0]), LinesFor([frames[0]], job), LinesFor(frames[1..], job);
      FrameLogs(c, frames[0], job);
      AtMost(LogOf(next, job), LogOf(c, job) + first, 500);
      FoldLogs(next, frames[1..], job);
      NewestThenNewest(LogOf(c, job) + first, LogOf(next, job), rest, LogOf(Fold(c, frames), job), 500);
      FirstLines(frames, job);
      assert LogOf(c, job) + first + rest == LogOf(c, job) + (first + rest);
    }
  }

  lemma NothingFolded(c: Cache, job: int)
    requires |LogOf(c, job)| <= 500
    ensures NewestOf(LogOf(Fold(c, []), job), LogOf(c, job) + LinesFor([], job), 500)
  {
    assert LogOf(c, job) + [] == LogOf(c, job);
  }

  lemma AtMost(kept: seq<string>, all: seq<string>, limit: nat)
    requires NewestOf(kept, all, limit)
    ensures |kept| <= limit
  {
  }

  lemma FirstLines(frames: seq<Event>, job: int)
    requires frames != []
    ensures LinesFor(frames, job) == LinesFor([frames[0]], job) + LinesFor(frames[1..], job)
  {
    var e := frames[0];
    assert [e][1..] == [] && LinesFor([], job) == [];
  }

  // ------------------------------------------------------------ the snapshot

  lemma NewestFind(t: Table, id: int)
    requires Keyed(t)
    ensures Unique(Newest(t))
    ensures Find(Newest(t), id).Some? ==> id in t && Find(Newest(t), id) == Some(ViewOf(t[id]))
  {
    hide LargestFirst;
    var ids := LargestFirst(PageIds(t, None, 0), SNAPSHOT_LIMIT);
    var v := Newest(t);
    forall i | 0 <= i < |v| ensures v[i].id == ids[i] && ids[i] in t && v[i] == ViewOf(t[ids[i]]) {
      assert ids[i] in PageIds(t, None, 0);
    }
  }

  // ------------------------------------------------------------ the invariant

  function Frames(s: System): seq<Event>
    requires s.id in s.hub.subs
  {
    s.wire + s.hub.subs[s.id].queue
  }

  /** What the client will show once everything under way has arrived. */
  function Shown(s: System): seq<View>
    requires s.id in s.hub.subs
  {
    Fold(s.cache, Frames(s)).jobs
  }

  /** The last view that the snapshot or an accepted publish gave the client for an id. */
  function LastOf(s: System, id: int): Option<View> {
    if id in s.last then Some(s.last[id]) else None
  }

  ghost predicate AttachedOk(s: System)
    requires s.id in s.hub.subs
  {
    s.wire == [] && forall id :: Latest(s.hub.subs[s.id].queue, id) == LastOf(s, id)
  }

  ghost predicate StreamingOk(s: System)
    requires s.id in s.hub.subs
  {
    Unique(Shown(s)) && forall id :: Find(Shown(s), id) == LastOf(s, id)
  }

  /** What a publish has read and nobody has written since is still so. */
  predicate PendingOk(s: System) {
    forall p :: p in s.pending ==>
      Delta(EventOf(s.pending[p])) &&
      (s.pending[p].current && s.pending[p].row in s.rows ==> s.pending[p].view == ViewOf(s.rows[s.pending[p].row]))
  }

  /** The row exists, the client was told of it, and nothing was written after the read
      behind what it was told last. */
  predicate Clean(s: System, id: int) { id in s.rows && id in s.last && id !in s.dirty }

  ghost predicate CleanOk(s: System) {
    forall id :: Clean(s, id) ==> s.last[id] == ViewOf(s.rows[id])
  }

  ghost predicate Inv(s: System) {
    && Keyed(s.rows) && HubRuns.WellNumbered(s.hub) && PendingOk(s)
    && (!s.phase.Connecting? ==> CleanOk(s) && s.id in s.hub.subs && Deltas(s.hub.subs[s.id].queue))
    && (s.phase.Attached? && Open(s.hub, s.id) ==> AttachedOk(s))
    && (s.phase.Streaming? && Open(s.hub, s.id) ==> StreamingOk(s))
  }

  lemma InvAttach(s: System)
    requires Inv(s) && s.phase.Connecting?
    ensures Inv(Apply(s, Attach))
  {
  }

  /** Steps that leave the hub, the wire, the cache and what was told alone. */
  lemma InvQuiet(s: System, t: System)
    requires Inv(s) && t.hub == s.hub && t.wire == s.wire && t.cache == s.cache && t.last == s.last
    requires t.id == s.id && t.phase == s.phase && Keyed(t.rows) && PendingOk(t) && (!s.phase.Connecting? ==> CleanOk(t))
    ensures Inv(t)
  {
    if s.phase.Streaming? { assert Shown(t) == Shown(s); }
  }

  lemma InvWriteRow(s: System, job: Job)
    requires Inv(s)
    ensures Inv(Apply(s, WriteRow(job)))
  {
    InvQuiet(s, Apply(s, WriteRow(job)));
  }

  lemma InvRemoveRow(s: System, row: int)
    requires Inv(s)
    ensures Inv(Apply(s, RemoveRow(row)))
  {
    InvQuiet(s, Apply(s, RemoveRow(row)));
  }

  lemma InvReadRow(s: System, p: int, kind: EventType, row: int)
    requires Inv(s) && Enabled(s, ReadRow(p, kind, row))
    ensures Inv(Apply(s, ReadRow(p, kind, row)))
  {
    if row in s.rows { assert Delta(EventOf(Read(kind, row, ViewOf(s.rows[row]), true))); }
    InvQuiet(s, Apply(s, ReadRow(p, kind, row)));
  }

  /** An accepted event reaches an open channel's tail, so it is folded last. */
  lemma ShownAppend(s: System, t: System, e: Event)
    requires s.id in s.hub.subs && t.id == s.id && t.id in t.hub.subs && t.wire == s.wire && t.cache == s.cache
    requires t.hub.subs[t.id].queue == s.hub.subs[s.id].queue + [e]
    ensures Fold(t.cache, Frames(t)) == ApplyFrame(Fold(s.cache, Frames(s)), e)
  {
    assert Frames(t) == Frames(s) + [e];
    FoldAppend(s.cache, Frames(s), [e]);
    assert [e][1..] == [];
  }

  lemma PublishQueue(s: System, e: Event, now: int)
    requires s.id in s.hub.subs && !Coalesced(s.hub, e, now)
    requires Open(Published(s.hub, e, now), s.id)
    ensures Open(s.hub, s.id)
    ensures Published(s.hub, e, now).subs[s.id].queue == s.hub.subs[s.id].queue + [e]
  {
  }

  lemma WellNumberedPublish(h: HubState, e: Event, now: int)
    requires HubRuns.WellNumbered(h)
    ensures HubRuns.WellNumbered(Published(h, e, now))
  {
  }

  /** What an accepted send leaves of the bookkeeping. */
  lemma SentIsLast(s: System, p: int, now: int, id: int)
    requires Inv(s) && p in s.pending && !Coalesced(s.hub, EventOf(s.pending[p]), now)
    ensures var e := EventOf(s.pending[p]);
            LastOf(SendStep(s, p, now), id) == if id == e.jobId then Some(e.data.view) else LastOf(s, id)
  {
  }

  lemma SendKeepsClean(s: System, p: int, now: int)
    requires Inv(s) && p in s.pending && !s.phase.Connecting?
    ensures CleanOk(SendStep(s, p, now))
  {
    var t, row := SendStep(s, p, now), s.pending[p].row;
    forall id | Clean(t, id) ensures t.last[id] == ViewOf(t.rows[id]) {
      if t.hub == s.hub || id != row { assert Clean(s, id) || id == row; }
    }
  }

  lemma SendAttached(s: System, p: int, now: int)
    requires Inv(s) && p in s.pending && s.phase.Attached? && !Coalesced(s.hub, EventOf(s.pending[p]), now)
    ensures Open(SendStep(s, p, now).hub, s.id) ==> AttachedOk(SendStep(s, p, now))
  {
    var t, e := SendStep(s, p, now), EventOf(s.pending[p]);
    if Open(t.hub, s.id) {
      PublishQueue(s, e, now);
      forall id ensures Latest(t.hub.subs[t.id].queue, id) == LastOf(t, id) {
        LatestAppend(s.hub.subs[s.id].queue, e, id);
        SentIsLast(s, p, now, id);
      }
    }
  }

  lemma SendStreaming(s: System, p: int, now: int)
    requires Inv(s) && p in s.pending && s.phase.Streaming? && !Coalesced(s.hub, EventOf(s.pending[p]), now)
    ensures Open(SendStep(s, p, now).hub, s.id) ==> StreamingOk(SendStep(s, p, now))
  {
    var t, e := SendStep(s, p, now), EventOf(s.pending[p]);
    if Open(t.hub, s.id) {
      PublishQueue(s, e, now);
      ShownAppend(s, t, e);
      forall id ensures Unique(Shown(t)) && Find(Shown(t), id) == LastOf(t, id) {
        FrameFind(Fold(s.cache, Frames(s)), e, id);
        SentIsLast(s, p, now, id);
      }
    }
  }

  lemma InvSend(s: System, p: int, now: int)
    requires Inv(s) && p in s.pending
    ensures Inv(Apply(s, Send(p, now)))
  {
    var t := Apply(s, Send(p, now));
    if !s.phase.Connecting? { SendKeepsClean(s, p, now); }
    if Coalesced(s.hub, EventOf(s.pending[p]), now) {
      InvQuiet(s, t);
    } else {
      WellNumberedPublish(s.hub, EventOf(s.pending[p]), now);
      if s.phase.Attached? { SendAttached(s, p, now); }
      if s.phase.Streaming? { SendStreaming(s, p, now); }
    }
  }

  lemma InvLogLine(s: System, a: Action)
    requires Inv(s) && a.LogLine?
    ensures Inv(Apply(s, a))
  {
    var e := Event(JobLog, a.row, Line(a.text));
    var t := Apply(s, a);
    WellNumberedPublish(s.hub, e, a.now);
    if !s.phase.Connecting? && Open(t.hub, s.id) {
      PublishQueue(s, e, a.now);
      if s.phase.Streaming? {
        ShownAppend(s, t, e);
      } else {
        forall id ensures Latest(t.hub.subs[t.id].queue, id) == Latest(s.hub.subs[s.id].queue, id) {
          LatestAppend(s.hub.subs[s.id].queue, e, id);
        }
      }
    }
  }

  lemma InvElsewhere(s: System, a: Action)
    requires Inv(s) && a.Elsewhere? && Enabled(s, a)
    ensures Inv(Apply(s, a))
  {
    hide ViewOf, Fold, Latest;
    var t := Apply(s, a);
    if !s.phase.Connecting? {
      assert t.hub.subs[s.id] == s.hub.subs[s.id];
      if s.phase.Streaming? { assert Shown(t) == Shown(s); }
    }
  }

  /** The snapshot is queried after Subscribe, and older deltas are replayed over it. */
  lemma SnapshotShown(s: System, id: int)
    requires Inv(s) && s.phase.Attached? && Open(s.hub, s.id)
    ensures var t := Apply(s, SendSnapshot); Unique(Shown(t)) && Find(Shown(t), id) == LastOf(t, id)
  {
    var t := Apply(s, SendSnapshot);
    var q := s.hub.subs[s.id].queue;
    var views := Newest(s.rows);
    var snap := SnapshotEvent(views);
    assert Frames(t) == [snap] + q;
    assert ([snap] + q)[1..] == q;
    NewestFind(s.rows, id);
    FoldFind(ApplyFrame(s.cache, snap), q, id);
    SnapshotLast(s, id);
  }

  /** What was sent counts; otherwise what the snapshot holds. */
  lemma SnapshotLast(s: System, id: int)
    requires Keyed(s.rows) && s.phase.Attached?
    ensures LastOf(Apply(s, SendSnapshot), id) ==
            if LastOf(s, id).Some? then LastOf(s, id) else Find(Newest(s.rows), id)
  {
    NewestFind(s.rows, id);
    FindNone(Newest(s.rows), id);
  }

  lemma InvSendSnapshot(s: System)
    requires Inv(s) && s.phase.Attached?
    ensures Inv(Apply(s, SendSnapshot))
  {
    var t := Apply(s, SendSnapshot);
    forall id | Clean(t, id) ensures t.last[id] == ViewOf(t.rows[id]) {
      SnapshotLast(s, id);
      NewestFind(s.rows, id);
    }
    if Open(s.hub, s.id) {
      forall id ensures Unique(Shown(t)) && Find(Shown(t), id) == LastOf(t, id) { SnapshotShown(s, id); }
    }
  }

  lemma InvDeliver(s: System)
    requires Inv(s) && Enabled(s, Deliver)
    ensures Inv(Apply(s, Deliver))
  {
    var t := Apply(s, Deliver);
    var q := s.hub.subs[s.id].queue;
    assert q == [q[0]] + q[1..];
    assert Frames(t) == Frames(s);
  }

  lemma InvConsume(s: System)
    requires Inv(s) && s.wire != []
    ensures Inv(Apply(s, Consume))
  {
    var t := Apply(s, Consume);
    if s.phase.Streaming? {
      assert Frames(s)[0] == s.wire[0] && Frames(s)[1..] == Frames(t);
    }
  }

  lemma InvStep(s: System, a: Action)
    requires Inv(s) && Enabled(s, a)
    ensures Inv(Apply(s, a))
  {
    match a
    case WriteRow(job) => InvWriteRow(s, job);
    case RemoveRow(row) => InvRemoveRow(s, row);
    case ReadRow(p, kind, row) => InvReadRow(s, p, kind, row);
    case Send(p, now) => InvSend(s, p, now);
    case LogLine(_, _, _) => InvLogLine(s, a);
    case Elsewhere(_) => InvElsewhere(s, a);
    case Attach => InvAttach(s);
    case SendSnapshot => InvSendSnapshot(s);
    case Deliver => InvDeliver(s);
    case Consume => InvConsume(s);
  }

  lemma {:induction false} InvRun(s: System, run: seq<Action>)
    requires Inv(s) && Admissible(s, run)
    ensures Inv(After(s, run)) && Keyed(After(s, run).rows)
    decreases |run|
  {
    if run != [] {
      InvStep(s, run[0]);
      InvRun(Apply(s, run[0]), run[1..]);
    }
  }

  // ------------------------------------------------------------ the theorems

  /** A client about to connect, whatever its cache still holds and whatever publishes are
      under way. */
  ghost predicate Initial(s: System) {
    Keyed(s.rows) && HubRuns.WellNumbered(s.hub) && PendingOk(s) && s.phase.Connecting?
  }

  /** Drained, and not dropped for falling behind. */
  predicate UpToDate(s: System) {
    s.phase.Streaming? && Open(s.hub, s.id) && s.hub.subs[s.id].queue == [] && s.wire == []
  }

  /** Over every run, an up-to-date client shows each job once, and of each job exactly the
      view that was sent last since Subscribe, or that the snapshot held if none was sent. So
      it shows a row as it is if and only if that view is the row's. */
  lemma Convergence(s: System, run: seq<Action>, id: int)
    requires Initial(s) && Admissible(s, run) && UpToDate(After(s, run))
    ensures var t := After(s, run);
      && Unique(t.cache.jobs)
      && Find(t.cache.jobs, id) == LastOf(t, id)
      && (id in t.rows ==>
            (Find(t.cache.jobs, id) == Some(ViewOf(t.rows[id])) <==> id in t.last && t.last[id] == ViewOf(t.rows[id])))
  {
    InvRun(s, run);
    var t := After(s, run);
    assert Frames(t) == [];
    assert Shown(t) == t.cache.jobs;
  }

  /** It does, if no write of the row has followed the read behind that view. */
  lemma CleanRowsAreShown(s: System, run: seq<Action>, id: int)
    requires Initial(s) && Admissible(s, run) && UpToDate(After(s, run)) && Clean(After(s, run), id)
    ensures var t := After(s, run); Unique(t.cache.jobs) && Find(t.cache.jobs, id) == Some(ViewOf(t.rows[id]))
  {
    InvRun(s, run);
    Convergence(s, run, id);
  }

  /** No publish sends what a write has overtaken since its read. */
  ghost predicate NoneOvertaken(s: System, run: seq<Action>)
    requires Admissible(s, run)
    decreases |run|
  {
    run == [] || ((run[0].Send? ==> s.pending[run[0].p].current) && NoneOvertaken(Apply(s, run[0]), run[1..]))
  }

  /** The row was written since Subscribe, or was so before, with no accepted publish of it
      after the write. */
  ghost predicate Unannounced(s: System, run: seq<Action>, id: int, before: bool)
    requires Admissible(s, run)
    decreases |run|
  {
    if run == [] then before
    else Unannounced(Apply(s, run[0]), run[1..], id, StillUnannounced(s, run[0], id, before))
  }

  predicate StillUnannounced(s: System, a: Action, id: int, before: bool)
    requires Enabled(s, a)
  {
    match a
    case WriteRow(job) => before || job.id == id
    case Attach => false
    case Send(p, now) => before && (s.pending[p].row != id || Coalesced(s.hub, EventOf(s.pending[p]), now))
    case _ => before
  }

  lemma DirtyStep(s: System, a: Action, id: int, before: bool)
    requires Inv(s) && Enabled(s, a) && (a.Send? ==> s.pending[a.p].current) && (id in s.dirty ==> before)
    ensures id in Apply(s, a).dirty ==> StillUnannounced(s, a, id, before)
  {
  }

  lemma {:induction false} DirtyRun(s: System, run: seq<Action>, id: int, before: bool)
    requires Inv(s) && Admissible(s, run) && NoneOvertaken(s, run) && (id in s.dirty ==> before)
    ensures id in After(s, run).dirty ==> Unannounced(s, run, id, before)
    decreases |run|
  {
    if run != [] {
      InvStep(s, run[0]);
      DirtyStep(s, run[0], id, before);
      DirtyRun(Apply(s, run[0]), run[1..], id, StillUnannounced(s, run[0], id, before));
    }
  }

  /** If no publish is overtaken, it is enough that an accepted publish has followed the
      row's last write since Subscribe. */
  lemma AnnouncedRowsAreShown(s: System, run: seq<Action>, id: int)
    requires Initial(s) && Admissible(s, run) && NoneOvertaken(s, run) && UpToDate(After(s, run))
    requires id in After(s, run).rows && id in After(s, run).last && !Unannounced(s, run, id, true)
    ensures var t := After(s, run); Unique(t.cache.jobs) && Find(t.cache.jobs, id) == Some(ViewOf(t.rows[id]))
  {
    DirtyRun(s, run, id, true);
    CleanRowsAreShown(s, run, id);
  }
}
