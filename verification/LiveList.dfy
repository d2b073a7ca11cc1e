/** One client's view of the job list: the database, the hub, the SSE handler
    (internal/api/jobs.go, `events`), the wire and the query cache
    (web/src/useEvents.ts), each moving on its own. */
module LiveList {
  import opened Common
  import opened JobTable
  import opened JobView
  import opened Hub
  import HubRuns

  const SNAPSHOT_LIMIT := 200
  const LOG_LINES := 500

  // ------------------------------------------------------------ the client's fold

  function IndexOf(list: seq<View>, id: int): (i: nat)
    ensures i <= |list|
    ensures i < |list| ==> list[i].id == id
    ensures forall k :: 0 <= k < i ==> list[k].id != id
  {
    if list == [] || list[0].id == id then 0 else 1 + IndexOf(list[1..], id)
  }

  /** Replace the row with the same id in place, or put a new one in front. */
  function Upsert(prev: seq<View>, job: View): seq<View> {
    var i := IndexOf(prev, job.id);
    if i == |prev| then [job] + prev else prev[i := job]
  }

  datatype Cache = Cache(jobs: seq<View>, logs: map<int, seq<string>>)

  function LastLines(s: seq<string>): seq<string> {
    if |s| <= LOG_LINES then s else s[|s| - LOG_LINES..]
  }

  /** applyFrame. */
  function ApplyFrame(c: Cache, e: Event): Cache {
    match e.data
    case AllJobs(views) => if e.kind == Snapshot then c.(jobs := views) else c
    case OneJob(view) =>
      if e.kind in {JobCreated, JobProgress, JobDone, JobFailed} then c.(jobs := Upsert(c.jobs, view)) else c
    case Line(text) =>
      if e.kind == JobLog && e.jobId != 0 then
        c.(logs := c.logs[e.jobId := LastLines((if e.jobId in c.logs then c.logs[e.jobId] else []) + [text])])
      else c
  }

  /** The query cache, updated in place. */
  class QueryCache {
    var jobs: seq<View>
    var logs: map<int, seq<string>>

    function State(): Cache
      reads this
    {
      Cache(jobs, logs)
    }

    constructor ()
      ensures State() == Cache([], map[])
    {
      jobs, logs := [], map[];
    }

    method Frame(f: Event)
      modifies this
      ensures State() == ApplyFrame(old(State()), f)
    {
      if f.kind == Snapshot && f.data.AllJobs? {
        jobs := f.data.views;
      } else if f.kind in {JobCreated, JobProgress, JobDone, JobFailed} && f.data.OneJob? {
        var view := f.data.view;
        var i := IndexOf(jobs, view.id);
        if i == |jobs| {
          jobs := [view] + jobs;
        } else {
          jobs := jobs[i := view];
        }
      } else if f.kind == JobLog && f.jobId != 0 && f.data.Line? {
        var lines := (if f.jobId in logs then logs[f.jobId] else []) + [f.data.text];
        if |lines| > LOG_LINES {
          lines := lines[|lines| - LOG_LINES..];
        }
        logs := logs[f.jobId := lines];
      }
    }
  }

  function Fold(c: Cache, frames: seq<Event>): Cache
    decreases |frames|
  {
    if frames == [] then c else Fold(ApplyFrame(c, frames[0]), frames[1..])
  }

  lemma {:induction false} FoldAppend(c: Cache, a: seq<Event>, b: seq<Event>)
    ensures Fold(c, a + b) == Fold(Fold(c, a), b)
    decreases |a|
  {
    if a == [] {
      assert a + b == b;
    } else {
      assert (a + b)[0] == a[0] && (a + b)[1..] == a[1..] + b;
      FoldAppend(ApplyFrame(c, a[0]), a[1..], b);
    }
  }

  // ------------------------------------------------------------ the system

  datatype Phase = Connecting | Attached | Streaming

  /** A publish between its row read and its hub send. `current` is history: no write of the
      row has followed the read. */
  datatype Read = Read(kind: EventType, row: int, view: View, current: bool)

  function EventOf(r: Read): Event { Event(r.kind, r.row, OneJob(r.view)) }

  /** `pending` holds the publishes under way. `last` and `dirty` are history: for each id the
      view that was sent last since Subscribe, or that the snapshot held if none was sent; and
      the ids written after Subscribe with no later read behind what was sent last. */
  datatype System = System(
    rows: Table, hub: HubState, id: int, phase: Phase,
    wire: seq<Event>, cache: Cache, pending: map<int, Read>, last: map<int, View>, dirty: set<int>)

  datatype Action =
    | WriteRow(job: Job)
    | RemoveRow(row: int)
    | ReadRow(p: int, kind: EventType, row: int)      // publish: the row is read
    | Send(p: int, now: int)                          // publish: what was read is sent
    | LogLine(row: int, text: string, now: int)
    | Elsewhere(op: HubRuns.Op)                       // other clients
    | Attach
    | SendSnapshot
    | Deliver                                         // the handler moves one event to the wire
    | Consume                                         // the client applies one frame

  function SnapshotEvent(views: seq<View>): Event { Event(Snapshot, 0, AllJobs(views)) }

  ghost function Views(q: seq<Job>): (v: seq<View>)
    ensures |v| == |q| && forall i :: 0 <= i < |v| ==> v[i] == ViewOf(q[i])
  {
    seq(|q|, i requires 0 <= i < |q| => ViewOf(q[i]))
  }

  ghost function Newest(t: Table): seq<View> {
    Views(ListJobs(t, None, SNAPSHOT_LIMIT, 0))
  }

  predicate IdsOf(views: seq<View>, id: int) {
    exists i :: 0 <= i < |views| && views[i].id == id
  }

  ghost function IdSet(views: seq<View>): (s: set<int>)
    ensures forall id :: id in s <==> IdsOf(views, id)
  {
    var s := set i | 0 <= i < |views| :: views[i].id;
    assert forall i :: 0 <= i < |views| ==> views[i].id in s;
    s
  }

  predicate Enabled(s: System, a: Action) {
    match a
    case WriteRow(_) => true
    case RemoveRow(_) => true
    case ReadRow(p, kind, _) => p !in s.pending && !kind.JobLog? && !kind.Snapshot?
    case Send(p, _) => p in s.pending
    case LogLine(_, _, _) => true
    case Elsewhere(op) =>
      || op.Subscribe?
      || ((op.Unsubscribe? || op.Receive?) && (s.phase.Connecting? || op.id != s.id))
    case Attach => s.phase.Connecting?
    case SendSnapshot => s.phase.Attached?
    case Deliver => s.phase.Streaming? && s.id in s.hub.subs && s.hub.subs[s.id].queue != []
    case Consume => s.wire != []
  }

  function WriteStep(s: System, job: Job): System {
    s.(rows := s.rows[job.id := job], dirty := s.dirty + {job.id},
       pending := map p | p in s.pending ::
                    if s.pending[p].row == job.id then s.pending[p].(current := false) else s.pending[p])
  }

  /** A row that is gone ends the publish. */
  function ReadStep(s: System, p: int, kind: EventType, row: int): System {
    if row in s.rows then s.(pending := s.pending[p := Read(kind, row, ViewOf(s.rows[row]), true)]) else s
  }

  function SendStep(s: System, p: int, now: int): System
    requires p in s.pending
  {
    var r := s.pending[p];
    var t := s.(pending := s.pending - {p});
    if Coalesced(s.hub, EventOf(r), now) then t
    else t.(hub := Published(s.hub, EventOf(r), now), last := s.last[r.row := r.view],
            dirty := if r.current then s.dirty - {r.row} else s.dirty + {r.row})
  }

  /** The wire is the handler's own, so reading the rows and writing the frame are one step. */
  ghost function SnapshotStep(s: System): System {
    var views := Newest(s.rows);
    s.(phase := Streaming, wire := s.wire + [SnapshotEvent(views)],
       last := ViewsById(s.rows, IdSet(views)) + s.last, dirty := s.dirty - (IdSet(views) - s.last.Keys))
  }

  /** The views of these rows. */
  ghost function ViewsById(t: Table, ids: set<int>): map<int, View> {
    map id | id in ids && id in t :: ViewOf(t[id])
  }

  ghost function Apply(s: System, a: Action): System
    requires Enabled(s, a)
  {
    match a
    case WriteRow(job) => WriteStep(s, job)
    case RemoveRow(row) => s.(rows := s.rows - {row})
    case ReadRow(p, kind, row) => ReadStep(s, p, kind, row)
    case Send(p, now) => SendStep(s, p, now)
    case LogLine(row, text, now) => s.(hub := Published(s.hub, Event(JobLog, row, Line(text)), now))
    case Elsewhere(op) => s.(hub := HubRuns.Next(s.hub, op))
    case Attach =>
      s.(hub := Subscribed(s.hub), id := s.hub.nextId + 1, phase := Attached, wire := [], last := map[], dirty := {})
    case SendSnapshot => SnapshotStep(s)
    case Deliver =>
      s.(hub := Received(s.hub, s.id), wire := s.wire + [s.hub.subs[s.id].queue[0]])
    case Consume => s.(cache := ApplyFrame(s.cache, s.wire[0]), wire := s.wire[1..])
  }

  ghost predicate Admissible(s: System, run: seq<Action>)
    decreases |run|
  {
    run == [] || (Enabled(s, run[0]) && Admissible(Apply(s, run[0]), run[1..]))
  }

  ghost function After(s: System, run: seq<Action>): System
    requires Admissible(s, run)
    decreases |run|
  {
    if run == [] then s else After(Apply(s, run[0]), run[1..])
  }
}
