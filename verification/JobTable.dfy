/** The jobs table (internal/db/repo.go): one function per SQL statement, over a
    table keyed by the AUTOINCREMENT id. */
module JobTable {
  import opened Common
  import opened JobState

  datatype Kind = File | Dir

  /** A row of `jobs`. The three timestamps are reduced to "has been stamped". */
  datatype Job = Job(
    id: int, serverId: int, serverName: string, kind: Kind,
    remotePath: string, destPath: string, status: Status,
    total: int, transferred: int, speed: int, eta: int,
    exitCode: Option<int>, error: string, started: bool, finished: bool)

  type Table = map<int, Job>

  const INTERRUPTED_MESSAGE := "interrupted by a relay restart; resuming"

  /** INSERT: six columns are stored, the rest default. */
  function NewRow(j: Job, id: int): Job {
    Job(id, j.serverId, j.serverName, j.kind, j.remotePath, j.destPath, j.status, j.total,
        0, 0, 0, None, "", false, false)
  }

  /** The row of a job that has not begun: what it is about is stored as given, and nothing
      has happened to it. */
  predicate FreshRow(row: Job, j: Job, id: int) {
    && row.id == id && row.serverId == j.serverId && row.serverName == j.serverName && row.kind == j.kind
    && row.remotePath == j.remotePath && row.destPath == j.destPath && row.status == j.status && row.total == j.total
    && row.transferred == 0 && row.speed == 0 && row.eta == 0
    && row.exitCode == None && row.error == "" && !row.started && !row.finished
  }

  /** UPDATE jobs SET status, error, exit_code, with the two conditional stamps. */
  function WithStatus(j: Job, status: Status, message: string, code: Option<int>): Job {
    j.(status := status, error := message, exitCode := code,
       started := j.started || status == Running,
       finished := j.finished || status in {Done, Failed, Cancelled})
  }

  /** SetJobStatus. A missing row leaves the table alone (the caller gets ErrNotFound). */
  function SetStatus(t: Table, id: int, status: Status, message: string, code: Option<int>): Table {
    if id in t then t[id := WithStatus(t[id], status, message, code)] else t
  }

  /** SetJobProgress. */
  function SetProgress(t: Table, id: int, transferred: int, speed: int, eta: int): Table {
    if id in t then t[id := t[id].(transferred := transferred, speed := speed, eta := eta)] else t
  }

  /** SetJobTotal. */
  function SetTotal(t: Table, id: int, total: int): Table {
    if id in t then t[id := t[id].(total := total)] else t
  }

  /** InterruptRunningJobs. */
  function InterruptRunning(t: Table): Table {
    map id | id in t ::
      if t[id].status == Running then t[id].(status := Interrupted, error := INTERRUPTED_MESSAGE) else t[id]
  }

  /** The writes of a job's status, progress and total go to different columns: in whatever
      order they arrive, none undoes another, and none changes any other row. */
  lemma WritesCommute(t: Table, id: int, status: Status, message: string, code: Option<int>,
                      transferred: int, speed: int, eta: int, total: int)
    ensures var p := SetProgress(t, id, transferred, speed, eta);
            var q := SetStatus(t, id, status, message, code);
            && SetStatus(p, id, status, message, code) == SetProgress(q, id, transferred, speed, eta)
            && SetStatus(SetTotal(t, id, total), id, status, message, code) == SetTotal(q, id, total)
            && SetProgress(SetTotal(t, id, total), id, transferred, speed, eta) == SetTotal(p, id, total)
            && (forall k :: k in t && k != id ==> p[k] == t[k] == q[k] == SetTotal(t, id, total)[k])
            && (id in t ==> p[id].status == t[id].status == SetTotal(t, id, total)[id].status)
  {
  }

  /** What a job is about. */
  predicate SameJob(j: Job, k: Job) {
    && k.id == j.id && k.serverId == j.serverId && k.serverName == j.serverName && k.kind == j.kind
    && k.remotePath == j.remotePath && k.destPath == j.destPath
  }

  /** Each write's own columns, and what it leaves alone. A job has started once it has been
      running, and has finished once its status has been terminal. */
  lemma ColumnsWritten(t: Table, id: int, status: Status, message: string, code: Option<int>,
                       transferred: int, speed: int, eta: int, total: int)
    requires id in t
    ensures var j, s := t[id], SetStatus(t, id, status, message, code)[id];
            && SameJob(j, s) && s.status == status && s.error == message && s.exitCode == code
            && s.total == j.total && s.transferred == j.transferred && s.speed == j.speed && s.eta == j.eta
            && (s.started <==> j.started || status == Running)
            && (s.finished <==> j.finished || Terminal(status))
    ensures var j, p := t[id], SetProgress(t, id, transferred, speed, eta)[id];
            && SameJob(j, p) && p.transferred == transferred && p.speed == speed && p.eta == eta
            && p.total == j.total && p.status == j.status && p.error == j.error && p.exitCode == j.exitCode
            && p.started == j.started && p.finished == j.finished
    ensures var j, w := t[id], SetTotal(t, id, total)[id];
            && SameJob(j, w) && w.total == total
            && w.transferred == j.transferred && w.speed == j.speed && w.eta == j.eta
            && w.status == j.status && w.error == j.error && w.exitCode == j.exitCode
            && w.started == j.started && w.finished == j.finished
  {
  }

  /** The ids of rows that say running. */
  function RunningIds(t: Table): set<int> {
    set id | id in t && t[id].status == Running
  }

  /** The ids of rows that wait for a worker. */
  function RunnableIds(t: Table): set<int> {
    set id | id in t && Runnable(t[id].status)
  }

  /** After the recovery statement no row says running; exactly the rows that did have
      joined the ones that wait; every other row is as it was; and a second recovery
      changes nothing. */
  lemma RecoveryRequeues(t: Table)
    ensures var u := InterruptRunning(t);
            && RunningIds(u) == {}
            && RunnableIds(u) == RunnableIds(t) + RunningIds(t)
            && u.Keys == t.Keys && (forall id :: id in t && id !in RunningIds(t) ==> u[id] == t[id])
            && InterruptRunning(u) == u
  {
    var u := InterruptRunning(t);
    forall id | id in u ensures InterruptRunning(u)[id] == u[id] {
    }
    forall id ensures id in RunnableIds(u) <==> id in RunnableIds(t) + RunningIds(t) {
    }
  }

  // ---------------------------------------------------------------- ordering

  predicate Ascending(s: seq<int>) {
    forall i, j :: 0 <= i < j < |s| ==> s[i] < s[j]
  }

  lemma LeastExists(s: set<int>)
    requires |s| > 0
    ensures exists m :: m in s && forall x :: x in s ==> m <= x
    decreases |s|
  {
    var x := Pick(s);
    var rest := s - {x};
    assert |rest| == |s| - 1;
    assert forall y :: y in s ==> y == x || y in rest;
    if |rest| > 0 {
      LeastExists(rest);
      var m :| m in rest && forall y :: y in rest ==> m <= y;
      assert m in s && x in s;
      assert if m < x then forall y :: y in s ==> m <= y else forall y :: y in s ==> x <= y;
    } else {
      assert rest == {};
    }
  }

  function Least(s: set<int>): (m: int)
    requires |s| > 0
    ensures m in s && forall x :: x in s ==> m <= x
  {
    LeastExists(s);
    var m :| m in s && forall x :: x in s ==> m <= x;
    m
  }

  /** ORDER BY id: the elements of a set in ascending order. */
  function Sorted(s: set<int>): (r: seq<int>)
    ensures Ascending(r)
    ensures forall i :: 0 <= i < |r| ==> r[i] in s
    ensures forall x :: x in s ==> x in r
    ensures |r| == |s|
    decreases |s|
  {
    if s == {} then []
    else
      var m := Least(s);
      var rest := Sorted(s - {m});
      assert forall i :: 0 <= i < |rest| ==> rest[i] in s - {m};
      [m] + rest
  }

  function Rows(t: Table, ids: seq<int>): (q: seq<Job>)
    requires forall i :: 0 <= i < |ids| ==> ids[i] in t
    ensures |q| == |ids| && forall i :: 0 <= i < |q| ==> q[i] == t[ids[i]]
  {
    seq(|ids|, i requires 0 <= i < |ids| => t[ids[i]])
  }

  /** RunnableJobs: WHERE status IN ('queued', 'interrupted') ORDER BY id LIMIT n. */
  function Queue(t: Table, limit: nat): (q: seq<Job>)
    ensures |q| <= limit
  {
    var ids := Sorted(RunnableIds(t));
    var first := ids[..Min(limit, |ids|)];
    Rows(t, first)
  }

  predicate Keyed(t: Table) {
    forall id :: id in t ==> t[id].id == id
  }

  predicate AscendingIds(q: seq<Job>) {
    forall i, j :: 0 <= i < j < |q| ==> q[i].id < q[j].id
  }

  predicate Listed(q: seq<Job>, id: int) {
    exists i :: 0 <= i < |q| && q[i].id == id
  }

  /** RunnableJobs returns exactly the `limit` smallest runnable ids, ascending. */
  lemma QueueIsOldestFirst(t: Table, limit: nat)
    requires Keyed(t)
    ensures var q := Queue(t, limit);
            && |q| == Min(limit, |RunnableIds(t)|)
            && (forall i :: 0 <= i < |q| ==> q[i].id in RunnableIds(t) && t[q[i].id] == q[i])
            && AscendingIds(q)
            && (forall id :: id in RunnableIds(t) && !Listed(q, id) ==>
                  |q| == limit && forall i :: 0 <= i < |q| ==> q[i].id < id)
  {
    var ids := Sorted(RunnableIds(t));
    var first := ids[..Min(limit, |ids|)];
    var q := Queue(t, limit);
    forall i | 0 <= i < |q|
      ensures q[i].id == ids[i] && ids[i] in RunnableIds(t) && t[q[i].id] == q[i]
    {
      assert first[i] == ids[i] && ids[i] in ids;
      assert q[i] == t[ids[i]];
    }
    forall id | id in RunnableIds(t) && !Listed(q, id)
      ensures |q| == limit && forall i :: 0 <= i < |q| ==> q[i].id < id
    {
      assert id in ids;
      var k :| 0 <= k < |ids| && ids[k] == id;
      assert |q| <= k;
    }
  }

  // ---------------------------------------------------------------- paging

  /** The ids ListJobs considers: WHERE (status = '' OR status = ?) AND (cursor = 0 OR id < cursor). */
  function PageIds(t: Table, status: Option<Status>, cursor: int): set<int> {
    set id | id in t && (status.None? || t[id].status == status.value) && (cursor == 0 || id < cursor)
  }

  /** ORDER BY id DESC LIMIT n. */
  function LargestFirst(ids: set<int>, limit: nat): (r: seq<int>)
    ensures |r| == Min(limit, |ids|)
    ensures forall i :: 0 <= i < |r| ==> r[i] in ids
    ensures forall i, j :: 0 <= i < j < |r| ==> r[i] > r[j]
  {
    var up := Sorted(ids);
    seq(Min(limit, |up|), i requires 0 <= i < Min(limit, |up|) => up[|up| - 1 - i])
  }

  /** ListJobs. */
  function ListJobs(t: Table, status: Option<Status>, limit: nat, cursor: int): (q: seq<Job>)
    ensures |q| <= limit
  {
    Rows(t, LargestFirst(PageIds(t, status, cursor), limit))
  }

  /** A page leaves out only ids smaller than all it holds, and only when it is full. */
  lemma LargestFirstIsTop(ids: set<int>, limit: nat, id: int)
    requires id in ids
    ensures var r := LargestFirst(ids, limit);
            (exists i :: 0 <= i < |r| && r[i] == id) ||
            (|r| == limit && forall i :: 0 <= i < |r| ==> r[i] > id)
  {
    var up := Sorted(ids);
    var r := LargestFirst(ids, limit);
    assert id in up;
    var k :| 0 <= k < |up| && up[k] == id;
    if |up| - 1 - k < |r| {
      assert r[|up| - 1 - k] == id;
    }
  }
}
