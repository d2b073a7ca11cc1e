/** The job store as the program uses it (internal/db/repo.go): each method is one
    statement, or the two statements of AppendJobLog, updating the tables in place. */
module JobStore {
  import opened Common
  import opened JobState
  import opened JobTable

  /** A row of job_log; rows are kept in the order of their ids. */
  datatype LogRow = LogRow(job: int, line: string)

  // ------------------------------------------------------------ the log, as a function

  /** SELECT line FROM job_log WHERE job_id = ? ORDER BY id. */
  function LinesOf(log: seq<LogRow>, job: int): seq<string> {
    if log == [] then []
    else if log[0].job == job then [log[0].line] + LinesOf(log[1..], job)
    else LinesOf(log[1..], job)
  }

  function Newest(lines: seq<string>, keep: nat): seq<string> {
    if |lines| <= keep then lines else lines[|lines| - keep..]
  }

  /** The end of the list, and all that fits. */
  lemma NewestIs(lines: seq<string>, keep: nat)
    ensures |Newest(lines, keep)| == Min(keep, |lines|)
    ensures forall i :: 0 <= i < |Newest(lines, keep)| ==>
              Newest(lines, keep)[i] == lines[|lines| - |Newest(lines, keep)| + i]
  {
  }

  lemma {:induction false} LinesOfAppend(a: seq<LogRow>, b: seq<LogRow>, job: int)
    ensures LinesOf(a + b, job) == LinesOf(a, job) + LinesOf(b, job)
    decreases |a|
  {
    if a == [] {
      assert a + b == b;
    } else {
      assert (a + b)[0] == a[0] && (a + b)[1..] == a[1..] + b;
      LinesOfAppend(a[1..], b, job);
    }
  }

  lemma NoLines(keep: nat)
    ensures Newest([], keep) == [] && forall job :: LinesOf([], job) == []
  {
  }

  lemma FirstRow(row: LogRow, rest: seq<LogRow>)
    ensures forall job :: LinesOf([row] + rest, job) ==
              if row.job == job then [row.line] + LinesOf(rest, job) else LinesOf(rest, job)
  {
    assert ([row] + rest)[1..] == rest;
  }

  lemma NewestFirst(line: string, lines: seq<string>, keep: nat)
    ensures |Newest(lines, keep)| <= keep
    ensures Newest([line] + lines, keep) ==
            if |Newest(lines, keep)| < keep then [line] + Newest(lines, keep) else Newest(lines, keep)
  {
  }

  /** The lines that survive a sequence of appends. */
  function Appended(lines: seq<string>, more: seq<string>, keep: nat): seq<string>
    decreases |more|
  {
    if more == [] then lines else Appended(Newest(lines + [more[0]], keep), more[1..], keep)
  }

  /** Trimming after every append keeps what trimming once at the end would: the newest
      lines, in order. */
  lemma {:induction false} LogIsRing(lines: seq<string>, more: seq<string>, keep: nat)
    requires |lines| <= keep
    ensures Appended(lines, more, keep) == Newest(lines + more, keep)
    decreases |more|
  {
    if more == [] {
      assert lines + more == lines;
    } else {
      var line, rest := more[0], more[1..];
      LogIsRing(Newest(lines + [line], keep), rest, keep);
      NewestTwice(lines + [line], rest, keep);
      OneLineMore(lines, more);
    }
  }

  lemma OneLineMore(lines: seq<string>, more: seq<string>)
    requires more != []
    ensures lines + [more[0]] + more[1..] == lines + more
  {
  }

  lemma NewestTwice(a: seq<string>, b: seq<string>, keep: nat)
    ensures Newest(Newest(a, keep) + b, keep) == Newest(a + b, keep)
  {
  }

  // ------------------------------------------------------------ order

  lemma GreatestExists(s: set<int>)
    requires s != {}
    ensures exists m :: m in s && forall x :: x in s ==> x <= m
  {
    var negated := set x | x in s :: -x;
    var y := Pick(s);
    assert -y in negated;
    LeastExists(negated);
    var m :| m in negated && forall x :: x in negated ==> m <= x;
    forall x | x in s ensures x <= -m {
      assert -x in negated;
    }
  }

  /** The elements of s in ascending order. */
  ghost predicate Lists(up: seq<int>, s: set<int>)
    decreases |s|
  {
    if s == {} then up == [] else up != [] && up[0] == Least(s) && Lists(up[1..], s - {Least(s)})
  }

  /** A set has one listing. */
  lemma {:induction false} SameListing(a: seq<int>, b: seq<int>, s: set<int>)
    requires Lists(a, s) && Lists(b, s)
    ensures a == b
    decreases |s|
  {
    if s != {} {
      SameListing(a[1..], b[1..], s - {Least(s)});
      assert a == [a[0]] + a[1..] && b == [b[0]] + b[1..];
    }
  }

  lemma SortedFirst(s: set<int>)
    requires s != {}
    ensures Sorted(s) == [Least(s)] + Sorted(s - {Least(s)})
  {
  }

  lemma {:induction false} SortedLists(s: set<int>)
    ensures Lists(Sorted(s), s)
    decreases |s|
  {
    if s != {} {
      var rest := Sorted(s - {Least(s)});
      SortedLists(s - {Least(s)});
      SortedFirst(s);
      assert ([Least(s)] + rest)[1..] == rest;
    }
  }

  lemma Listing(s: set<int>) returns (up: seq<int>)
    ensures Lists(up, s)
  {
    up := Sorted(s);
    SortedLists(s);
  }

  lemma FirstIsLeast(up: seq<int>, s: set<int>, m: int)
    requires Lists(up, s) && m in s && forall x :: x in s ==> m <= x
    ensures up != [] && up[0] == m && Lists(up[1..], s - {m})
  {
    assert Least(s) == m;
  }

  lemma {:induction false} LastIsGreatest(up: seq<int>, s: set<int>, m: int)
    requires Lists(up, s) && m in s && forall x :: x in s ==> x <= m
    ensures up != [] && up[|up| - 1] == m && Lists(up[..|up| - 1], s - {m})
    decreases |s|
  {
    var least, n := Least(s), |up| - 1;
    var rest, others := up[1..], s - {least};
    if least == m {
      assert others == {};
      assert s - {m} == {} && up[..n] == [];
    } else {
      LastIsGreatest(rest, others, m);
      LeastStays(s, m);
      assert s - {m} - {least} == others - {m};
      assert up[..n][1..] == rest[..|rest| - 1];
    }
  }

  lemma LeastStays(s: set<int>, m: int)
    requires s != {} && m in s && Least(s) != m
    ensures s - {m} != {} && Least(s - {m}) == Least(s)
  {
    assert Least(s) in s - {m};
  }

  lemma ListingIs(up: seq<int>, s: set<int>)
    requires Lists(up, s)
    ensures up == Sorted(s)
  {
    SortedLists(s);
    SameListing(up, Sorted(s), s);
  }

  lemma LastAreLargest(up: seq<int>, s: set<int>, limit: nat, ids: seq<int>)
    requires Lists(up, s)
    requires |ids| == Min(limit, |up|) && forall i :: 0 <= i < |ids| ==> ids[i] == up[|up| - 1 - i]
    ensures ids == LargestFirst(s, limit)
  {
    ListingIs(up, s);
    ReversedTop(s, limit, ids);
  }

  lemma ReversedTop(s: set<int>, limit: nat, ids: seq<int>)
    requires |ids| == Min(limit, |Sorted(s)|)
    requires forall i :: 0 <= i < |ids| ==> ids[i] == Sorted(s)[|Sorted(s)| - 1 - i]
    ensures ids == LargestFirst(s, limit)
  {
    assert ids == LargestFirst(s, limit);
  }

  lemma FirstAreSmallest(up: seq<int>, s: set<int>, limit: nat, ids: seq<int>)
    requires Lists(up, s) && ids == up[..Min(limit, |up|)]
    ensures ids == Sorted(s)[..Min(limit, |Sorted(s)|)]
    ensures forall i :: 0 <= i < |ids| ==> ids[i] in s
  {
    ListingIs(up, s);
  }

  // ------------------------------------------------------------ the store

  class Store {
    var rows: Table
    var nextId: int
    var log: seq<LogRow>

    /** Ids are handed out in increasing order and never again. */
    ghost predicate Valid()
      reads this
    {
      Keyed(rows) && nextId >= 1 && forall id :: id in rows ==> 1 <= id < nextId
    }

    /** A new database. */
    constructor ()
      ensures Valid() && rows == map[] && log == [] && nextId == 1
    {
      rows, nextId, log := map[], 1, [];
    }

    /** The new id is larger than every id there has been. */
    method CreateJob(j: Job) returns (id: int)
      modifies this`rows, this`nextId
      ensures old(Valid()) ==> Valid() && forall other :: other in old(rows) ==> other < id
      ensures id == old(nextId) && nextId == id + 1
      ensures rows == old(rows)[id := NewRow(j, id)] && FreshRow(rows[id], j, id)
    {
      id := nextId;
      var row := j.(id := id, transferred := 0, speed := 0, eta := 0);
      row := row.(exitCode := None, error := "", started := false, finished := false);
      rows := rows[id := row];
      nextId := nextId + 1;
    }

    method GetJob(id: int) returns (j: Option<Job>)
      ensures j == if id in rows then Some(rows[id]) else None
    {
      return if id in rows then Some(rows[id]) else None;
    }

    /** `found` is false for ErrNotFound. */
    method SetJobStatus(id: int, status: Status, message: string, code: Option<int>) returns (found: bool)
      modifies this`rows
      ensures old(Valid()) ==> Valid()
      ensures found == (id in old(rows)) && rows == SetStatus(old(rows), id, status, message, code)
    {
      found := id in rows;
      if found {
        var j := rows[id];
        j := j.(status := status, error := message, exitCode := code);
        if status == Running { j := j.(started := true); }
        if status in {Done, Failed, Cancelled} { j := j.(finished := true); }
        rows := rows[id := j];
      }
    }

    method SetJobProgress(id: int, transferred: int, speed: int, eta: int) returns (found: bool)
      modifies this`rows
      ensures old(Valid()) ==> Valid()
      ensures found == (id in old(rows)) && rows == SetProgress(old(rows), id, transferred, speed, eta)
    {
      found := id in rows;
      if found {
        rows := rows[id := rows[id].(transferred := transferred, speed := speed, eta := eta)];
      }
    }

    method SetJobTotal(id: int, total: int) returns (found: bool)
      modifies this`rows
      ensures old(Valid()) ==> Valid()
      ensures found == (id in old(rows)) && rows == SetTotal(old(rows), id, total)
    {
      found := id in rows;
      if found {
        rows := rows[id := rows[id].(total := total)];
      }
    }

    /** DELETE removes the row and, by the foreign key, its log. */
    method DeleteJob(id: int) returns (found: bool)
      modifies this`rows, this`log
      ensures old(Valid()) ==> Valid()
      ensures found == (id in old(rows)) && rows == old(rows) - {id}
      ensures LinesOf(log, id) == if found then [] else old(LinesOf(log, id))
      ensures forall other :: other != id ==> LinesOf(log, other) == old(LinesOf(log, other))
    {
      found := id in rows;
      if !found { return; }
      rows := rows - {id};
      log := Trim(log, id, 0);
    }

    /** The two statements of AppendJobLog: insert, then drop all but the newest `keep`
        lines of this job. */
    method AppendJobLog(job: int, line: string, keep: nat) returns (found: bool)
      modifies this`log
      ensures found == (job in rows)
      ensures LinesOf(log, job) == if found then Newest(old(LinesOf(log, job)) + [line], keep) else old(LinesOf(log, job))
      ensures forall other :: other != job ==> LinesOf(log, other) == old(LinesOf(log, other))
    {
      found := job in rows;
      if !found { return; }
      ghost var was := log;
      var added := [LogRow(job, line)];
      log := log + added;
      forall other ensures LinesOf(log, other) == LinesOf(was, other) + LinesOf(added, other) {
        LinesOfAppend(was, added, other);
      }
      assert added[1..] == [] && LinesOf(added, job) == [line];
      forall other | other != job ensures LinesOf(added, other) == [] {
        assert LinesOf(added, other) == LinesOf(added[1..], other);
      }
      log := Trim(log, job, keep);
    }

    static method Trim(log: seq<LogRow>, job: int, keep: nat) returns (kept: seq<LogRow>)
      ensures LinesOf(kept, job) == Newest(LinesOf(log, job), keep)
      ensures forall other :: other != job ==> LinesOf(kept, other) == LinesOf(log, other)
    {
      hide LinesOf, Newest;
      var i, left := |log|, keep;
      kept := [];
      NoLines(keep);
      assert log[|log|..] == [] && log[0..] == log;
      while i > 0
        invariant 0 <= i <= |log|
        invariant LinesOf(kept, job) == Newest(LinesOf(log[i..], job), keep)
        invariant left == keep - |LinesOf(kept, job)|
        invariant forall other :: other != job ==> LinesOf(kept, other) == LinesOf(log[i..], other)
      {
        i := i - 1;
        assert log[i..] == [log[i]] + log[i + 1..];
        FirstRow(log[i], log[i + 1..]);
        FirstRow(log[i], kept);
        NewestFirst(log[i].line, LinesOf(log[i + 1..], job), keep);
        if log[i].job != job {
          kept := [log[i]] + kept;
        } else if left > 0 {
          kept, left := [log[i]] + kept, left - 1;
        }
      }
    }

    // ---------------------------------------------------------- queries and bulk statements

    static method Smallest(s: set<int>) returns (m: int)
      requires s != {}
      ensures m in s && forall x :: x in s ==> m <= x
    {
      LeastExists(s);
      m :| m in s && forall x :: x in s ==> m <= x;
    }

    static method Largest(s: set<int>) returns (m: int)
      requires s != {}
      ensures m in s && forall x :: x in s ==> x <= m
    {
      GreatestExists(s);
      m :| m in s && forall x :: x in s ==> x <= m;
    }

    /** ORDER BY id LIMIT n. */
    static method FirstIds(s: set<int>, limit: nat) returns (ids: seq<int>)
      ensures ids == Sorted(s)[..Min(limit, |Sorted(s)|)]
      ensures forall i :: 0 <= i < |ids| ==> ids[i] in s
    {
      ids := [];
      ghost var up := Listing(s);
      var left := s;
      while |ids| < limit && left != {}
        invariant |ids| <= limit && |ids| <= |up| && ids == up[..|ids|]
        invariant Lists(up[|ids|..], left)
        decreases left
      {
        var id := Smallest(left);
        FirstIsLeast(up[|ids|..], left, id);
        assert up[|ids|..][1..] == up[|ids| + 1..];
        ids := ids + [id];
        left := left - {id};
      }
      FirstAreSmallest(up, s, limit, ids);
    }

    /** ORDER BY id DESC LIMIT n. */
    static method LastIds(s: set<int>, limit: nat) returns (ids: seq<int>)
      ensures ids == LargestFirst(s, limit)
    {
      ids := [];
      var left := s;
      ghost var up := Listing(s);
      ghost var rest := up;
      while |ids| < limit && left != {}
        invariant |ids| <= limit && |rest| + |ids| == |up|
        invariant rest <= up && Lists(rest, left)
        invariant forall i :: 0 <= i < |ids| ==> ids[i] == up[|up| - 1 - i]
        decreases left
      {
        var id := Largest(left);
        LastIsGreatest(rest, left, id);
        assert id == up[|up| - 1 - |ids|];
        ids, left, rest := ids + [id], left - {id}, rest[..|rest| - 1];
      }
      LastAreLargest(up, s, limit, ids);
    }

    /** The loop over the result rows. */
    method ReadRows(ids: seq<int>) returns (out: seq<Job>)
      requires forall i :: 0 <= i < |ids| ==> ids[i] in rows
      ensures out == Rows(rows, ids)
    {
      out := [];
      for i := 0 to |ids|
        invariant |out| == i && forall k :: 0 <= k < i ==> out[k] == rows[ids[k]]
      {
        out := out + [rows[ids[i]]];
      }
    }

    /** WHERE status IN ('queued', 'interrupted') ORDER BY id LIMIT n. */
    method RunnableJobs(limit: nat) returns (out: seq<Job>)
      ensures out == Queue(rows, limit)
    {
      var ids := FirstIds(RunnableIds(rows), limit);
      out := ReadRows(ids);
    }

    /** One page, newest first. */
    method ListPage(status: Option<Status>, limit: nat, cursor: int) returns (out: seq<Job>)
      ensures out == ListJobs(rows, status, limit, cursor)
    {
      var ids := LastIds(PageIds(rows, status, cursor), limit);
      out := ReadRows(ids);
    }

    /** UPDATE jobs SET status = 'interrupted' WHERE status = 'running'. */
    method InterruptRunningJobs() returns (n: nat)
      modifies this`rows
      ensures old(Valid()) ==> Valid()
      ensures rows == InterruptRunning(old(rows))
      ensures n == |RunningIds(old(rows))|
    {
      n := |RunningIds(rows)|;
      rows := map id | id in rows ::
        if rows[id].status == Running then rows[id].(status := Interrupted, error := INTERRUPTED_MESSAGE) else rows[id];
    }

    /** DELETE FROM jobs WHERE the status is terminal and the row is older than asked. */
    method PurgeJobs(older: set<int>) returns (n: nat)
      modifies this`rows, this`log
      ensures old(Valid()) ==> Valid()
      ensures var gone := set id | id in old(rows) && id in older && Terminal(old(rows)[id].status);
              n == |gone| && rows == old(rows) - gone
      ensures forall id :: LinesOf(log, id) ==
                if id in old(rows) && id !in rows then [] else old(LinesOf(log, id))
    {
      var gone := set id | id in rows && id in older && Terminal(rows[id].status);
      n := |gone|;
      rows := rows - gone;
      var left := gone;
      while left != {}
        invariant left <= gone && rows == old(rows) - gone
        invariant forall id :: id !in gone ==> LinesOf(log, id) == old(LinesOf(log, id))
        invariant forall id :: id in gone && id !in left ==> LinesOf(log, id) == []
        decreases left
      {
        var id := Smallest(left);
        log := Trim(log, id, 0);
        left := left - {id};
      }
    }
  }
}
