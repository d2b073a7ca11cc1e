/** Following next_cursor through the job list (listJobs and nextCursor of
    internal/api/jobs.go over ListJobs of internal/db/repo.go) while the table changes. */
module Paging {
  import opened Common
  import opened JobState
  import opened JobTable
  import JobStore
  import JobView

  /** The limit a request gets: its own, or 50 if that is missing or out of range. */
  function Limit(asked: Option<int>): (limit: nat)
    ensures 1 <= limit <= 500
  {
    if asked.None? || asked.value < 1 || asked.value > 500 then 50 else asked.value
  }

  /** The cursor a request gets; 0 asks for the first page. */
  function Cursor(asked: Option<int>): (cursor: nat) {
    if asked.None? || asked.value < 0 then 0 else asked.value
  }

  /** The id to pass back for the following page, or 0 at the end. */
  function NextCursor(rows: seq<Job>, limit: int): int {
    if |rows| < limit || |rows| == 0 then 0 else rows[|rows| - 1].id
  }

  /** AUTOINCREMENT ids start at 1. */
  predicate WellKeyed(t: Table) {
    Keyed(t) && forall id :: id in t ==> id >= 1
  }

  predicate Matches(t: Table, status: Option<Status>, id: int) {
    id in t && (status.None? || t[id].status == status.value)
  }

  /** The table as the n-th query of a walk sees it. */
  type History = nat -> Table

  ghost predicate AllWellKeyed(tables: History) {
    forall n: nat :: WellKeyed(tables(n))
  }

  ghost function Page(tables: History, n: nat, status: Option<Status>, limit: nat, cursor: int): (q: seq<Job>)
    requires AllWellKeyed(tables)
    ensures |q| <= limit
    ensures forall i :: 0 <= i < |q| ==> q[i].id in PageIds(tables(n), status, cursor) && q[i].id >= 1
    ensures forall i, j :: 0 <= i < j < |q| ==> q[i].id > q[j].id
  {
    assert WellKeyed(tables(n));
    var ids := LargestFirst(PageIds(tables(n), status, cursor), limit);
    var q := ListJobs(tables(n), status, limit, cursor);
    assert forall i :: 0 <= i < |q| ==> q[i] == tables(n)[ids[i]] && q[i].id == ids[i];
    q
  }

  ghost function Ids(q: seq<Job>): (r: seq<int>)
    ensures |r| == |q| && forall i :: 0 <= i < |q| ==> r[i] == q[i].id
  {
    seq(|q|, i requires 0 <= i < |q| => q[i].id)
  }

  /** All ids returned from the n-th query on, starting at a cursor. It ends because each
      cursor is smaller than the one before. */
  ghost function Walk(tables: History, n: nat, status: Option<Status>, limit: nat, cursor: int): seq<int>
    requires AllWellKeyed(tables) && cursor >= 0
    decreases cursor == 0, cursor
  {
    var page := Page(tables, n, status, limit, cursor);
    var next := NextCursor(page, limit);
    if next == 0 then Ids(page) else Ids(page) + Walk(tables, n + 1, status, limit, next)
  }

  predicate Descending(s: seq<int>) {
    forall i, j :: 0 <= i < j < |s| ==> s[i] > s[j]
  }

  /** Real ids, below the cursor if there is one. */
  predicate Below(ids: seq<int>, cursor: int) {
    forall i :: 0 <= i < |ids| ==> ids[i] >= 1 && (cursor == 0 || ids[i] < cursor)
  }

  /** One page, and the walk from there. */
  lemma WalkStep(tables: History, n: nat, status: Option<Status>, limit: nat, cursor: int) returns (ids: seq<int>, next: int)
    requires AllWellKeyed(tables) && cursor >= 0
    ensures forall i :: 0 <= i < |ids| ==> ids[i] in PageIds(tables(n), status, cursor)
    ensures Below(ids, cursor) && Descending(ids) && next >= 0 && (next > 0 ==> ids != [] && ids[|ids| - 1] == next)
    ensures Walk(tables, n, status, limit, cursor) ==
            if next == 0 then ids else ids + Walk(tables, n + 1, status, limit, next)
  {
    hide Page;
    var page := Page(tables, n, status, limit, cursor);
    ids, next := Ids(page), NextCursor(page, limit);
  }

  /** Strictly descending, so nothing is returned twice; and always below the cursor. */
  lemma {:induction false} WalkDescends(tables: History, n: nat, status: Option<Status>, limit: nat, cursor: int)
    requires AllWellKeyed(tables) && cursor >= 0
    ensures var w := Walk(tables, n, status, limit, cursor);
            Descending(w) && Below(w, cursor)
    decreases cursor == 0, cursor
  {
    hide Walk, Page, PageIds, NextCursor, Descending;
    var ids, next := WalkStep(tables, n, status, limit, cursor);
    if next != 0 {
      WalkDescends(tables, n + 1, status, limit, next);
      Concatenated(ids, Walk(tables, n + 1, status, limit, next), cursor);
    }
  }

  lemma Concatenated(a: seq<int>, b: seq<int>, cursor: int)
    requires Descending(a) && Descending(b) && a != [] && Below(a, cursor) && Below(b, a[|a| - 1])
    ensures Descending(a + b) && Below(a + b, cursor)
  {
    forall i, j | 0 <= i < j < |a + b| ensures (a + b)[i] > (a + b)[j] {
      if j >= |a| && i < |a| {
        assert a[i] >= a[|a| - 1] > b[j - |a|];
      }
    }
  }

  /** A row that matches at every query of the walk. */
  ghost predicate Stays(tables: History, n: nat, status: Option<Status>, id: int) {
    forall m: nat :: m >= n ==> Matches(tables(m), status, id)
  }

  /** Whatever else is inserted, deleted or changed: a row that is there and matches
      throughout is returned. */
  lemma {:induction false} WalkFinds(tables: History, n: nat, status: Option<Status>, limit: nat, cursor: int, id: int)
    requires AllWellKeyed(tables) && cursor >= 0 && limit >= 1
    requires Stays(tables, n, status, id) && (cursor == 0 || id < cursor)
    ensures id in Walk(tables, n, status, limit, cursor)
    decreases cursor == 0, cursor
  {
    hide LargestFirst, Descending, Below;
    var page := Page(tables, n, status, limit, cursor);
    var next := NextCursor(page, limit);
    assert Matches(tables(n), status, id) && WellKeyed(tables(n));
    var ids := PageIds(tables(n), status, cursor);
    LargestFirstIsTop(ids, limit, id);
    var top := LargestFirst(ids, limit);
    assert Ids(page) == top;
    if i :| 0 <= i < |top| && top[i] == id {
      assert Ids(page)[i] == id;
    } else {
      assert next == top[|top| - 1] > id;
      assert Stays(tables, n + 1, status, id);
      WalkFinds(tables, n + 1, status, limit, next, id);
    }
  }

  /** Every returned id matched at the query that returned it. */
  lemma {:induction false} WalkMatched(tables: History, n: nat, status: Option<Status>, limit: nat, cursor: int, id: int)
      returns (m: nat)
    requires AllWellKeyed(tables) && cursor >= 0
    requires id in Walk(tables, n, status, limit, cursor)
    ensures id in PageIds(tables(m), status, cursor)
    decreases cursor == 0, cursor
  {
    hide Walk, Page, PageIds, NextCursor, Descending;
    var ids, next := WalkStep(tables, n, status, limit, cursor);
    if id in ids {
      m := n;
    } else {
      m := WalkMatched(tables, n + 1, status, limit, next, id);
      BelowIsBelow(tables(m), status, next, cursor, id);
    }
  }

  lemma BelowIsBelow(t: Table, status: Option<Status>, low: int, high: int, id: int)
    requires id in PageIds(t, status, low) && low != 0 && (high == 0 || low < high)
    ensures id in PageIds(t, status, high)
  {
  }

  /** New rows get larger ids than every row of the first query. */
  ghost predicate NewAreLarger(tables: History) {
    forall m: nat, id, old_ :: id in tables(m) && id !in tables(0) && old_ in tables(0) ==> id > old_
  }

  /** Rows of the first query stay, with their status. */
  ghost predicate NothingLost(tables: History) {
    forall m: nat, id :: id in tables(0) ==> id in tables(m) && tables(m)[id].status == tables(0)[id].status
  }

  predicate AllMatch(t: Table, status: Option<Status>, ids: seq<int>) {
    forall k :: 0 <= k < |ids| ==> Matches(t, status, ids[k])
  }

  /** An id that matched once, and is below an id of the first query, matched then. */
  lemma MatchedThen(tables: History, m: nat, status: Option<Status>, cursor: int, id: int)
    requires NewAreLarger(tables) && NothingLost(tables)
    requires id in PageIds(tables(m), status, cursor)
    requires m == 0 || (cursor != 0 && cursor in tables(0))
    ensures Matches(tables(0), status, id)
  {
    if m != 0 { assert id in tables(0) || id > cursor; }
    assert tables(m)[id].status == tables(0)[id].status;
  }

  lemma WalkReturnsOld(tables: History, status: Option<Status>, limit: nat)
    requires AllWellKeyed(tables) && NewAreLarger(tables) && NothingLost(tables)
    ensures AllMatch(tables(0), status, Walk(tables, 0, status, limit, 0))
  {
    hide Descending, ListJobs, LargestFirst, Matches;
    var w := Walk(tables, 0, status, limit, 0);
    var page := Page(tables, 0, status, limit, 0);
    var next := NextCursor(page, limit);
    forall k | 0 <= k < |w| ensures Matches(tables(0), status, w[k]) {
      if k < |page| {
        MatchedThen(tables, 0, status, 0, page[k].id);
      } else {
        var m := WalkMatched(tables, 1, status, limit, next, w[k]);
        MatchedThen(tables, m, status, next, w[k]);
      }
    }
  }

  /** With rows only being inserted meanwhile, under larger ids, the walk from the first
      page returns the ids that matched at the first query and no others, each exactly
      once, in strictly descending order; whatever the page size, and also when the last
      page is exactly full. */
  lemma WalkIsComplete(tables: History, status: Option<Status>, limit: nat)
    requires AllWellKeyed(tables) && NewAreLarger(tables) && NothingLost(tables) && limit >= 1
    ensures var w := Walk(tables, 0, status, limit, 0);
            && Descending(w)
            && AllMatch(tables(0), status, w)
            && (forall id :: Matches(tables(0), status, id) ==> id in w)
  {
    var w := Walk(tables, 0, status, limit, 0);
    WalkDescends(tables, 0, status, limit, 0);
    WalkReturnsOld(tables, status, limit);
    forall id | Matches(tables(0), status, id) ensures id in w {
      StaysThroughout(tables, status, id);
      WalkFinds(tables, 0, status, limit, 0, id);
    }
  }

  lemma StaysThroughout(tables: History, status: Option<Status>, id: int)
    requires NothingLost(tables) && Matches(tables(0), status, id)
    ensures Stays(tables, 0, status, id)
  {
    forall m: nat ensures Matches(tables(m), status, id) {
      assert id in tables(m) && tables(m)[id].status == tables(0)[id].status;
    }
  }

  /** The same for the page size a request ends up with, whatever it asked for. */
  lemma RequestedWalkIsComplete(tables: History, status: Option<Status>, asked: Option<int>)
    requires AllWellKeyed(tables) && NewAreLarger(tables) && NothingLost(tables)
    ensures var w := Walk(tables, 0, status, Limit(asked), 0);
            && Descending(w)
            && AllMatch(tables(0), status, w)
            && (forall id :: Matches(tables(0), status, id) ==> id in w)
  {
    WalkIsComplete(tables, status, Limit(asked));
  }

  // ------------------------------------------------------------ the handler

  predicate Viewed(views: seq<JobView.View>, id: int) { exists i :: 0 <= i < |views| && views[i].id == id }

  method ViewsOf(rows: seq<Job>) returns (out: seq<JobView.View>)
    ensures |out| == |rows| && forall i :: 0 <= i < |rows| ==> out[i] == JobView.ViewOf(rows[i])
  {
    out := [];
    for k := 0 to |rows|
      invariant |out| == k && forall i :: 0 <= i < k ==> out[i] == JobView.ViewOf(rows[i])
    {
      out := out + [JobView.ViewOf(rows[k])];
    }
  }

  lemma PageIsTop(t: Table, status: Option<Status>, limit: nat, cursor: int, id: int)
    requires WellKeyed(t) && limit >= 1 && id in PageIds(t, status, cursor)
    ensures var q := ListJobs(t, status, limit, cursor);
            (exists i :: 0 <= i < |q| && q[i].id == id) || (NextCursor(q, limit) != 0 && id < NextCursor(q, limit))
  {
    hide Sorted, LargestFirst;
    var ids := LargestFirst(PageIds(t, status, cursor), limit);
    var q := ListJobs(t, status, limit, cursor);
    LargestFirstIsTop(PageIds(t, status, cursor), limit, id);
    assert forall i :: 0 <= i < |q| ==> q[i] == t[ids[i]] && q[i].id == ids[i];
    if i :| 0 <= i < |ids| && ids[i] == id {
      assert q[i].id == id;
    } else {
      assert ids[|ids| - 1] > id;
    }
  }

  lemma PageRows(t: Table, status: Option<Status>, limit: nat, cursor: int)
    requires WellKeyed(t)
    ensures var q := ListJobs(t, status, limit, cursor);
            && (forall i :: 0 <= i < |q| ==> q[i].id in PageIds(t, status, cursor) && q[i] == t[q[i].id])
            && (forall i, j :: 0 <= i < j < |q| ==> q[i].id > q[j].id)
  {
    var ids := LargestFirst(PageIds(t, status, cursor), limit);
    var q := ListJobs(t, status, limit, cursor);
    assert forall i :: 0 <= i < |q| ==> q[i] == t[ids[i]] && q[i].id == ids[i];
  }

  predicate Held(rows: seq<Job>, id: int) { exists i :: 0 <= i < |rows| && rows[i].id == id }

  /** The rows of a page and the cursor after it. */
  method QueryPage(db: JobStore.Store, status: Option<Status>, limit: nat, cursor: int) returns (rows: seq<Job>, next: int)
    requires WellKeyed(db.rows) && limit >= 1
    ensures |rows| <= limit && next == NextCursor(rows, limit) && IsTop(db.rows, status, cursor, rows, next)
  {
    hide IsTop;
    rows := db.ListPage(status, limit, cursor);
    next := NextCursor(rows, limit);
    PageIsAnswer(db.rows, status, limit, cursor);
  }

  lemma HeldIsViewed(rows: seq<Job>, views: seq<JobView.View>, id: int)
    requires |views| == |rows| && forall i :: 0 <= i < |rows| ==> views[i].id == rows[i].id
    requires Held(rows, id)
    ensures Viewed(views, id)
  {
    var i :| 0 <= i < |rows| && rows[i].id == id;
    assert views[i].id == id;
  }

  // ------------------------------------------------------------ what a request is answered

  /** The rows a request is about: those of the status asked for, if one is; and with a
      positive cursor only those below it. */
  predicate Wanted(t: Table, status: Option<Status>, cursor: Option<int>, id: int) {
    Matches(t, status, id) && (cursor.Some? && cursor.value > 0 ==> id < cursor.value)
  }

  /** As many rows as were asked for, or 50 if that was no number from 1 to 500; and if there
      are fewer, there is no next page. */
  predicate SizeFits(limit: Option<int>, n: nat, next: int) {
    var size := if limit.Some? && 1 <= limit.value <= 500 then limit.value else 50;
    n <= size && (next == 0 <==> n < size)
  }

  /** The wanted rows from the newest down, as they are; the rest is below the cursor that is
      handed back, which is the last one shown. */
  ghost predicate Answers(t: Table, status: Option<Status>, limit: Option<int>, cursor: Option<int>,
                          views: seq<JobView.View>, next: int) {
    && SizeFits(limit, |views|, next)
    && (forall i :: 0 <= i < |views| ==>
          Wanted(t, status, cursor, views[i].id) && views[i].id in t && views[i] == JobView.ViewOf(t[views[i].id]))
    && (forall i, j :: 0 <= i < j < |views| ==> views[i].id > views[j].id)
    && (forall id :: Wanted(t, status, cursor, id) ==> Viewed(views, id) || (next != 0 && id < next))
    && (next != 0 ==> views != [] && next == views[|views| - 1].id > 0)
  }

  lemma WantedIsPage(t: Table, status: Option<Status>, cursor: Option<int>, id: int)
    requires WellKeyed(t)
    ensures Wanted(t, status, cursor, id) <==> id in PageIds(t, status, Cursor(cursor))
    ensures Wanted(t, status, cursor, id) ==> id >= 1
  {
  }

  /** The rows of a page, as a query gives them. */
  ghost predicate IsTop(t: Table, status: Option<Status>, cursor: int, rows: seq<Job>, next: int) {
    && (forall i :: 0 <= i < |rows| ==>
          rows[i].id in PageIds(t, status, cursor) && rows[i].id in t && rows[i] == t[rows[i].id])
    && (forall i, j :: 0 <= i < j < |rows| ==> rows[i].id > rows[j].id)
    && (forall id :: id in PageIds(t, status, cursor) ==> Held(rows, id) || (next != 0 && id < next))
  }

  lemma PageIsAnswer(t: Table, status: Option<Status>, limit: nat, cursor: int)
    requires WellKeyed(t) && limit >= 1
    ensures var q := ListJobs(t, status, limit, cursor); IsTop(t, status, cursor, q, NextCursor(q, limit))
  {
    hide ListJobs, NextCursor;
    var q := ListJobs(t, status, limit, cursor);
    PageRows(t, status, limit, cursor);
    forall id | id in PageIds(t, status, cursor)
      ensures Held(q, id) || (NextCursor(q, limit) != 0 && id < NextCursor(q, limit))
    {
      PageIsTop(t, status, limit, cursor, id);
    }
  }

  lemma PageAnswers(t: Table, status: Option<Status>, limit: Option<int>, cursor: Option<int>,
                    rows: seq<Job>, views: seq<JobView.View>, next: int)
    requires WellKeyed(t) && |rows| <= Limit(limit) && next == NextCursor(rows, Limit(limit))
    requires |views| == |rows| && forall i :: 0 <= i < |rows| ==> views[i] == JobView.ViewOf(rows[i])
    requires IsTop(t, status, Cursor(cursor), rows, next)
    ensures Answers(t, status, limit, cursor, views, next)
  {
    hide Cursor, PageIds, Wanted, SizeFits, Limit, NextCursor, Viewed, Held;
    forall i | 0 <= i < |rows| ensures rows[i].id >= 1 && Wanted(t, status, cursor, rows[i].id) {
      WantedIsPage(t, status, cursor, rows[i].id);
    }
    SizeIsLimit(limit, rows, next);
    forall id | Wanted(t, status, cursor, id) ensures Viewed(views, id) || (next != 0 && id < next) {
      WantedIsPage(t, status, cursor, id);
      if Held(rows, id) { HeldIsViewed(rows, views, id); }
    }
  }

  lemma SizeIsLimit(limit: Option<int>, rows: seq<Job>, next: int)
    requires |rows| <= Limit(limit) && next == NextCursor(rows, Limit(limit))
    requires forall i :: 0 <= i < |rows| ==> rows[i].id >= 1
    ensures SizeFits(limit, |rows|, next)
    ensures next != 0 ==> rows != [] && next == rows[|rows| - 1].id
  {
  }

  /** listJobs. */
  method ServeList(db: JobStore.Store, status: Option<Status>, limit: Option<int>, cursor: Option<int>)
    returns (views: seq<JobView.View>, next: int)
    requires WellKeyed(db.rows)
    ensures Answers(db.rows, status, limit, cursor, views, next)
  {
    var rows;
    rows, next := QueryPage(db, status, Limit(limit), Cursor(cursor));
    views := ViewsOf(rows);
    PageAnswers(db.rows, status, limit, cursor, rows, views, next);
  }

  // ------------------------------------------------------------ and what a client sees

  lemma {:induction false} SameSoFar(t: Table, status: Option<Status>, limit: Option<int>, cursor: Option<int>,
                                     v: seq<JobView.View>, m: int, w: seq<JobView.View>, n: int, i: nat)
    requires Answers(t, status, limit, cursor, v, m) && Answers(t, status, limit, cursor, w, n)
    requires i < |v| && i < |w|
    ensures v[i].id == w[i].id
    decreases i
  {
    hide Wanted, SizeFits;
    forall j | 0 <= j < i ensures v[j].id == w[j].id { SameSoFar(t, status, limit, cursor, v, m, w, n, j); }
    var a, b := v[i].id, w[i].id;
    assert Wanted(t, status, cursor, a) && Wanted(t, status, cursor, b);
    if a > b {
      NotSkipped(w, n, i, a);
    } else if b > a {
      NotSkipped(v, m, i, b);
    }
  }

  /** An id above the i-th is one of those before it. */
  lemma NotSkipped(w: seq<JobView.View>, n: int, i: nat, a: int)
    requires i < |w| && a > w[i].id && (Viewed(w, a) || (n != 0 && a < n)) && (n != 0 ==> n == w[|w| - 1].id)
    requires forall j, k :: 0 <= j < k < |w| ==> w[j].id > w[k].id
    ensures exists j :: 0 <= j < i && w[j].id == a
  {
    var j :| 0 <= j < |w| && w[j].id == a;
    assert j < i;
  }

  lemma NotShorter(t: Table, status: Option<Status>, limit: Option<int>, cursor: Option<int>,
                   v: seq<JobView.View>, m: int, w: seq<JobView.View>, n: int)
    requires Answers(t, status, limit, cursor, v, m) && Answers(t, status, limit, cursor, w, n)
    ensures |v| >= |w|
  {
    hide Wanted;
    if |v| < |w| {
      var i := |v|;
      forall j | 0 <= j < i ensures v[j].id == w[j].id { SameSoFar(t, status, limit, cursor, v, m, w, n, j); }
      BelowAll(v, w, w[i].id);
    }
  }

  lemma BelowAll(v: seq<JobView.View>, w: seq<JobView.View>, id: int)
    requires |v| < |w| && id == w[|v|].id && forall j :: 0 <= j < |v| ==> v[j].id == w[j].id
    requires forall j, k :: 0 <= j < k < |w| ==> w[j].id > w[k].id
    ensures forall j :: 0 <= j < |v| ==> v[j].id > id
    ensures !Viewed(v, id)
  {
  }

  /** A request has one answer. */
  lemma AnswerIsUnique(t: Table, status: Option<Status>, limit: Option<int>, cursor: Option<int>,
                       v: seq<JobView.View>, m: int, w: seq<JobView.View>, n: int)
    requires Answers(t, status, limit, cursor, v, m) && Answers(t, status, limit, cursor, w, n)
    ensures v == w && m == n
  {
    hide Wanted;
    NotShorter(t, status, limit, cursor, v, m, w, n);
    NotShorter(t, status, limit, cursor, w, n, v, m);
    forall i | 0 <= i < |v| ensures v[i] == w[i] { SameSoFar(t, status, limit, cursor, v, m, w, n, i); }
  }

  ghost function ViewsOfPage(q: seq<Job>): (v: seq<JobView.View>)
    ensures |v| == |q| && forall i :: 0 <= i < |v| ==> v[i] == JobView.ViewOf(q[i])
  {
    seq(|q|, i requires 0 <= i < |q| => JobView.ViewOf(q[i]))
  }

  /** The n-th page of the walk is what a request with the cursor of the page before it, or
      with none, is answered. */
  lemma WalkIsServed(tables: History, n: nat, status: Option<Status>, limit: Option<int>, cursor: Option<int>)
    requires AllWellKeyed(tables) && (cursor.Some? ==> cursor.value > 0)
    ensures var page := Page(tables, n, status, Limit(limit), if cursor.Some? then cursor.value else 0);
            Answers(tables(n), status, limit, cursor, ViewsOfPage(page), NextCursor(page, Limit(limit)))
  {
    hide Limit, NextCursor, IsTop;
    var t, c := tables(n), if cursor.Some? then cursor.value else 0;
    assert WellKeyed(t) && Cursor(cursor) == c;
    var page := Page(tables, n, status, Limit(limit), c);
    PageIsAnswer(t, status, Limit(limit), c);
    PageAnswers(t, status, limit, cursor, page, ViewsOfPage(page), NextCursor(page, Limit(limit)));
  }

  datatype Served = Served(views: seq<JobView.View>, next: int)

  function CursorFor(pages: seq<Served>, k: nat): Option<int>
    requires k <= |pages|
  {
    if k == 0 then None else Some(pages[k - 1].next)
  }

  /** A client that asks without a cursor first, and then passes back each next_cursor until
      there is none. */
  ghost predicate Followed(tables: History, status: Option<Status>, limit: Option<int>, pages: seq<Served>) {
    && pages != []
    && (forall k :: 0 <= k < |pages| ==>
          Answers(tables(k), status, limit, CursorFor(pages, k), pages[k].views, pages[k].next))
    && (forall k :: 0 <= k < |pages| ==> (pages[k].next == 0 <==> k == |pages| - 1))
  }

  ghost function IdsOf(views: seq<JobView.View>): (r: seq<int>)
    ensures |r| == |views| && forall i :: 0 <= i < |r| ==> r[i] == views[i].id
  {
    seq(|views|, i requires 0 <= i < |views| => views[i].id)
  }

  /** The ids on the pages from the k-th on. */
  ghost function ShownFrom(pages: seq<Served>, k: nat): seq<int>
    requires k <= |pages|
    decreases |pages| - k
  {
    if k == |pages| then [] else IdsOf(pages[k].views) + ShownFrom(pages, k + 1)
  }

  lemma {:induction false} FollowedIsWalk(tables: History, status: Option<Status>, limit: Option<int>,
                                          pages: seq<Served>, k: nat)
    requires AllWellKeyed(tables) && Followed(tables, status, limit, pages) && k < |pages|
    requires StartOf(pages, k) >= 0
    ensures ShownFrom(pages, k) == Walk(tables, k, status, Limit(limit), StartOf(pages, k))
    decreases |pages| - k
  {
    hide Answers, Page, NextCursor, Limit, Followed, Walk;
    var c := StartOf(pages, k);
    if k > 0 { NextIsPositive(tables, status, limit, pages, k - 1); }
    NextPage(tables, status, limit, pages, k);
    var page := Page(tables, k, status, Limit(limit), c);
    WalkUnfolds(tables, k, status, Limit(limit), c);
    if k + 1 < |pages| {
      NextIsPositive(tables, status, limit, pages, k);
      FollowedIsWalk(tables, status, limit, pages, k + 1);
    } else {
      LastHasNone(tables, status, limit, pages);
      assert ShownFrom(pages, k + 1) == [] && Ids(page) + [] == Ids(page);
    }
  }

  function StartOf(pages: seq<Served>, k: nat): int
    requires k <= |pages|
  {
    if k == 0 then 0 else pages[k - 1].next
  }

  lemma WalkUnfolds(tables: History, n: nat, status: Option<Status>, limit: nat, cursor: int)
    requires AllWellKeyed(tables) && cursor >= 0
    ensures var page := Page(tables, n, status, limit, cursor); var next := NextCursor(page, limit);
            next >= 0 && Walk(tables, n, status, limit, cursor) ==
            if next == 0 then Ids(page) else Ids(page) + Walk(tables, n + 1, status, limit, next)
  {
  }

  lemma LastHasNone(tables: History, status: Option<Status>, limit: Option<int>, pages: seq<Served>)
    requires Followed(tables, status, limit, pages)
    ensures pages != [] && pages[|pages| - 1].next == 0
  {
    hide Answers;
  }

  lemma NextPage(tables: History, status: Option<Status>, limit: Option<int>, pages: seq<Served>, k: nat)
    requires AllWellKeyed(tables) && Followed(tables, status, limit, pages) && k < |pages| && StartOf(pages, k) >= 0
    requires k > 0 ==> StartOf(pages, k) > 0
    ensures var page := Page(tables, k, status, Limit(limit), StartOf(pages, k));
            IdsOf(pages[k].views) == Ids(page) && pages[k].next == NextCursor(page, Limit(limit))
  {
    hide Answers, Page, NextCursor, Limit;
    var cursor := CursorFor(pages, k);
    WalkIsServed(tables, k, status, limit, cursor);
    var page := Page(tables, k, status, Limit(limit), StartOf(pages, k));
    AnswerIsUnique(tables(k), status, limit, cursor, pages[k].views, pages[k].next,
                   ViewsOfPage(page), NextCursor(page, Limit(limit)));
    assert IdsOf(pages[k].views) == Ids(page);
  }

  lemma NextIsPositive(tables: History, status: Option<Status>, limit: Option<int>, pages: seq<Served>, k: nat)
    requires Followed(tables, status, limit, pages) && k < |pages| - 1
    ensures pages[k].next > 0
  {
  }

  /** With rows only being inserted meanwhile, a client that follows next_cursor is shown the
      jobs that matched at the first request and no others, each exactly once, from the newest
      down; whatever page size it asks for. */
  lemma FollowingShowsEach(tables: History, status: Option<Status>, limit: Option<int>, pages: seq<Served>)
    requires AllWellKeyed(tables) && NewAreLarger(tables) && NothingLost(tables)
    requires Followed(tables, status, limit, pages)
    ensures var ids := ShownFrom(pages, 0);
            && Descending(ids)
            && AllMatch(tables(0), status, ids)
            && (forall id :: Matches(tables(0), status, id) ==> id in ids)
  {
    FollowedIsWalk(tables, status, limit, pages, 0);
    RequestedWalkIsComplete(tables, status, limit);
  }
}
