/** What the tracker promises over every run: any interleaving of the mutex sections of
    observe, observeSize, complete and maybeFlush. */
module TrackerRuns {
  import opened Common
  import opened Tracker
  import opened JobState
  import opened JobTable
  import Int64
  import JobView

  datatype Op = Line(p: Progress, now: int) | Poll(n: int) | Finish | TryFlush(now: int, force: bool)

  function Next(f: Fields, op: Op): Fields {
    match op
    case Line(p, now) => Observed(f, p, now)
    case Poll(n) => Sized(f, n)
    case Finish => Completed(f)
    case TryFlush(now, force) => Flushed(f, now, force)
  }

  function After(f: Fields, ops: seq<Op>): Fields
    decreases |ops|
  {
    if ops == [] then f else After(Next(f, ops[0]), ops[1..])
  }

  // ------------------------------------------------------------ the bytes are a maximum

  function TotalAfter(total: int, op: Op): int {
    if op.Line? then TotalWith(total, op.p) else total
  }

  /** What one section says has been transferred; 0 if it says nothing. */
  function Contribution(total: int, op: Op): int {
    match op
    case Line(p, _) => Evidence(TotalWith(total, p), p)
    case Poll(n) => n
    case Finish => total
    case TryFlush(_, _) => 0
  }

  /** The contributions of a run, each with the total in force at its time. */
  function Contributions(total: int, ops: seq<Op>): seq<int>
    decreases |ops|
  {
    if ops == [] then [] else [Contribution(total, ops[0])] + Contributions(TotalAfter(total, ops[0]), ops[1..])
  }

  /** m is the larger of `floor` and the largest element. */
  ghost predicate IsMaximum(m: int, floor: int, s: seq<int>) {
    && m >= floor
    && (forall i :: 0 <= i < |s| ==> m >= s[i])
    && (m == floor || m in s)
  }

  lemma {:induction false} BytesAreMaximum(f: Fields, ops: seq<Op>)
    requires f.bytes >= 0
    ensures IsMaximum(After(f, ops).bytes, f.bytes, Contributions(f.total, ops))
    decreases |ops|
  {
    if ops != [] {
      var next := Next(f, ops[0]);
      BytesAreMaximum(next, ops[1..]);
      var c, rest := Contribution(f.total, ops[0]), Contributions(next.total, ops[1..]);
      assert next.bytes == Max(f.bytes, c);
      assert Contributions(f.total, ops) == [c] + rest;
    }
  }

  predicate KeepsTotal(total: int, op: Op) {
    op.Line? ==> op.p.total <= 0 || op.p.total == total
  }

  lemma {:induction false} ContributionsAt(total: int, ops: seq<Op>)
    requires forall i :: 0 <= i < |ops| ==> KeepsTotal(total, ops[i])
    ensures var c := Contributions(total, ops);
            |c| == |ops| && forall i :: 0 <= i < |ops| ==> c[i] == Contribution(total, ops[i])
    decreases |ops|
  {
    if ops != [] {
      assert KeepsTotal(total, ops[0]);
      ContributionsAt(total, ops[1..]);
    }
  }

  lemma BytesAtLeast(total: int, ops: seq<Op>, others: seq<Op>)
    requires forall i :: 0 <= i < |ops| ==> KeepsTotal(total, ops[i])
    requires forall i :: 0 <= i < |others| ==> KeepsTotal(total, others[i])
    requires multiset(ops) == multiset(others)
    ensures After(Started(total), ops).bytes <= After(Started(total), others).bytes
  {
    BytesAreMaximum(Started(total), ops);
    BytesAreMaximum(Started(total), others);
    ContributionsAt(total, ops);
    ContributionsAt(total, others);
    var m := After(Started(total), ops).bytes;
    if m != 0 {
      var c := Contributions(total, ops);
      var i :| 0 <= i < |c| && c[i] == m;
      assert ops[i] in multiset(ops);
      assert ops[i] in multiset(others);
      var j :| 0 <= j < |others| && others[j] == ops[i];
      assert Contributions(total, others)[j] == m;
    }
  }

  /** While no line changes the total, the order in which lines, polls and the end arrive
      does not matter. */
  lemma OrderIsIrrelevant(total: int, ops: seq<Op>, others: seq<Op>)
    requires forall i :: 0 <= i < |ops| ==> KeepsTotal(total, ops[i])
    requires forall i :: 0 <= i < |others| ==> KeepsTotal(total, others[i])
    requires multiset(ops) == multiset(others)
    ensures After(Started(total), ops).bytes == After(Started(total), others).bytes
  {
    BytesAtLeast(total, ops, others);
    BytesAtLeast(total, others, ops);
  }

  /** A line that changes the total makes the order matter: half of 1000, before or after
      the total turns out to be 200. */
  lemma OrderMattersWhenTotalChanges()
    ensures var half := Line(Progress(0, 0, 50, 0, 0), 0);
            var learns := Line(Progress(0, 200, -1, 0, 0), 0);
            && After(Started(1000), [half, learns]).bytes == 500
            && After(Started(1000), [learns, half]).bytes == 100
  {
    var half := Line(Progress(0, 0, 50, 0, 0), 0);
    var learns := Line(Progress(0, 200, -1, 0, 0), 0);
    assert [half, learns][1..] == [learns] && [learns, half][1..] == [half];
    assert [half][1..] == [] && [learns][1..] == [];
    var f := Started(1000);
    assert BytesOf(1000, 50) == 500 && BytesOf(200, 50) == 100;
    assert After(f, [half, learns]) == After(Next(f, half), [learns]) == Next(Next(f, half), learns);
    assert After(f, [learns, half]) == After(Next(f, learns), [half]) == Next(Next(f, learns), half);
  }

  // ------------------------------------------------------------ the captures

  datatype Taken = Taken(capture: Capture, now: int, forced: bool)

  /** The flushes of a run, in the order in which they are captured. */
  function Takes(f: Fields, ops: seq<Op>): seq<Taken>
    decreases |ops|
  {
    if ops == [] then []
    else
      var rest := Takes(Next(f, ops[0]), ops[1..]);
      if ops[0].TryFlush? && FlushDue(f, ops[0].now, ops[0].force)
      then [Taken(Capture(f.bytes, f.speed, f.eta), ops[0].now, ops[0].force)] + rest
      else rest
  }

  /** From `low` to `high`, never decreasing. */
  predicate Climbs(low: int, t: seq<Taken>, high: int)
    decreases |t|
  {
    if t == [] then low <= high else low <= t[0].capture.bytes && Climbs(t[0].capture.bytes, t[1..], high)
  }

  lemma {:induction false} ClimbsBelow(low: int, other: int, t: seq<Taken>, high: int)
    requires Climbs(low, t, high) && other <= low
    ensures Climbs(other, t, high)
  {
  }

  /** A capture never shows fewer bytes than an earlier one, or more than the final count. */
  lemma {:induction false} CapturesNeverDecrease(f: Fields, ops: seq<Op>)
    ensures Climbs(f.bytes, Takes(f, ops), After(f, ops).bytes)
    decreases |ops|
  {
    if ops != [] {
      var next := Next(f, ops[0]);
      var rest := Takes(next, ops[1..]);
      CapturesNeverDecrease(next, ops[1..]);
      ClimbsBelow(next.bytes, f.bytes, rest, After(f, ops).bytes);
      assert Takes(f, ops) == rest || Takes(f, ops)[1..] == rest;
    }
  }

  /** An unforced capture comes at least one interval after the capture before it. */
  predicate Spaced(t: seq<Taken>) {
    forall i :: 0 < i < |t| ==> t[i].forced || t[i].now - t[i - 1].now >= FLUSH_INTERVAL
  }

  lemma {:induction false} UnforcedAreSpaced(f: Fields, ops: seq<Op>)
    ensures Spaced(Takes(f, ops))
    ensures var t := Takes(f, ops);
            t != [] && f.lastFlush.Some? ==> t[0].forced || t[0].now - f.lastFlush.value >= FLUSH_INTERVAL
    decreases |ops|
  {
    if ops != [] {
      UnforcedAreSpaced(Next(f, ops[0]), ops[1..]);
    }
  }

  function CountUnforced(t: seq<Taken>): nat {
    if t == [] then 0 else (if t[0].forced then 0 else 1) + CountUnforced(t[1..])
  }

  predicate ClockAdvances(t: seq<Taken>) {
    forall i :: 0 < i < |t| ==> t[i - 1].now <= t[i].now
  }

  /** With a clock that does not go back: from one capture to a later one there pass at
      least as many intervals as there are unforced captures after the first. */
  lemma {:induction false} UnforcedAreRare(t: seq<Taken>)
    requires t != [] && Spaced(t) && ClockAdvances(t)
    ensures t[|t| - 1].now - t[0].now >= CountUnforced(t[1..]) * FLUSH_INTERVAL
    decreases |t|
  {
    if |t| > 1 {
      var rest := t[1..];
      assert Spaced(rest) by { assert forall i :: 0 < i < |rest| ==> rest[i] == t[i + 1] && rest[i - 1] == t[i]; }
      assert ClockAdvances(rest) by { assert forall i :: 0 < i < |rest| ==> rest[i] == t[i + 1] && rest[i - 1] == t[i]; }
      UnforcedAreRare(rest);
      assert t[0].now <= t[1].now;
      assert t[1].forced || t[1].now - t[0].now >= FLUSH_INTERVAL;
    }
  }

  /** Nothing is lost: as long as the fields are not dirty, the last capture shows them as
      they are; and without a capture nothing stops being dirty. */
  lemma {:induction false} DirtyUntilCaptured(f: Fields, ops: seq<Op>)
    ensures var t := Takes(f, ops); var end := After(f, ops);
            && (t == [] ==> end.dirty || (!f.dirty && end == f))
            && (t != [] && !end.dirty ==> t[|t| - 1].capture == Capture(end.bytes, end.speed, end.eta))
    decreases |ops|
  {
    if ops != [] {
      var rest := Takes(Next(f, ops[0]), ops[1..]);
      DirtyUntilCaptured(Next(f, ops[0]), ops[1..]);
      var t := Takes(f, ops);
      if t != rest && rest != [] {
        assert t == [t[0]] + rest && t[|t| - 1] == rest[|rest| - 1];
      }
    }
  }

  // ------------------------------------------------------------ speed, ETA, staleness

  /** The last positive one that a line reported since the end was last marked; else 0. */
  predicate LastReported(ops: seq<Op>, of: Progress -> int, shown: int) {
    || (shown == 0 && NoneReported(ops, of, 0))
    || (exists k :: 0 <= k < |ops| && ReportedAt(ops, of, k, shown))
  }

  predicate ReportedAt(ops: seq<Op>, of: Progress -> int, k: int, shown: int)
    requires 0 <= k < |ops|
  {
    ops[k].Line? && of(ops[k].p) == shown > 0 && NoneSince(ops, of, k + 1)
  }

  /** Neither a positive report nor the end from here on. */
  predicate NoneSince(ops: seq<Op>, of: Progress -> int, from: int)
    requires 0 <= from
  {
    forall i :: from <= i < |ops| ==> !ops[i].Finish? && (ops[i].Line? ==> of(ops[i].p) <= 0)
  }

  /** No positive report from here on, or none after the last end. */
  predicate NoneReported(ops: seq<Op>, of: Progress -> int, from: int)
    requires 0 <= from
  {
    NoneSince(ops, of, from) || exists k :: from <= k < |ops| && ops[k].Finish? && NoneSince(ops, of, k + 1)
  }

  function Speed(p: Progress): int { p.speed }

  function Eta(p: Progress): int { p.eta }

  lemma {:induction false} AfterSnoc(f: Fields, ops: seq<Op>, op: Op)
    ensures After(f, ops + [op]) == Next(After(f, ops), op)
    decreases |ops|
  {
    if ops == [] {
      assert [] + [op] == [op] && [op][1..] == [];
    } else {
      assert (ops + [op])[0] == ops[0] && (ops + [op])[1..] == ops[1..] + [op];
      AfterSnoc(Next(f, ops[0]), ops[1..], op);
    }
  }

  lemma ReportedNext(ops: seq<Op>, op: Op, of: Progress -> int, before: int, after: int)
    requires LastReported(ops, of, before)
    requires after == if op.Finish? then 0 else if op.Line? && of(op.p) > 0 then of(op.p) else before
    ensures LastReported(ops + [op], of, after)
  {
    var all, n := ops + [op], |ops|;
    assert all[n] == op && forall i :: 0 <= i < n ==> all[i] == ops[i];
    if op.Finish? {
      assert NoneSince(all, of, n + 1);
    } else if op.Line? && of(op.p) > 0 {
      assert ReportedAt(all, of, n, after);
    } else if k :| 0 <= k < n && ReportedAt(ops, of, k, before) {
      assert ReportedAt(all, of, k, after);
    } else if NoneSince(ops, of, 0) {
      assert NoneSince(all, of, 0);
    } else {
      var k :| 0 <= k < n && ops[k].Finish? && NoneSince(ops, of, k + 1);
      assert all[k].Finish? && NoneSince(all, of, k + 1);
    }
  }

  /** Over every run: the speed and the ETA shown are the last positive ones reported since
      the transfer was last marked complete, and 0 if there are none. */
  lemma {:induction false} ShownIsLastReported(total: int, ops: seq<Op>)
    ensures LastReported(ops, Speed, After(Started(total), ops).speed)
    ensures LastReported(ops, Eta, After(Started(total), ops).eta)
    decreases |ops|
  {
    if ops == [] {
      assert NoneSince(ops, Speed, 0) && NoneSince(ops, Eta, 0);
    } else {
      var n := |ops| - 1;
      var front, op := ops[..n], ops[n];
      assert ops == front + [op];
      ShownIsLastReported(total, front);
      AfterSnoc(Started(total), front, op);
      var f := After(Started(total), front);
      ReportedNext(front, op, Speed, f.speed, Next(f, op).speed);
      ReportedNext(front, op, Eta, f.eta, Next(f, op).eta);
    }
  }

  /** Lines are read at times that do not go back. */
  predicate LinesInOrder(ops: seq<Op>) {
    forall i, j :: 0 <= i < j < |ops| && ops[i].Line? && ops[j].Line? ==> ops[i].now <= ops[j].now
  }

  predicate LastLineAt(ops: seq<Op>, k: int) {
    0 <= k < |ops| && ops[k].Line? && forall i :: k < i < |ops| ==> !ops[i].Line?
  }

  lemma {:induction false} LastParseIs(total: int, ops: seq<Op>) returns (k: int)
    ensures var f := After(Started(total), ops);
            if f.lastParse.None? then forall i :: 0 <= i < |ops| ==> !ops[i].Line?
            else LastLineAt(ops, k) && ops[k].now == f.lastParse.value
    decreases |ops|
  {
    if ops == [] {
      k := 0;
    } else {
      var n := |ops| - 1;
      var front, op := ops[..n], ops[n];
      assert ops == front + [op];
      k := LastParseIs(total, front);
      AfterSnoc(Started(total), front, op);
      if op.Line? { k := n; }
    }
  }

  /** Stale means exactly that no line has been read in the last ten seconds. */
  lemma StaleIsSilent(total: int, ops: seq<Op>, now: int)
    requires LinesInOrder(ops)
    ensures IsStale(After(Started(total), ops), now) <==>
            forall i :: 0 <= i < |ops| && ops[i].Line? ==> now - ops[i].now >= 10_000_000_000
  {
    var k := LastParseIs(total, ops);
    var f := After(Started(total), ops);
    if f.lastParse.Some? {
      forall i | 0 <= i < |ops| && ops[i].Line? ensures ops[i].now <= ops[k].now { }
    }
  }

  // ------------------------------------------------------------ percentages

  /** For a total up to MaxInt64 / 100 nothing overflows. */
  lemma NothingOverflows(total: int, percent: int)
    requires 0 < total <= Int64.MAX / 100 && 0 <= percent <= 100
    ensures total * percent <= total * 100 <= Int64.MAX
    ensures BytesOf(total, percent) == total * percent / 100
    ensures 0 <= BytesOf(total, percent) <= total
  {
    assert 0 <= total * percent <= total * 100;
  }

  lemma Product(total: int, d: int)
    requires total > 0
    ensures d >= 1 ==> total * d >= total
    ensures d <= -1 ==> total * d <= -total
  {
    if d >= 1 {
      assert total * d == total * (d - 1) + total;
    } else if d <= -1 {
      assert total * d == total * (d + 1) - total;
    }
  }

  lemma Between(total: int, k: int, x: int)
    requires total > 0 && total * k <= x < total * k + total
    ensures x / total == k
  {
    var q := x / total;
    assert x == total * q + x % total;
    assert total * (q - k) == total * q - total * k;
    Product(total, q - k);
  }

  /** Rounding to bytes and back loses one percent for each whole or started total in what
      was cut off. */
  lemma Bounds(total: int, percent: int, bytes: int)
    requires total >= 1 && bytes == total * percent / 100
    ensures bytes * 100 / total == percent - (total * percent % 100 + total - 1) / total
  {
    var left := total * percent % 100;
    var lost := (left + total - 1) / total;
    assert bytes * 100 == total * percent - left;
    assert left + total - 1 == total * lost + (left + total - 1) % total;
    assert total * (percent - lost) == total * percent - total * lost;
    Between(total, percent - lost, bytes * 100);
  }

  lemma WholeOrStarted(total: int, left: int)
    requires total >= 1 && left >= 0
    ensures var lost := (left + total - 1) / total;
            && (lost == 0 <==> left == 0)
            && (lost == 1 <==> 0 < left <= total)
            && lost >= 0
  {
    var lost := (left + total - 1) / total;
    assert left + total - 1 == total * lost + (left + total - 1) % total;
    if lost >= 2 { Product(total, lost - 1); assert total * (lost - 1) == total * lost - total; }
    if lost < 0 { Product(total, lost); }
  }

  /** What is shown for the bytes that p percent of a total give, for every total: p itself
      exactly when nothing was rounded away, one less exactly when what was rounded away, in
      hundredths of a byte, is at most the total, and less than that otherwise. */
  lemma PercentSurvives(total: int, percent: int)
    requires 1 <= total <= Int64.MAX / 100 && 0 <= percent <= 100
    ensures var shown := JobView.Percent(BytesOf(total, percent), total);
            var left := total * percent % 100;
            && shown == percent - (left + total - 1) / total
            && (shown == percent <==> left == 0)
            && (shown == percent - 1 <==> 0 < left <= total)
            && (shown < percent - 1 <==> left > total)
  {
    NothingOverflows(total, percent);
    var bytes := BytesOf(total, percent);
    assert 0 <= bytes * 100 <= total * 100;
    Bounds(total, percent, bytes);
    WholeOrStarted(total, total * percent % 100);
  }

  /** From a hundred bytes on at most one percent is lost. */
  lemma LargeTotalsLoseOne(total: int, percent: int)
    requires 100 <= total <= Int64.MAX / 100 && 0 <= percent <= 100
    ensures percent - 1 <= JobView.Percent(BytesOf(total, percent), total) <= percent
  {
    PercentSurvives(total, percent);
  }

  /** Whatever the totals say, a view shows between 0 and 100 percent, and 100 exactly when
      the job is done or no byte of a known total is missing. */
  lemma FullMeansNothingMissing(j: Job)
    requires 0 <= j.transferred <= Int64.MAX / 100
    ensures var shown := JobView.ViewOf(j).percent;
            && 0 <= shown <= 100
            && (shown == 100 <==> j.status == Done || (j.total > 0 && j.transferred >= j.total))
  {
    if j.total > 0 {
      var d := j.transferred * 100;
      assert 0 <= d <= Int64.MAX;
      if j.transferred >= j.total {
        AtLeast(d, j.total);
      } else {
        Below(d, j.total);
      }
    }
  }

  lemma AtLeast(d: int, total: int)
    requires total > 0 && d >= total * 100
    ensures d / total >= 100
  {
    assert d == total * (d / total) + d % total;
    Product(total, d / total - 100);
    assert total * (d / total - 100) == total * (d / total) - total * 100;
  }

  lemma Below(d: int, total: int)
    requires total > 0 && 0 <= d < total * 100
    ensures 0 <= d / total < 100
  {
    assert d == total * (d / total) + d % total;
    Product(total, d / total - 99);
    Product(total, d / total);
    assert total * (d / total - 99) == total * (d / total) - total * 99;
  }

  /** The most that can be lost: one byte at 99 percent shows nothing. */
  lemma OneByteLosesAll()
    ensures JobView.Percent(BytesOf(1, 99), 1) == 0
  {
  }
}
