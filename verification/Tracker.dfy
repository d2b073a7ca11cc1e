/** Progress of one job (internal/jobs/tracker.go): the bytes transferred so far as a
    running maximum, captured for a flush at most once a second. */
module Tracker {
  import opened Common
  import Int64

  /** Clock readings are in nanoseconds. */
  const FLUSH_INTERVAL := 1_000_000_000
  const STALE_AFTER := 10_000_000_000

  /** A parsed line of lftp. A negative percentage means there was none. */
  datatype Progress = Progress(bytes: int, total: int, percent: int, speed: int, eta: int)

  /** The fields. None is the zero time. */
  datatype Fields = Fields(
    total: int, bytes: int, speed: int, eta: int,
    lastParse: Option<int>, lastFlush: Option<int>, dirty: bool)

  /** What a flush is given. */
  datatype Capture = Capture(bytes: int, speed: int, eta: int)

  function Started(total: int): Fields { Fields(total, 0, 0, 0, None, None, false) }

  // ------------------------------------------------------------ specification

  /** The total in force once a line has been folded in. */
  function TotalWith(total: int, p: Progress): int { if p.total > 0 then p.total else total }

  /** total * percent / 100 in int64. */
  function BytesOf(total: int, percent: int): int {
    Int64.Quotient(Int64.Wrap(total * percent), 100)
  }

  /** The most that a line gives evidence of, with the total in force. */
  function Evidence(total: int, p: Progress): int {
    if p.percent >= 0 && total > 0 then Max(p.bytes, BytesOf(total, p.percent)) else p.bytes
  }

  function Observed(f: Fields, p: Progress, now: int): Fields {
    var total := TotalWith(f.total, p);
    f.(total := total,
       bytes := Max(f.bytes, Evidence(total, p)),
       speed := if p.speed > 0 then p.speed else f.speed,
       eta := if p.eta > 0 then p.eta else f.eta,
       lastParse := Some(now),
       dirty := true)
  }

  function Sized(f: Fields, n: int): Fields {
    if n > f.bytes then f.(bytes := n, dirty := true) else f
  }

  function Completed(f: Fields): Fields {
    f.(bytes := Max(f.bytes, f.total), speed := 0, eta := 0, dirty := true)
  }

  predicate FlushDue(f: Fields, now: int, force: bool) {
    f.dirty && (force || f.lastFlush.None? || now - f.lastFlush.value >= FLUSH_INTERVAL)
  }

  function Flushed(f: Fields, now: int, force: bool): Fields {
    if FlushDue(f, now, force) then f.(lastFlush := Some(now), dirty := false) else f
  }

  predicate IsStale(f: Fields, now: int) {
    f.lastParse.None? || now - f.lastParse.value >= STALE_AFTER
  }

  // ------------------------------------------------------------ the code

  /** Each method is one or two mutex sections; the clock readings are parameters. A flush
      is returned to the caller, which performs it outside the lock. */
  class Tracker {
    var total: int
    var bytes: int
    var speed: int
    var eta: int
    var lastParse: Option<int>
    var lastFlush: Option<int>
    var dirty: bool

    function State(): Fields
      reads this
    {
      Fields(total, bytes, speed, eta, lastParse, lastFlush, dirty)
    }

    constructor (total: int)
      ensures State() == Started(total)
    {
      this.total := total;
      bytes, speed, eta := 0, 0, 0;
      lastParse, lastFlush, dirty := None, None, false;
    }

    /** The first section of observe. */
    method Observe(p: Progress, now: int)
      modifies this
      ensures State() == Observed(old(State()), p, now)
    {
      lastParse := Some(now);
      if p.total > 0 { total := p.total; }
      if p.speed > 0 { speed := p.speed; }
      if p.eta > 0 { eta := p.eta; }
      if p.percent >= 0 && total > 0 {
        var b := Int64.Quotient(Int64.Wrap(total * p.percent), 100);
        if b > bytes { bytes := b; }
      }
      if p.bytes > bytes { bytes := p.bytes; }
      dirty := true;
    }

    /** The first section of observeSize. */
    method ObserveSize(n: int)
      modifies this
      ensures State() == Sized(old(State()), n)
    {
      if n > bytes {
        bytes := n;
        dirty := true;
      }
    }

    /** The first section of complete. */
    method Complete()
      modifies this
      ensures State() == Completed(old(State()))
    {
      if total > bytes { bytes := total; }
      speed, eta, dirty := 0, 0, true;
    }

    /** maybeFlush, up to the call of flush. */
    method MaybeFlush(now: int, force: bool) returns (capture: Option<Capture>)
      modifies this
      ensures State() == Flushed(old(State()), now, force)
      ensures capture == if FlushDue(old(State()), now, force) then Some(Capture(bytes, speed, eta)) else None
    {
      if !dirty || (!force && lastFlush.Some? && now - lastFlush.value < FLUSH_INTERVAL) {
        return None;
      }
      lastFlush, dirty := Some(now), false;
      return Some(Capture(bytes, speed, eta));
    }

    method Stale(now: int) returns (stale: bool)
      ensures stale == IsStale(State(), now)
    {
      return lastParse.None? || now - lastParse.value >= STALE_AFTER;
    }
  }
}
