/** What the hub promises over whole sequences of calls, in any order. */
module HubRuns {
  import opened Hub

  datatype Op = Subscribe | Unsubscribe(id: int) | Publish(e: Event, now: int) | Receive(id: int)

  function Next(h: HubState, op: Op): HubState {
    match op
    case Subscribe => Subscribed(h)
    case Unsubscribe(id) => Dropped(h, id)
    case Publish(e, now) => Published(h, e, now)
    case Receive(id) => Received(h, id)
  }

  function After(h: HubState, ops: seq<Op>): HubState
    decreases |ops|
  {
    if ops == [] then h else After(Next(h, ops[0]), ops[1..])
  }

  /** The events the hub passes on to whoever is subscribed at the time. */
  function Accepted(h: HubState, ops: seq<Op>): seq<Event>
    decreases |ops|
  {
    if ops == [] then []
    else (if ops[0].Publish? && !Coalesced(h, ops[0].e, ops[0].now) then [ops[0].e] else [])
         + Accepted(Next(h, ops[0]), ops[1..])
  }

  ghost predicate WellNumbered(h: HubState) {
    && (forall id :: id in h.subs ==> id <= h.nextId)
    && (forall id :: id in h.subs ==> |h.subs[id].queue| <= BUFFER_SIZE)
  }

  lemma {:induction false} WellNumberedAfter(h: HubState, ops: seq<Op>)
    requires WellNumbered(h)
    ensures WellNumbered(After(h, ops))
    decreases |ops|
  {
    if ops != [] { WellNumberedAfter(Next(h, ops[0]), ops[1..]); }
  }

  /** Everything that has gone into a subscriber's channel, in order. */
  function Stream(s: Subscriber): seq<Event> {
    s.received + s.queue
  }

  // ------------------------------------------------------------ delivery

  /** How many of the calls leave the subscriber in the hub's map. */
  function Survives(h: HubState, ops: seq<Op>, id: int): nat
    decreases |ops|
  {
    if ops == [] || !Open(Next(h, ops[0]), id) then 0 else 1 + Survives(Next(h, ops[0]), ops[1..], id)
  }

  /** The only two ways out of the map: Unsubscribe, or an accepted event that finds the
      buffer full. */
  predicate Cuts(h: HubState, op: Op, id: int) {
    || op == Unsubscribe(id)
    || (op.Publish? && !Coalesced(h, op.e, op.now) && id in h.subs && |h.subs[id].queue| == BUFFER_SIZE)
  }

  lemma OneStep(h: HubState, op: Op, id: int)
    requires WellNumbered(h) && Open(h, id)
    ensures WellNumbered(Next(h, op)) && id in Next(h, op).subs
    ensures Open(Next(h, op), id) <==> !Cuts(h, op, id)
  {
  }

  lemma StreamStep(h: HubState, op: Op, id: int)
    requires WellNumbered(h) && Open(h, id) && id in Next(h, op).subs
    ensures Open(Next(h, op), id) ==>
              Stream(Next(h, op).subs[id]) == Stream(h.subs[id]) + Accepted(h, [op])
    ensures !Open(Next(h, op), id) ==> Stream(Next(h, op).subs[id]) == Stream(h.subs[id])
  {
    var s := h.subs[id];
    assert [op][1..] == [];
    if op == Receive(id) && s.queue != [] {
      assert s.queue == [s.queue[0]] + s.queue[1..];
    }
  }

  /** A closed subscriber can only drain what its channel held. */
  lemma {:induction false} ClosedStays(h: HubState, ops: seq<Op>, id: int)
    requires WellNumbered(h) && id in h.subs && h.subs[id].closed
    ensures id in After(h, ops).subs && After(h, ops).subs[id].closed
    ensures Stream(After(h, ops).subs[id]) == Stream(h.subs[id])
    decreases |ops|
  {
    if ops != [] {
      var s := h.subs[id];
      if ops[0] == Receive(id) && s.queue != [] {
        assert s.queue == [s.queue[0]] + s.queue[1..];
      }
      ClosedStays(Next(h, ops[0]), ops[1..], id);
    }
  }

  lemma AcceptedFirst(h: HubState, ops: seq<Op>)
    requires ops != []
    ensures Accepted(h, ops) == Accepted(h, [ops[0]]) + Accepted(Next(h, ops[0]), ops[1..])
  {
    assert [ops[0]][1..] == [];
  }

  lemma Prefixes(h: HubState, ops: seq<Op>, k: nat)
    requires ops != [] && k <= |ops[1..]|
    ensures Accepted(h, ops[..k + 1]) == Accepted(h, [ops[0]]) + Accepted(Next(h, ops[0]), ops[1..][..k])
    ensures After(h, ops[..k + 1]) == After(Next(h, ops[0]), ops[1..][..k])
  {
    assert ops[..k + 1][0] == ops[0] && ops[..k + 1][1..] == ops[1..][..k];
    AcceptedFirst(h, ops[..k + 1]);
  }

  /** What a subscriber has received, followed by what its channel holds, is what it had
      followed by one contiguous run of the accepted events. The run reaches to the end
      while the subscriber is in the map; otherwise it stops at the first Unsubscribe of
      it or the first accepted event that found its buffer full. */
  lemma {:induction false} Delivery(h: HubState, ops: seq<Op>, id: int)
    requires WellNumbered(h) && Open(h, id)
    ensures var k := Survives(h, ops, id); var t := After(h, ops);
      && k <= |ops| && id in t.subs
      && Stream(t.subs[id]) == Stream(h.subs[id]) + Accepted(h, ops[..k])
      && (k == |ops| <==> Open(t, id))
      && (k < |ops| ==> Cuts(After(h, ops[..k]), ops[k], id))
    decreases |ops|
  {
    hide Next, Stream, Cuts, WellNumbered;
    if ops != [] {
      var g := Next(h, ops[0]);
      var rest := ops[1..];
      OneStep(h, ops[0], id);
      StreamStep(h, ops[0], id);
      if Open(g, id) {
        Delivery(g, rest, id);
        Prefixes(h, ops, Survives(g, rest, id));
      } else {
        ClosedStays(g, rest, id);
        assert ops[..0] == [];
      }
    }
  }

  /** Nothing before that call was an Unsubscribe or found the buffer full. */
  lemma {:induction false} NoEarlierCut(h: HubState, ops: seq<Op>, id: int, i: nat)
    requires WellNumbered(h) && Open(h, id) && i < Survives(h, ops, id)
    ensures i < |ops| && !Cuts(After(h, ops[..i]), ops[i], id)
    decreases |ops|
  {
    OneStep(h, ops[0], id);
    StreamStep(h, ops[0], id);
    if i > 0 {
      NoEarlierCut(Next(h, ops[0]), ops[1..], id, i - 1);
      assert ops[..i][0] == ops[0] && ops[..i][1..] == ops[1..][..i - 1];
    }
  }

  /** From its own Subscribe on, a subscriber sees exactly the accepted events. */
  lemma DeliveryFromSubscribe(before: seq<Op>, ops: seq<Op>)
    ensures var h := Subscribed(After(EMPTY, before)); var id := h.nextId;
            var k := Survives(h, ops, id); var t := After(h, ops);
      && k <= |ops| && id in t.subs
      && Stream(t.subs[id]) == Accepted(h, ops[..k])
      && (k == |ops| <==> Open(t, id))
      && (k < |ops| ==> Cuts(After(h, ops[..k]), ops[k], id))
  {
    WellNumberedAfter(EMPTY, before);
    var h := Subscribed(After(EMPTY, before));
    Delivery(h, ops, h.nextId);
    assert Stream(h.subs[h.nextId]) == [];
  }

  // ------------------------------------------------------------ coalescing

  /** The clock readings of the publishes do not go back and lie between from and to. */
  predicate Clocked(ops: seq<Op>, from: int, to: int)
    decreases |ops|
  {
    ops == [] ||
    (if ops[0].Publish? then from <= ops[0].now <= to && Clocked(ops[1..], ops[0].now, to)
     else Clocked(ops[1..], from, to))
  }

  /** How many progress events of the job get through. */
  function Passed(h: HubState, ops: seq<Op>, job: int): nat
    decreases |ops|
  {
    if ops == [] then 0
    else (if ops[0].Publish? && ops[0].e.kind == JobProgress && ops[0].e.jobId == job &&
             !Coalesced(h, ops[0].e, ops[0].now) then 1 else 0)
         + Passed(Next(h, ops[0]), ops[1..], job)
  }

  /** How many done or failed events of the job are published. */
  function Endings(ops: seq<Op>, job: int): nat
    decreases |ops|
  {
    if ops == [] then 0
    else (if ops[0].Publish? && ops[0].e.kind in {JobDone, JobFailed} && ops[0].e.jobId == job then 1 else 0)
         + Endings(ops[1..], job)
  }

  /** In a window of length to - from, at most one progress event per second and one more
      gets through, plus one for every time the job's clock was cleared. */
  lemma {:induction false} CoalescingBound(h: HubState, ops: seq<Op>, job: int, from: int, to: int)
    requires from <= to && Clocked(ops, from, to)
    requires job in h.lastSent ==> h.lastSent[job] <= from
    ensures Passed(h, ops, job) <= (to - from) / PROGRESS_INTERVAL + 1 + Endings(ops, job)
    ensures job in h.lastSent ==>
              Passed(h, ops, job) <= (to - h.lastSent[job]) / PROGRESS_INTERVAL + Endings(ops, job)
    decreases |ops|
  {
    if ops != [] {
      CoalescingBound(Next(h, ops[0]), ops[1..], job, if ops[0].Publish? then ops[0].now else from, to);
    }
  }

  lemma {:induction false} ClockBehind(h: HubState, ops: seq<Op>, job: int, from: int, to: int)
    requires from <= to && Clocked(ops, from, to)
    requires job in h.lastSent ==> h.lastSent[job] <= from
    ensures job in After(h, ops).lastSent ==> After(h, ops).lastSent[job] <= to
    decreases |ops|
  {
    if ops != [] {
      ClockBehind(Next(h, ops[0]), ops[1..], job, if ops[0].Publish? then ops[0].now else from, to);
    }
  }

  /** The same for any window of a hub's life, whatever was published before it. */
  lemma WindowBound(before: seq<Op>, ops: seq<Op>, job: int, start: int, from: int, to: int)
    requires start <= from <= to && Clocked(before, start, from) && Clocked(ops, from, to)
    ensures Passed(After(EMPTY, before), ops, job) <= (to - from) / PROGRESS_INTERVAL + 1 + Endings(ops, job)
  {
    ClockBehind(EMPTY, before, job, start, from);
    CoalescingBound(After(EMPTY, before), ops, job, from, to);
  }

  // ------------------------------------------------------------ what is held back, exactly

  /** The k-th call publishes a progress event of the job. */
  predicate Progress(ops: seq<Op>, k: int, job: int) {
    0 <= k < |ops| && ops[k].Publish? && ops[k].e.kind == JobProgress && ops[k].e.jobId == job
  }

  /** The k-th call publishes that the job is done or has failed. */
  predicate Ending(ops: seq<Op>, k: int, job: int) {
    0 <= k < |ops| && ops[k].Publish? && (ops[k].e.kind == JobDone || ops[k].e.kind == JobFailed) && ops[k].e.jobId == job
  }

  /** The k-th call adds its event to what is passed on. */
  predicate PassedOn(ops: seq<Op>, k: int)
    requires 0 <= k < |ops|
  {
    ops[k].Publish? && Accepted(EMPTY, ops[..k + 1]) == Accepted(EMPTY, ops[..k]) + [ops[k].e]
  }

  /** Of the job's progress events before the n-th call, the k-th is the last that was passed
      on, and the job has not ended since. */
  predicate LastPassed(ops: seq<Op>, n: int, job: int, k: int)
    requires 0 <= n <= |ops|
  {
    && 0 <= k < n && Progress(ops, k, job) && PassedOn(ops, k)
    && forall i :: k < i < n ==> !Ending(ops, i, job) && !(Progress(ops, i, job) && PassedOn(ops, i))
  }

  lemma {:induction false} AfterSnoc(h: HubState, ops: seq<Op>, op: Op)
    ensures After(h, ops + [op]) == Next(After(h, ops), op)
    ensures Accepted(h, ops + [op]) == Accepted(h, ops) + Accepted(After(h, ops), [op])
    decreases |ops|
  {
    hide Next, Coalesced;
    if ops == [] {
      assert [] + [op] == [op] && [op][1..] == [];
      assert [] + Accepted(h, [op]) == Accepted(h, [op]);
    } else {
      assert (ops + [op])[0] == ops[0] && (ops + [op])[1..] == ops[1..] + [op];
      AfterSnoc(Next(h, ops[0]), ops[1..], op);
      AcceptedFirst(h, ops);
      AcceptedFirst(h, ops + [op]);
    }
  }

  /** The hub's clock of a job stands at the last progress event that was passed on. */
  ghost predicate ClockIs(ops: seq<Op>, n: int, job: int, clock: map<int, int>)
    requires 0 <= n <= |ops|
  {
    if job in clock then exists k :: LastPassed(ops, n, job, k) && ops[k].now == clock[job]
    else forall k :: 0 <= k < n ==> !LastPassed(ops, n, job, k)
  }

  lemma PassedOnIs(ops: seq<Op>, n: nat)
    requires n < |ops|
    ensures After(EMPTY, ops[..n + 1]) == Next(After(EMPTY, ops[..n]), ops[n])
    ensures PassedOn(ops, n) <==> ops[n].Publish? && !Coalesced(After(EMPTY, ops[..n]), ops[n].e, ops[n].now)
  {
    hide Next, Coalesced;
    assert ops[..n + 1] == ops[..n] + [ops[n]];
    AfterSnoc(EMPTY, ops[..n], ops[n]);
    assert [ops[n]][1..] == [];
  }

  /** A call that changes nothing for the job leaves its last event where it was. */
  lemma LastStays(ops: seq<Op>, n: nat, job: int, k: int)
    requires n < |ops| && !Ending(ops, n, job) && !(Progress(ops, n, job) && PassedOn(ops, n)) && k < n
    ensures LastPassed(ops, n + 1, job, k) <==> LastPassed(ops, n, job, k)
  {
    hide PassedOn;
  }

  lemma ClockNext(ops: seq<Op>, n: nat, job: int, clock: map<int, int>, next: map<int, int>)
    requires n < |ops| && ClockIs(ops, n, job, clock)
    requires if Ending(ops, n, job) then job !in next
             else if Progress(ops, n, job) && PassedOn(ops, n) then job in next && next[job] == ops[n].now
             else (job in next <==> job in clock) && (job in next ==> next[job] == clock[job])
    ensures ClockIs(ops, n + 1, job, next)
  {
    hide PassedOn;
    var m := n + 1;
    if Ending(ops, n, job) {
      forall k | 0 <= k < m ensures !LastPassed(ops, m, job, k) { }
    } else if Progress(ops, n, job) && PassedOn(ops, n) {
      assert LastPassed(ops, m, job, n);
    } else {
      forall k | 0 <= k < n ensures LastPassed(ops, m, job, k) <==> LastPassed(ops, n, job, k) {
        LastStays(ops, n, job, k);
      }
      if job in clock {
        var k :| LastPassed(ops, n, job, k) && ops[k].now == clock[job];
        assert LastPassed(ops, m, job, k);
      } else {
        assert !LastPassed(ops, m, job, n);
      }
    }
  }

  lemma ClockStep(h: HubState, op: Op, job: int)
    ensures var next := Next(h, op).lastSent;
            if op.Publish? && op.e.jobId == job && (op.e.kind == JobDone || op.e.kind == JobFailed) then job !in next
            else if op.Publish? && op.e.jobId == job && op.e.kind == JobProgress && !Coalesced(h, op.e, op.now)
            then job in next && next[job] == op.now
            else (job in next <==> job in h.lastSent) && (job in next ==> next[job] == h.lastSent[job])
  {
  }

  lemma {:induction false} ClockIsLast(ops: seq<Op>, n: nat, job: int)
    requires n <= |ops|
    ensures ClockIs(ops, n, job, After(EMPTY, ops[..n]).lastSent)
    decreases n
  {
    if n == 0 {
      assert ops[..0] == [];
    } else {
      hide Next, PassedOn, ClockIs;
      ClockIsLast(ops, n - 1, job);
      PassedOnIs(ops, n - 1);
      ClockStep(After(EMPTY, ops[..n - 1]), ops[n - 1], job);
      ClockNext(ops, n - 1, job, After(EMPTY, ops[..n - 1]).lastSent, After(EMPTY, ops[..n]).lastSent);
    }
  }

  /** The last of the job's progress events that was passed on came less than one second
      before the n-th call, and the job has not ended in between. */
  predicate TooSoon(ops: seq<Op>, n: nat, k: int)
    requires n < |ops| && ops[n].Publish?
  {
    LastPassed(ops, n, ops[n].e.jobId, k) && ops[n].now - ops[k].now < 1_000_000_000
  }

  /** Over every sequence of calls: a progress event of a job is held back if and only if
      the last of the job's progress events that was passed on came less than one second
      before it, and the job has not ended in between. Every other event is passed on. */
  lemma HeldBackExactly(ops: seq<Op>, n: nat)
    requires n < |ops| && ops[n].Publish?
    ensures !PassedOn(ops, n) <==> ops[n].e.kind == JobProgress && exists k :: TooSoon(ops, n, k)
  {
    hide PassedOn;
    PassedOnIs(ops, n);
    var job, h := ops[n].e.jobId, After(EMPTY, ops[..n]);
    ClockIsLast(ops, n, job);
    if k :| TooSoon(ops, n, k) {
      var last :| LastPassed(ops, n, job, last) && ops[last].now == h.lastSent[job];
      OnlyOneLast(ops, n, job, k, last);
    } else if job in h.lastSent {
      var last :| LastPassed(ops, n, job, last) && ops[last].now == h.lastSent[job];
      assert !TooSoon(ops, n, last);
    }
  }

  lemma OnlyOneLast(ops: seq<Op>, n: nat, job: int, j: int, k: int)
    requires n <= |ops| && LastPassed(ops, n, job, j) && LastPassed(ops, n, job, k)
    ensures j == k
  {
    hide PassedOn;
  }

  // ------------------------------------------------------------ what is never held back

  /** The events that are not progress, in order. */
  function Others(events: seq<Event>): seq<Event> {
    if events == [] then []
    else (if events[0].kind != JobProgress then [events[0]] else []) + Others(events[1..])
  }

  /** The events of all publishes, in order. */
  function Offers(ops: seq<Op>): seq<Event> {
    if ops == [] then [] else (if ops[0].Publish? then [ops[0].e] else []) + Offers(ops[1..])
  }

  lemma {:induction false} OthersAppend(a: seq<Event>, b: seq<Event>)
    ensures Others(a + b) == Others(a) + Others(b)
    decreases |a|
  {
    if a == [] {
      assert a + b == b;
    } else {
      assert (a + b)[0] == a[0] && (a + b)[1..] == a[1..] + b;
      OthersAppend(a[1..], b);
    }
  }

  lemma OneOther(e: Event)
    ensures Others([e]) == if e.kind != JobProgress then [e] else []
  {
    assert [e][1..] == [];
  }

  /** Only progress events are ever held back: without them, what is passed on is exactly
      what was published, each as often and in the same order. */
  lemma {:induction false} NothingElseIsHeldBack(h: HubState, ops: seq<Op>)
    ensures Others(Accepted(h, ops)) == Others(Offers(ops))
    decreases |ops|
  {
    if ops != [] {
      var op, g := ops[0], Next(h, ops[0]);
      NothingElseIsHeldBack(g, ops[1..]);
      if op.Publish? {
        OneOther(op.e);
        OthersAppend([op.e], Offers(ops[1..]));
        OthersAppend([op.e], Accepted(g, ops[1..]));
        if Coalesced(h, op.e, op.now) { assert [] + Accepted(g, ops[1..]) == Accepted(g, ops[1..]); }
      } else {
        assert [] + Accepted(g, ops[1..]) == Accepted(g, ops[1..]) && [] + Offers(ops[1..]) == Offers(ops[1..]);
      }
    }
  }
}
