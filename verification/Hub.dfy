/** The SSE fan-out hub (internal/events/events.go). */
module Hub {
  import opened Common
  import opened JobView

  datatype EventType = JobCreated | JobProgress | JobDone | JobFailed | JobLog | Snapshot

  datatype Data = OneJob(view: View) | Line(text: string) | AllJobs(views: seq<View>)

  datatype Event = Event(kind: EventType, jobId: int, data: Data)

  const BUFFER_SIZE := 64

  /** One second, in nanoseconds. */
  const PROGRESS_INTERVAL := 1_000_000_000

  // ------------------------------------------------------------ specification

  /** A subscriber as its handler sees it: what it has received, what its channel still
      holds, and whether the hub has closed the channel. */
  datatype Subscriber = Subscriber(queue: seq<Event>, closed: bool, received: seq<Event>)

  /** Every subscriber there ever was; the hub's own map holds those not closed. */
  datatype HubState = HubState(nextId: int, subs: map<int, Subscriber>, lastSent: map<int, int>)

  const EMPTY := HubState(0, map[], map[])

  predicate Open(h: HubState, id: int) {
    id in h.subs && !h.subs[id].closed
  }

  function Subscribed(h: HubState): HubState {
    h.(nextId := h.nextId + 1, subs := h.subs[h.nextId + 1 := Subscriber([], false, [])])
  }

  function Dropped(h: HubState, id: int): HubState {
    if Open(h, id) then h.(subs := h.subs[id := h.subs[id].(closed := true)]) else h
  }

  /** A progress event that comes less than an interval after the last accepted one. */
  predicate Coalesced(h: HubState, e: Event, now: int) {
    e.kind == JobProgress && e.jobId in h.lastSent && now - h.lastSent[e.jobId] < PROGRESS_INTERVAL
  }

  function Clock(lastSent: map<int, int>, e: Event, now: int): map<int, int> {
    match e.kind
    case JobProgress => lastSent[e.jobId := now]
    case JobDone => lastSent - {e.jobId}
    case JobFailed => lastSent - {e.jobId}
    case _ => lastSent
  }

  function Offered(s: Subscriber, e: Event): Subscriber {
    if s.closed then s
    else if |s.queue| < BUFFER_SIZE then s.(queue := s.queue + [e])
    else s.(closed := true)
  }

  /** Some have been offered the event, and those in `todo` not yet. */
  function Halfway(was: map<int, Subscriber>, todo: set<int>, e: Event): map<int, Subscriber> {
    map k | k in was :: if k in todo then was[k] else Offered(was[k], e)
  }

  lemma NextOffered(was: map<int, Subscriber>, todo: set<int>, id: int, e: Event)
    requires id in todo && id in was
    ensures Halfway(was, todo - {id}, e) == Halfway(was, todo, e)[id := Offered(was[id], e)]
  {
  }

  lemma AllOffered(was: map<int, Subscriber>, e: Event)
    ensures Halfway(was, {}, e) == map k | k in was :: Offered(was[k], e)
  {
  }

  lemma NobodyOffered(was: map<int, Subscriber>, todo: set<int>, e: Event)
    requires forall k :: k in was ==> k in todo || was[k].closed
    ensures Halfway(was, todo, e) == was
  {
    assert forall k :: k in was ==> Halfway(was, todo, e)[k] == was[k];
  }

  function Published(h: HubState, e: Event, now: int): HubState {
    if Coalesced(h, e, now) then h
    else h.(lastSent := Clock(h.lastSent, e, now), subs := map id | id in h.subs :: Offered(h.subs[id], e))
  }

  /** The handler takes the oldest queued event; a closed channel can still be drained. */
  function Received(h: HubState, id: int): HubState {
    if id in h.subs && h.subs[id].queue != [] then
      var s := h.subs[id];
      h.(subs := h.subs[id := s.(queue := s.queue[1..], received := s.received + [s.queue[0]])])
    else h
  }

  // ------------------------------------------------------------ the objects

  /** A buffered Go channel with one receiver. Sending on it or closing it once it is
      closed would panic, so both demand an open channel. */
  class Channel {
    var queue: seq<Event>
    var closed: bool
    ghost var received: seq<Event>

    constructor ()
      ensures queue == [] && !closed && received == []
    {
      queue, closed, received := [], false, [];
    }

    /** select { case ch <- e: default: } */
    method TrySend(e: Event) returns (sent: bool)
      requires !closed
      modifies this`queue
      ensures sent <==> old(|queue|) < BUFFER_SIZE
      ensures queue == if sent then old(queue) + [e] else old(queue)
    {
      sent := |queue| < BUFFER_SIZE;
      if sent { queue := queue + [e]; }
    }

    method Close()
      requires !closed
      modifies this`closed
      ensures closed
    {
      closed := true;
    }

    method Receive() returns (e: Option<Event>)
      modifies this`queue, this`received
      ensures old(queue) == [] ==> e == None && queue == old(queue) && received == old(received)
      ensures old(queue) != [] ==>
                e == Some(old(queue)[0]) && queue == old(queue)[1..] && received == old(received) + [old(queue)[0]]
    {
      e := None;
      if queue != [] {
        e := Some(queue[0]);
        received := received + [queue[0]];
        queue := queue[1..];
      }
    }

    ghost function AsSubscriber(): Subscriber
      reads this
    {
      Subscriber(queue, closed, received)
    }
  }

  class Hub {
    var subs: map<int, Channel>
    var nextId: int
    var lastSent: map<int, int>
    ghost var issued: map<int, Channel>   // every channel ever handed out

    /** The map holds exactly the open channels, and no channel has two ids. */
    ghost predicate Valid()
      reads this, issued.Values
    {
      && (forall id :: id in subs ==> id in issued && subs[id] == issued[id])
      && (forall id :: id in issued ==> (id in subs <==> !issued[id].closed))
      && (forall id :: id in issued ==> id <= nextId)
      && (forall i, j :: i in issued && j in issued && i != j ==> issued[i] != issued[j])
    }

    ghost function State(): HubState
      reads this, issued.Values
    {
      HubState(nextId, map id | id in issued :: issued[id].AsSubscriber(), lastSent)
    }

    constructor ()
      ensures Valid() && State() == EMPTY && issued == map[]
    {
      subs, nextId, lastSent, issued := map[], 0, map[], map[];
    }

    method Subscribe() returns (id: int, ch: Channel)
      requires Valid()
      modifies this
      ensures Valid() && State() == Subscribed(old(State()))
      ensures id == nextId && fresh(ch) && issued == old(issued)[id := ch]
    {
      ghost var before := State();
      ch := new Channel();
      assert State() == before;
      nextId := nextId + 1;
      id := nextId;
      subs := subs[id := ch];
      issued := issued[id := ch];
      assert State().subs == before.subs[id := Subscriber([], false, [])];
    }

    method Drop(id: int)
      requires Valid()
      modifies this`subs, issued.Values
      ensures Valid() && State() == Dropped(old(State()), id) && issued == old(issued)
      ensures nextId == old(nextId) && lastSent == old(lastSent) && subs == old(subs) - {id}
    {
      ghost var before := State();
      if id in subs {
        var ch := subs[id];
        assert forall k :: k in issued && k != id ==> issued[k] != ch;
        subs := subs - {id};
        ch.Close();
      }
      assert forall k :: k in issued ==> State().subs[k] == Dropped(before, id).subs[k];
      assert State().subs == Dropped(before, id).subs;
    }

    method Unsubscribe(id: int)
      requires Valid()
      modifies this`subs, issued.Values
      ensures Valid() && State() == Dropped(old(State()), id) && issued == old(issued)
    {
      Drop(id);
    }

    /** Progress of a job is let through once a second; its end forgets the clock. */
    method Coalesce(e: Event, now: int) returns (held: bool)
      modifies this`lastSent
      ensures held <==> Coalesced(old(State()), e, now)
      ensures lastSent == if held then old(lastSent) else Clock(old(lastSent), e, now)
    {
      if e.kind == JobProgress {
        if e.jobId in lastSent && now - lastSent[e.jobId] < PROGRESS_INTERVAL {
          return true;
        }
        lastSent := lastSent[e.jobId := now];
      } else if e.kind == JobDone || e.kind == JobFailed {
        lastSent := lastSent - {e.jobId};
      }
      return false;
    }

    method Publish(e: Event, now: int)
      requires Valid()
      modifies this, issued.Values
      ensures Valid() && State() == Published(old(State()), e, now) && issued == old(issued)
    {
      var held := Coalesce(e, now);
      if held { return; }
      OfferAll(e);
    }

    method OfferAll(e: Event)
      requires Valid()
      modifies this`subs, issued.Values
      ensures Valid() && issued == old(issued)
      ensures var h := old(State()); State() == h.(subs := map k | k in h.subs :: Offered(h.subs[k], e))
    {
      FanOut(e);
      AllOffered(old(State()).subs, e);
    }

    /** for id, ch := range h.subs, in whatever order the map yields them. */
    method FanOut(e: Event)
      requires Valid()
      modifies this`subs, issued.Values
      ensures Valid() && issued == old(issued)
      ensures var h := old(State()); State() == h.(subs := Halfway(h.subs, {}, e))
      ensures forall k :: k in issued ==> issued[k].AsSubscriber() == Offered(old(issued[k].AsSubscriber()), e)
    {
      ghost var before := State();
      var todo := subs.Keys;
      NobodyOffered(before.subs, todo, e);
      while todo != {}
        invariant Valid() && issued == old(issued) && todo <= subs.Keys
        invariant State() == before.(subs := Halfway(before.subs, todo, e))
        decreases |todo|
      {
        ghost var some := Pick(todo);
        var id :| id in todo;
        NextOffered(before.subs, todo, id, e);
        todo := todo - {id};
        OfferTo(id, e);
      }
      assert forall k :: k in issued ==> State().subs[k] == issued[k].AsSubscriber();
    }

    /** One turn of the loop: send, or drop a subscriber whose buffer is full. */
    method OfferTo(id: int, e: Event)
      requires Valid() && id in subs
      modifies this`subs, issued.Values
      ensures Valid() && issued == old(issued) && subs.Keys + {id} == old(subs.Keys)
      ensures var h := old(State()); id in h.subs && State() == h.(subs := h.subs[id := Offered(h.subs[id], e)])
    {
      ghost var before := old(State());
      assert forall k :: k in issued && k != id ==> issued[k] != subs[id];
      var sent := subs[id].TrySend(e);
      if !sent {
        ghost var between := State();
        Drop(id);
        assert State() == Dropped(between, id);
        assert forall k :: k in issued ==> State().subs[k] == issued[k].AsSubscriber();
      }
    }
  }
}
