/** The event stream on the wire: the frames `writeEvent` and the heartbeat write
    (internal/api/jobs.go), and the reader of sections 9.2.5 and 9.2.6 of the WHATWG HTML
    Living Standard. */
module Sse {
  import opened Common
  import opened Text

  // ------------------------------------------------------------ the writer

  datatype Item = Frame(kind: string, body: string) | Ping

  function IdLine(number: int): string { ("id" + ": ") + Decimal(number) }

  function EventLine(kind: string): string { ("event" + ": ") + kind }

  function DataLine(body: string): string { ("data" + ": ") + body }

  function Terminated(line: string): string { line + "\n" }

  /** One frame: three fields and the blank line that dispatches them. */
  function FrameText(number: int, kind: string, body: string): string {
    Terminated(IdLine(number)) + Terminated(EventLine(kind)) + Terminated(DataLine(body)) + Terminated("")
  }

  const PING := ": ping\n\n"

  /** What the items look like on the wire, when `sent` frames went before. */
  function Render(items: seq<Item>, sent: int): string
    decreases |items|
  {
    if items == [] then ""
    else
      match items[0]
      case Ping => PING + Render(items[1..], sent)
      case Frame(kind, body) => FrameText(sent + 1, kind, body) + Render(items[1..], sent + 1)
  }

  /** The format string of `writeEvent` spells the same frame. */
  lemma FrameAsWritten(number: int, kind: string, body: string)
    ensures "id: " + Decimal(number) + "\nevent: " + kind + "\ndata: " + body + "\n\n" == FrameText(number, kind, body)
  {
    var d := Decimal(number);
    assert "id" + ": " == "id: " && "event" + ": " == "event: " && "data" + ": " == "data: ";
    assert "\n" + "event: " == "\nevent: " && "\n" + "data: " == "\ndata: " && "\n" + "\n" == "\n\n";
    assert Terminated("") == "\n";
    Regroup("id: ", d, "\n", "event: ", kind, "data: ", body);
  }

  lemma Regroup(i: string, d: string, n: string, e: string, k: string, t: string, b: string)
    ensures i + d + (n + e) + k + (n + t) + b + (n + n) == ((i + d) + n) + ((e + k) + n) + ((t + b) + n) + n
  {
    var head := i + d;
    assert head + (n + e) == (head + n) + e;
    var h1 := head + n;
    assert (h1 + e) + k == h1 + (e + k);
    var h2 := h1 + (e + k);
    assert h2 + (n + t) == (h2 + n) + t;
    var h3 := h2 + n;
    assert (h3 + t) + b == h3 + (t + b);
    var h4 := h3 + (t + b);
    assert h4 + (n + n) == (h4 + n) + n;
    assert h3 == h1 + ((e + k) + n);
    assert h4 + n == h3 + ((t + b) + n);
  }

  function Frames(items: seq<Item>): nat {
    if items == [] then 0 else (if items[0].Frame? then 1 else 0) + Frames(items[1..])
  }

  function ItemText(item: Item, sent: int): string {
    match item
    case Ping => PING
    case Frame(kind, body) => FrameText(sent + 1, kind, body)
  }

  lemma RenderFirst(items: seq<Item>, sent: int)
    requires items != []
    ensures Render(items, sent) ==
            ItemText(items[0], sent) + Render(items[1..], if items[0].Frame? then sent + 1 else sent)
  {
  }

  lemma {:induction false} RenderAppend(a: seq<Item>, b: seq<Item>, sent: int)
    ensures Render(a + b, sent) == Render(a, sent) + Render(b, sent + Frames(a))
    ensures Frames(a + b) == Frames(a) + Frames(b)
    decreases |a|
  {
    if a == [] {
      assert a + b == b;
    } else {
      var item, rest := a[0], a[1..];
      assert (a + b)[0] == item && (a + b)[1..] == rest + b;
      RenderAppend(rest, b, if item.Frame? then sent + 1 else sent);
      RenderFirst(a, sent);
      RenderFirst(a + b, sent);
      var sent1 := if item.Frame? then sent + 1 else sent;
      Joined(ItemText(item, sent), Render(rest, sent1), Render(b, sent1 + Frames(rest)));
    }
  }

  /** What the handler's loop is woken by: an event from the hub, with its body if that can
      be encoded, or the heartbeat. */
  datatype Turn = Received(kind: string, body: Option<string>) | Beat

  function ItemsOf(turn: Turn): seq<Item> {
    match turn
    case Received(kind, Some(body)) => [Frame(kind, body)]
    case Received(_, None) => []
    case Beat => [Ping]
  }

  /** The turns as items, without the events that could not be encoded. */
  function Items(turns: seq<Turn>): seq<Item> {
    if turns == [] then [] else ItemsOf(turns[0]) + Items(turns[1..])
  }

  lemma {:induction false} ItemsSnoc(turns: seq<Turn>, turn: Turn)
    ensures Items(turns + [turn]) == Items(turns) + ItemsOf(turn)
    decreases |turns|
  {
    if turns == [] {
      assert turns + [turn] == [turn] && [turn][1..] == [];
    } else {
      assert (turns + [turn])[1..] == turns[1..] + [turn];
      ItemsSnoc(turns[1..], turn);
    }
  }

  lemma TakeOneMore<T>(a: seq<T>, s: seq<T>, k: nat)
    requires k < |s|
    ensures a + s[..k] + [s[k]] == a + s[..k + 1]
  {
  }

  /** The wire after one more turn. */
  lemma NextTurn(done: seq<Turn>, turn: Turn)
    ensures Render(Items(done), 0) + Render(ItemsOf(turn), Frames(Items(done))) == Render(Items(done + [turn]), 0)
    ensures Frames(Items(done)) + Frames(ItemsOf(turn)) == Frames(Items(done + [turn]))
  {
    hide Render, Items, ItemsOf, Frames;
    ItemsSnoc(done, turn);
    RenderAppend(Items(done), ItemsOf(turn), 0);
  }

  /** What a client is to see: the turns whose body could be encoded. */
  function Encoded(turns: seq<Turn>): (e: seq<Turn>)
    ensures forall k :: 0 <= k < |e| ==> e[k].Received? && e[k].body.Some?
  {
    if turns == [] then []
    else (if turns[0].Received? && turns[0].body.Some? then [turns[0]] else []) + Encoded(turns[1..])
  }

  /** Event names are nonempty; neither names nor encoded bodies hold a line break. */
  predicate Sendable(turns: seq<Turn>) {
    forall k :: 0 <= k < |turns| && turns[k].Received? && turns[k].body.Some? ==>
      turns[k].kind != "" && OneLine(turns[k].kind) && OneLine(turns[k].body.value)
  }

  /** One message for each turn that could be encoded, under its name, with its body, and the
      numbers 1, 2, 3 and so on. */
  predicate ReadAs(messages: seq<Message>, turns: seq<Turn>) {
    var e := Encoded(turns);
    |messages| == |e| && forall k :: 0 <= k < |e| ==>
      messages[k].kind == e[k].kind && messages[k].data == e[k].body.value && NumberOf(messages[k].lastId) == k + 1
  }

  /** The handler's end of the connection. */
  class Writer {
    var sequence: int
    var out: string

    constructor ()
      ensures sequence == 0 && out == ""
    {
      sequence, out := 0, "";
    }

    /** writeEvent. A body that cannot be encoded is skipped without using up a number. */
    method WriteEvent(kind: string, body: Option<string>)
      modifies this
      ensures body.None? ==> sequence == old(sequence) && out == old(out)
      ensures body.Some? ==> sequence == old(sequence) + 1 &&
                             out == old(out) + Render([Frame(kind, body.value)], old(sequence))
    {
      match body
      case None =>
      case Some(text) =>
        sequence := sequence + 1;
        var frame := "id: " + Decimal(sequence) + "\nevent: " + kind + "\ndata: " + text + "\n\n";
        FrameAsWritten(sequence, kind, text);
        out := out + frame;
        assert [Frame(kind, text)][1..] == [];
        assert FrameText(sequence, kind, text) + "" == FrameText(sequence, kind, text);
    }

    method WritePing()
      modifies this`out
      ensures out == old(out) + Render([Ping], sequence)
    {
      out := out + PING;
      assert [Ping][1..] == [];
      assert PING + "" == PING;
    }

    /** One turn of the loop. */
    method Take(turn: Turn)
      modifies this
      ensures out == old(out) + Render(ItemsOf(turn), old(sequence))
      ensures sequence == old(sequence) + Frames(ItemsOf(turn))
    {
      match turn
      case Received(kind, body) => WriteEvent(kind, body);
      case Beat => WritePing();
    }

    /** The handler, after it has subscribed: the snapshot, then turns until the client is
        gone or the hub has dropped it. What the wire holds is what the turns are, so the
        client reads exactly those events, numbered from 1 without gaps. */
    method Events(snapshot: Option<string>, turns: seq<Turn>)
      requires sequence == 0 && out == ""
      modifies this
      ensures out == Render(Items([Received("snapshot", snapshot)] + turns), 0)
      ensures sequence == Frames(Items([Received("snapshot", snapshot)] + turns))
      ensures var all := [Received("snapshot", snapshot)] + turns; 
              Sendable(all) ==> ReadAs(Read(out), all) && Comments(Lines(out)) == Beats(all)
    {
      hide ReadAs, Sendable, Read, Comments, Lines, Beats;
      ghost var first := Received("snapshot", snapshot);
      Take(Received("snapshot", snapshot));
      NextTurn([], first);
      ghost var done := [] + [first];
      for k := 0 to |turns|
        invariant done == [first] + turns[..k]
        invariant out == Render(Items(done), 0) && sequence == Frames(Items(done))
      {
        Take(turns[k]);
        NextTurn(done, turns[k]);
        TakeOneMore([first], turns, k);
        done := done + [turns[k]];
      }
      assert turns[..|turns|] == turns;
      if Sendable(done) {
        TurnsAreRead(done);
        BeatsAreWritten(done);
      }
    }
  }

  // ------------------------------------------------------------ the reader

  /** The complete lines of a stream; an unterminated rest is discarded. */
  function Lines(s: string): seq<string>
    decreases |s|
  {
    var i := FirstBreak(s);
    if i == |s| then []
    else if s[i] == '\r' && i + 1 < |s| && s[i + 1] == '\n' then [s[..i]] + Lines(s[i + 2..])
    else [s[..i]] + Lines(s[i + 1..])
  }

  datatype Message = Message(kind: string, data: string, lastId: string)

  datatype Reader = Reader(data: string, kind: string, idBuffer: string, messages: seq<Message>)

  const FRESH := Reader("", "", "", [])

  function Field(r: Reader, name: string, value: string): Reader {
    if name == "event" then r.(kind := value)
    else if name == "data" then r.(data := r.data + value + "\n")
    else if name == "id" then (if '\0' in value then r else r.(idBuffer := value))
    else r
  }

  function Dispatch(r: Reader): Reader {
    if r.data == "" then r.(kind := "")
    else
      var data := if r.data[|r.data| - 1] == '\n' then r.data[..|r.data| - 1] else r.data;
      Reader("", "", r.idBuffer,
             r.messages + [Message(if r.kind == "" then "message" else r.kind, data, r.idBuffer)])
  }

  function OneSpaceOff(value: string): string {
    if value != "" && value[0] == ' ' then value[1..] else value
  }

  function ReadLine(r: Reader, line: string): Reader {
    if line == "" then Dispatch(r)
    else if line[0] == ':' then r
    else
      var i := Find(line, ':');
      if i == |line| then Field(r, line, "")
      else Field(r, line[..i], OneSpaceOff(line[i + 1..]))
  }

  function ReadLines(r: Reader, lines: seq<string>): Reader
    decreases |lines|
  {
    if lines == [] then r else ReadLines(ReadLine(r, lines[0]), lines[1..])
  }

  function WithoutBom(s: string): string {
    if s != "" && s[0] == '\U{FEFF}' then s[1..] else s
  }

  /** The messages a browser dispatches for a stream. */
  function Read(s: string): seq<Message> {
    ReadLines(FRESH, Lines(WithoutBom(s))).messages
  }

  // ------------------------------------------------------------ round trip

  /** The messages the items stand for, numbered on from `sent`. */
  function Intended(items: seq<Item>, sent: int): seq<Message>
    decreases |items|
  {
    if items == [] then []
    else
      match items[0]
      case Ping => Intended(items[1..], sent)
      case Frame(kind, body) => [Message(kind, body, Decimal(sent + 1))] + Intended(items[1..], sent + 1)
  }

  /** Event names are nonempty; neither names nor encoded bodies hold a line break. */
  predicate Writable(items: seq<Item>) {
    forall i :: 0 <= i < |items| && items[i].Frame? ==>
      items[i].kind != "" && OneLine(items[i].kind) && OneLine(items[i].body)
  }

  lemma LinesFirst(a: string, rest: string)
    requires OneLine(a)
    ensures Lines(Terminated(a) + rest) == [a] + Lines(rest)
  {
    var s := a + "\n" + rest;
    FirstBreakAt(a, '\n', rest);
    assert s[..|a|] == a && s[|a| + 1..] == rest;
  }

  lemma Regroup4(a: string, b: string, c: string, d: string, rest: string)
    ensures a + b + c + d + rest == a + (b + (c + (d + rest)))
  {
    var ab := a + b;
    assert (ab + c) + d + rest == (ab + c) + (d + rest);
    assert (ab + c) + (d + rest) == ab + (c + (d + rest));
  }

  lemma ReadField(r: Reader, name: string, value: string)
    requires name != "" && ':' !in name
    ensures ReadLine(r, (name + ": ") + value) == Field(r, name, value)
  {
    var line := name + ": " + value;
    assert line == name + [':'] + (" " + value);
    FindAt(name, ':', " " + value);
    assert line[..|name|] == name && line[|name| + 1..] == " " + value;
    assert line[0] == name[0] && name[0] in name;
    assert (" " + value)[1..] == value;
  }

  lemma FourLines(a: string, b: string, c: string, rest: string)
    requires OneLine(a) && OneLine(b) && OneLine(c)
    ensures Lines(Terminated(a) + Terminated(b) + Terminated(c) + Terminated("") + rest) == [a, b, c, ""] + Lines(rest)
  {
    var r3 := Terminated("") + rest;
    var r2 := Terminated(c) + r3;
    var r1 := Terminated(b) + r2;
    Regroup4(Terminated(a), Terminated(b), Terminated(c), Terminated(""), rest);
    LinesFirst(a, r1);
    LinesFirst(b, r2);
    LinesFirst(c, r3);
    LinesFirst("", rest);
    FourInFront(a, b, c, "", Lines(rest));
  }

  lemma FourInFront(a: string, b: string, c: string, d: string, rest: seq<string>)
    ensures [a] + ([b] + ([c] + ([d] + rest))) == [a, b, c, d] + rest
  {
  }

  lemma ReadFour(r: Reader, a: string, b: string, c: string, d: string, rest: seq<string>)
    ensures ReadLines(r, [a, b, c, d] + rest) ==
            ReadLines(ReadLine(ReadLine(ReadLine(ReadLine(r, a), b), c), d), rest)
  {
    var l3, l2, l1 := [d] + rest, [c] + ([d] + rest), [b] + ([c] + ([d] + rest));
    assert l3[1..] == rest && l2[1..] == l3 && l1[1..] == l2;
    assert [a, b, c, d] + rest == [a] + l1 && ([a] + l1)[1..] == l1;
    var r1 := ReadLine(r, a);
    var r2 := ReadLine(r1, b);
    assert ReadLines(r, [a] + l1) == ReadLines(r1, l1);
    assert ReadLines(r1, l1) == ReadLines(r2, l2);
    assert ReadLines(r2, l2) == ReadLines(ReadLine(r2, c), l3);
  }

  lemma FrameLines(number: int, kind: string, body: string, rest: string)
    requires OneLine(kind) && OneLine(body)
    ensures Lines(FrameText(number, kind, body) + rest) ==
            [IdLine(number), EventLine(kind), DataLine(body), ""] + Lines(rest)
  {
    FourLines(IdLine(number), EventLine(kind), DataLine(body), rest);
  }

  lemma IdAndEventAreRead(r: Reader, number: int, kind: string)
    ensures ReadLine(ReadLine(r, IdLine(number)), EventLine(kind)) == r.(idBuffer := Decimal(number), kind := kind)
  {
    ReadField(r, "id", Decimal(number));
    ReadField(r.(idBuffer := Decimal(number)), "event", kind);
  }

  lemma DataIsDispatched(r: Reader, body: string)
    requires r.data == "" && r.kind != ""
    ensures ReadLine(ReadLine(r, DataLine(body)), "") ==
            Reader("", "", r.idBuffer, r.messages + [Message(r.kind, body, r.idBuffer)])
  {
    ReadField(r, "data", body);
    assert "" + body + "\n" == body + "\n";
    assert (body + "\n")[..|body|] == body;
  }

  lemma FrameIsDispatched(r: Reader, number: int, kind: string, body: string)
    requires r.data == "" && kind != ""
    ensures ReadLine(ReadLine(ReadLine(ReadLine(r, IdLine(number)), EventLine(kind)), DataLine(body)), "")
            == Reader("", "", Decimal(number), r.messages + [Message(kind, body, Decimal(number))])
  {
    IdAndEventAreRead(r, number, kind);
    DataIsDispatched(r.(idBuffer := Decimal(number), kind := kind), body);
  }

  lemma ReadFrame(r: Reader, number: int, kind: string, body: string, rest: string)
    requires r.data == "" && kind != "" && OneLine(kind) && OneLine(body)
    ensures ReadLines(r, Lines(FrameText(number, kind, body) + rest)) ==
            ReadLines(Reader("", "", Decimal(number), r.messages + [Message(kind, body, Decimal(number))]), Lines(rest))
  {
    FrameLines(number, kind, body, rest);
    ReadFour(r, IdLine(number), EventLine(kind), DataLine(body), "", Lines(rest));
    FrameIsDispatched(r, number, kind, body);
  }

  lemma PingIsIgnored(r: Reader, rest: string)
    requires r.data == "" && r.kind == ""
    ensures ReadLines(r, Lines(PING + rest)) == ReadLines(r, Lines(rest))
  {
    assert PING + rest == Terminated(": ping") + (Terminated("") + rest);
    LinesFirst(": ping", Terminated("") + rest);
    LinesFirst("", rest);
    var l := [": ping"] + ([""] + Lines(rest));
    assert l[1..] == [""] + Lines(rest);
    assert ([""] + Lines(rest))[1..] == Lines(rest);
    assert ReadLine(r, ": ping") == r;
    assert Dispatch(r) == r;
  }

  /** The reader after one item, when it is between messages. */
  function AfterItem(r: Reader, item: Item, sent: int): Reader {
    match item
    case Ping => r
    case Frame(kind, body) => Reader("", "", Decimal(sent + 1), r.messages + IntendedOf(item, sent))
  }

  function IntendedOf(item: Item, sent: int): seq<Message> {
    match item
    case Ping => []
    case Frame(kind, body) => [Message(kind, body, Decimal(sent + 1))]
  }

  function SentAfter(item: Item, sent: int): int { if item.Ping? then sent else sent + 1 }

  lemma ReadItem(r: Reader, items: seq<Item>, sent: int)
    requires items != [] && Writable(items) && r.data == "" && r.kind == ""
    ensures ReadLines(r, Lines(Render(items, sent))) ==
            ReadLines(AfterItem(r, items[0], sent), Lines(Render(items[1..], SentAfter(items[0], sent))))
  {
    var rest := Render(items[1..], SentAfter(items[0], sent));
    if items[0].Ping? {
      PingIsIgnored(r, rest);
    } else {
      ReadFrame(r, sent + 1, items[0].kind, items[0].body, rest);
    }
  }

  lemma IntendedFirst(items: seq<Item>, sent: int)
    requires items != []
    ensures Intended(items, sent) == IntendedOf(items[0], sent) + Intended(items[1..], SentAfter(items[0], sent))
  {
  }

  lemma Joined<T>(a: seq<T>, b: seq<T>, c: seq<T>)
    ensures (a + b) + c == a + (b + c)
  {
  }

  lemma AfterItemReady(r: Reader, items: seq<Item>, sent: int)
    requires items != [] && Writable(items) && r.data == "" && r.kind == ""
    ensures var r1 := AfterItem(r, items[0], sent);
            r1.data == "" && r1.kind == "" && r1.messages == r.messages + IntendedOf(items[0], sent)
    ensures Writable(items[1..])
  {
    assert r.messages + [] == r.messages;
  }

  lemma {:induction false} ReadRendered(r: Reader, items: seq<Item>, sent: int)
    requires Writable(items) && r.data == "" && r.kind == ""
    ensures ReadLines(r, Lines(Render(items, sent))).messages == r.messages + Intended(items, sent)
    decreases |items|
  {
    if items == [] {
    } else {
      var r1, rest, sent1 := AfterItem(r, items[0], sent), items[1..], SentAfter(items[0], sent);
      AfterItemReady(r, items, sent);
      ReadItem(r, items, sent);
      IntendedFirst(items, sent);
      ReadRendered(r1, rest, sent1);
      Joined(r.messages, IntendedOf(items[0], sent), Intended(rest, sent1));
    }
  }

  /** Any interleaving of frames and pings is read back as exactly the written events, in
      order, numbered 1, 2, 3, and so on. */
  lemma RoundTrip(items: seq<Item>)
    requires Writable(items)
    ensures Read(Render(items, 0)) == Intended(items, 0)
  {
    NoBom(items, 0);
    assert WithoutBom(Render(items, 0)) == Render(items, 0);
    ReadRendered(FRESH, items, 0);
    assert FRESH.messages + Intended(items, 0) == Intended(items, 0);
  }

  lemma NoBom(items: seq<Item>, sent: int)
    ensures var s := Render(items, sent); s == "" || s[0] == 'i' || s[0] == ':'
  {
    if items != [] && items[0].Frame? {
      assert FrameText(sent + 1, items[0].kind, items[0].body)[0] == "id"[0];
    }
  }

  // ------------------------------------------------------------ the heartbeat

  /** The comment lines of a stream. */
  function Comments(lines: seq<string>): nat
    decreases |lines|
  {
    if lines == [] then 0 else (if lines[0] != "" && lines[0][0] == ':' then 1 else 0) + Comments(lines[1..])
  }

  function Beats(turns: seq<Turn>): nat {
    if turns == [] then 0 else (if turns[0].Beat? then 1 else 0) + Beats(turns[1..])
  }

  function Pings(items: seq<Item>): nat {
    if items == [] then 0 else (if items[0].Ping? then 1 else 0) + Pings(items[1..])
  }

  lemma {:induction false} PingsAreBeats(turns: seq<Turn>)
    ensures Pings(Items(turns)) == Beats(turns)
    decreases |turns|
  {
    if turns != [] {
      PingsAreBeats(turns[1..]);
      var first, rest := ItemsOf(turns[0]), Items(turns[1..]);
      if first == [] {
        assert first + rest == rest;
      } else {
        assert (first + rest)[0] == first[0] && (first + rest)[1..] == rest;
      }
    }
  }

  lemma FrameHasNoComment(number: int, kind: string, body: string, rest: string)
    requires OneLine(kind) && OneLine(body)
    ensures Comments(Lines(FrameText(number, kind, body) + rest)) == Comments(Lines(rest))
  {
    hide Lines, FrameText, Decimal, Comments;
    FrameLines(number, kind, body, rest);
    var a, b, c, l := IdLine(number), EventLine(kind), DataLine(body), Lines(rest);
    assert a[0] == "id"[0] && b[0] == "event"[0] && c[0] == "data"[0];
    NotComment("", l);
    NotComment(c, [""] + l);
    NotComment(b, [c] + ([""] + l));
    NotComment(a, [b] + ([c] + ([""] + l)));
    FourInFront(a, b, c, "", l);
  }

  lemma NotComment(line: string, rest: seq<string>)
    requires line == "" || line[0] != ':'
    ensures Comments([line] + rest) == Comments(rest)
  {
    assert ([line] + rest)[1..] == rest;
  }

  lemma PingIsComment(rest: string)
    ensures Comments(Lines(PING + rest)) == 1 + Comments(Lines(rest))
  {
    hide Lines;
    assert PING + rest == Terminated(": ping") + (Terminated("") + rest);
    LinesFirst(": ping", Terminated("") + rest);
    LinesFirst("", rest);
    var l := Lines(rest);
    assert ([": ping"] + ([""] + l))[1..] == [""] + l && ([""] + l)[1..] == l;
  }

  lemma {:induction false} CommentsAreRead(items: seq<Item>, sent: int)
    requires Writable(items)
    ensures Comments(Lines(Render(items, sent))) == Pings(items)
    decreases |items|
  {
    hide Comments, Lines, FrameText;
    if items == [] {
      NoComments();
    } else {
      var rest := Render(items[1..], SentAfter(items[0], sent));
      CommentsAreRead(items[1..], SentAfter(items[0], sent));
      if items[0].Ping? { PingIsComment(rest); } else { FrameHasNoComment(sent + 1, items[0].kind, items[0].body, rest); }
    }
  }

  lemma NoComments()
    ensures Comments(Lines("")) == 0
  {
  }

  /** One comment on the wire for each beat, so that an idle connection is not dropped. */
  lemma BeatsAreWritten(turns: seq<Turn>)
    requires Sendable(turns)
    ensures Comments(Lines(Render(Items(turns), 0))) == Beats(turns)
  {
    ItemsAreWritable(turns);
    CommentsAreRead(Items(turns), 0);
    PingsAreBeats(turns);
  }

  // ------------------------------------------------------------ what a client reads

  /** What a client reads of the handler's output: one message for each turn that could be
      encoded, in order, with the number that the standard's reader has as its last id. */
  lemma TurnsAreRead(turns: seq<Turn>)
    requires Sendable(turns)
    ensures ReadAs(Read(Render(Items(turns), 0)), turns)
  {
    hide Read, Render;
    ItemsAreWritable(turns);
    RoundTrip(Items(turns));
    IntendedIs(turns, 0);
    forall k | 0 <= k < |Encoded(turns)| ensures NumberOf(Intended(Items(turns), 0)[k].lastId) == k + 1 {
      NumberOfDecimal(k + 1);
    }
  }

  lemma {:induction false} ItemsAreWritable(turns: seq<Turn>)
    requires Sendable(turns)
    ensures Writable(Items(turns))
    decreases |turns|
  {
    if turns != [] {
      assert Sendable(turns[1..]);
      ItemsAreWritable(turns[1..]);
      assert Sendable(turns);
      assert Writable(ItemsOf(turns[0]));
    }
  }

  predicate MessageOf(m: Message, turn: Turn, number: int)
    requires turn.Received? && turn.body.Some?
  {
    m == Message(turn.kind, turn.body.value, Decimal(number))
  }

  function MessagesOf(turn: Turn, sent: int): seq<Message> {
    if turn.Received? && turn.body.Some? then [Message(turn.kind, turn.body.value, Decimal(sent + 1))] else []
  }

  lemma FirstTurn(turns: seq<Turn>, sent: int)
    requires turns != []
    ensures var m := MessagesOf(turns[0], sent);
            Intended(Items(turns), sent) == m + Intended(Items(turns[1..]), sent + |m|)
  {
    var first, rest := ItemsOf(turns[0]), Items(turns[1..]);
    if first == [] {
      assert first + rest == rest && [] + Intended(rest, sent) == Intended(rest, sent);
    } else {
      assert (first + rest)[0] == first[0] && (first + rest)[1..] == rest;
      IntendedFirst(first + rest, sent);
    }
  }

  /** The intended messages are the turns that could be encoded, numbered on from `sent`. */
  lemma {:induction false} IntendedIs(turns: seq<Turn>, sent: int)
    ensures var i, e := Intended(Items(turns), sent), Encoded(turns);
            |i| == |e| && forall k :: 0 <= k < |e| ==> MessageOf(i[k], e[k], sent + k + 1)
    decreases |turns|
  {
    hide ItemsOf, Intended, Decimal;
    if turns == [] {
      NothingIntended(sent);
    } else {
      FirstTurn(turns, sent);
      IntendedIs(turns[1..], sent + |MessagesOf(turns[0], sent)|);
    }
  }

  lemma NothingIntended(sent: int)
    ensures Items([]) == [] && Intended([], sent) == []
  {
  }
}
