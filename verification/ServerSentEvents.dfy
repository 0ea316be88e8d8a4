/**
 The event stream a connection writes (channels/sse.go), read back as sections 9.2.5 and
 9.2.6 of the WHATWG HTML Standard say a client must.
 */
module ServerSentEvents {
  import opened Results

  const CR := '\r'
  const LF := '\n'

  // ----- Reading, by the standard -----

  datatype Event = Event(name: string, data: string)

  /** The buffers of section 9.2.6, and the events dispatched so far. */
  datatype Client = Client(name: string, data: string, id: string, retry: string, events: seq<Event>)

  const NEW_CLIENT := Client("", "", "", "", [])

  /** Where the first line ends. */
  function LineEnd(s: string): (k: nat)
    ensures k <= |s| && (forall i :: 0 <= i < k ==> s[i] != CR && s[i] != LF) && (k < |s| ==> s[k] == CR || s[k] == LF)
  {
    if s == [] || s[0] == CR || s[0] == LF then 0 else 1 + LineEnd(s[1..])
  }

  /** The lines of a stream; a last line that is not ended is pending, and discarded. */
  function Lines(s: string): seq<string>
    decreases |s|
  {
    var k := LineEnd(s);
    if k == |s| then []
    else if s[k] == CR && k + 1 < |s| && s[k + 1] == LF then [s[..k]] + Lines(s[k + 2..])
    else [s[..k]] + Lines(s[k + 1..])
  }

  function ColonAt(line: string): (k: nat)
    ensures k <= |line| && (forall i :: 0 <= i < k ==> line[i] != ':') && (k < |line| ==> line[k] == ':')
  {
    if line == [] || line[0] == ':' then 0 else 1 + ColonAt(line[1..])
  }

  function Dispatch(c: Client): Client {
    if c.data == "" then c.(name := "", data := "")
    else
      var data := if c.data[|c.data| - 1] == LF then c.data[..|c.data| - 1] else c.data;
      c.(name := "", data := "", events := c.events + [Event(if c.name == "" then "message" else c.name, data)])
  }

  function Field(c: Client, field: string, value: string): Client {
    if field == "event" then c.(name := value)
    else if field == "data" then c.(data := c.data + value + [LF])
    else if field == "id" then (if '\0' in value then c else c.(id := value))
    else if field == "retry" then (if forall d <- value :: '0' <= d <= '9' then c.(retry := value) else c)
    else c
  }

  function ReadLine(c: Client, line: string): Client {
    if line == "" then Dispatch(c)
    else
      var k := ColonAt(line);
      if k == 0 then c
      else if k == |line| then Field(c, line, "")
      else
        var value := line[k + 1..];
        Field(c, line[..k], if value != "" && value[0] == ' ' then value[1..] else value)
  }

  function ReadLines(c: Client, lines: seq<string>): Client
    decreases |lines|
  {
    if lines == [] then c else ReadLines(ReadLine(c, lines[0]), lines[1..])
  }

  /** The events a client makes of a stream. */
  function Received(stream: string): seq<Event> {
    ReadLines(NEW_CLIENT, Lines(stream)).events
  }

  // ----- Writing -----

  /** bytes.Split at newlines. */
  function Split(data: string): (r: seq<string>)
    ensures r != []
  {
    if data == "" then [""]
    else
      var rest := Split(data[1..]);
      if data[0] == LF then [""] + rest else [[data[0]] + rest[0]] + rest[1..]
  }

  function DataLines(lines: seq<string>): string {
    if lines == [] then "" else "data: " + lines[0] + [LF] + DataLines(lines[1..])
  }

  function EventFrame(name: string, data: string): string {
    "event: " + name + [LF] + DataLines(Split(data)) + [LF]
  }

  const HEARTBEAT := ": ping\n\n"

  class Writer {
    var out: string

    /** writeSSEEvent, when no write fails. */
    method WriteEvent(name: string, data: string)
      modifies this
      ensures out == old(out) + EventFrame(name, data)
    {
      var lines := Split(data);
      ghost var before := out;
      out := out + ("event: " + name + [LF]);
      ghost var head := out;
      assert lines[0..] == lines;
      for i := 0 to |lines|
        invariant out + DataLines(lines[i..]) == head + DataLines(lines)
      {
        assert lines[i..][0] == lines[i] && lines[i..][1..] == lines[i + 1..];
        ghost var was := out;
        out := out + ("data: " + lines[i] + [LF]);
        assert was + ("data: " + lines[i] + [LF] + DataLines(lines[i + 1..])) == out + DataLines(lines[i + 1..]);
      }
      assert lines[|lines|..] == [] && out + "" == out;
      out := out + [LF];
    }

    /** writeSSEComment for the heartbeat. */
    method WriteHeartbeat()
      modifies this
      ensures out == old(out) + HEARTBEAT
    {
      out := out + HEARTBEAT;
    }
  }

  datatype Item = Message(name: string, data: string) | Heartbeat

  function Frame(item: Item): string {
    match item case Message(n, d) => EventFrame(n, d) case Heartbeat => HEARTBEAT
  }

  function Stream(items: seq<Item>): string {
    if items == [] then "" else Frame(items[0]) + Stream(items[1..])
  }

  function Messages(items: seq<Item>): seq<Event> {
    if items == [] then []
    else (match items[0] case Message(n, d) => [Event(n, d)] case Heartbeat => []) + Messages(items[1..])
  }

  // ----- The round trip -----

  predicate OneLine(s: string) {
    CR !in s && LF !in s
  }

  lemma {:induction false} LineEndAt(line: string, rest: string)
    requires OneLine(line)
    ensures LineEnd(line + [LF] + rest) == |line|
  {
    var s := line + [LF] + rest;
    if line != "" {
      assert s[1..] == line[1..] + [LF] + rest;
      LineEndAt(line[1..], rest);
    }
  }

  lemma LinesCons(line: string, rest: string)
    requires OneLine(line)
    ensures Lines(line + [LF] + rest) == [line] + Lines(rest)
  {
    var s := line + [LF] + rest;
    LineEndAt(line, rest);
    assert s[..|line|] == line && s[|line| + 1..] == rest;
  }

  lemma {:induction false} LinesOfData(parts: seq<string>, rest: string)
    requires forall p <- parts :: OneLine(p)
    ensures Lines(DataLines(parts) + rest) == DataTexts(parts) + Lines(rest)
    decreases |parts|
  {
    if parts == [] {
      assert DataLines(parts) + rest == rest;
    } else {
      var line, more := "data: " + parts[0], DataLines(parts[1..]) + rest;
      assert DataLines(parts) + rest == line + [LF] + more;
      assert parts[0] in parts && forall p <- parts[1..] :: p in parts;
      LinesCons(line, more);
      LinesOfData(parts[1..], rest);
    }
  }

  function DataTexts(parts: seq<string>): seq<string> {
    if parts == [] then [] else ["data: " + parts[0]] + DataTexts(parts[1..])
  }

  /** The parts with a newline after each. */
  function Ended(parts: seq<string>): string {
    if parts == [] then "" else parts[0] + [LF] + Ended(parts[1..])
  }

  lemma {:induction false} SplitEnded(data: string)
    ensures Ended(Split(data)) == data + [LF]
  {
    if data != "" {
      SplitEnded(data[1..]);
      var rest := Split(data[1..]);
      assert data == [data[0]] + data[1..];
      if data[0] == LF {
        assert ([""] + rest)[1..] == rest;
        assert Ended([""] + rest) == "" + [LF] + Ended(rest);
      } else {
        assert ([[data[0]] + rest[0]] + rest[1..])[1..] == rest[1..];
        assert Ended(rest) == rest[0] + [LF] + Ended(rest[1..]);
        assert Ended(Split(data)) == [data[0]] + rest[0] + [LF] + Ended(rest[1..]);
        assert Ended(Split(data)) == [data[0]] + Ended(rest);
      }
    }
  }

  lemma {:induction false} SplitOneLine(data: string)
    requires CR !in data
    ensures forall p <- Split(data) :: OneLine(p)
  {
    if data != "" {
      assert forall x <- data[1..] :: x in data;
      SplitOneLine(data[1..]);
      var rest := Split(data[1..]);
      assert rest[0] in rest && data[0] in data;
      forall p | p in Split(data)
        ensures OneLine(p)
      {
        if data[0] == LF {
          assert p == "" || p in rest;
        } else {
          assert p == [data[0]] + rest[0] || p in rest[1..];
          assert p in rest[1..] ==> p in rest;
        }
      }
    }
  }

  lemma ReadField(c: Client, field: string, value: string)
    requires field != "" && ':' !in field
    ensures ReadLine(c, field + ": " + value) == Field(c, field, value)
  {
    var line := field + ": " + value;
    ColonAfter(field, " " + value);
    assert line == field + ":" + (" " + value);
    assert line[..|field|] == field && line[|field| + 1..] == " " + value;
    assert (" " + value)[1..] == value;
  }

  lemma {:induction false} ColonAfter(field: string, rest: string)
    requires ':' !in field
    ensures ColonAt(field + ":" + rest) == |field|
  {
    var line := field + ":" + rest;
    if field != "" {
      assert line[1..] == field[1..] + ":" + rest;
      ColonAfter(field[1..], rest);
    }
  }

  lemma {:induction false} ReadData(c: Client, parts: seq<string>, more: seq<string>)
    ensures ReadLines(c, DataTexts(parts) + more) == ReadLines(c.(data := c.data + Ended(parts)), more)
    decreases |parts|
  {
    hide ReadLine;
    if parts == [] {
      assert DataTexts(parts) + more == more;
      assert c.data + "" == c.data;
    } else {
      var lines := DataTexts(parts) + more;
      assert lines[0] == "data: " + parts[0] && lines[1..] == DataTexts(parts[1..]) + more;
      ReadField(c, "data", parts[0]);
      assert "data" + ": " + parts[0] == "data: " + parts[0];
      var d := c.(data := c.data + parts[0] + [LF]);
      assert Field(c, "data", parts[0]) == d;
      ReadData(d, parts[1..], more);
      assert d.data + Ended(parts[1..]) == c.data + Ended(parts);
    }
  }

  predicate Writable(item: Item) {
    item.Message? ==> item.name != "" && OneLine(item.name) && CR !in item.data
  }

  /** One frame, read by a client with nothing pending, is one event. */
  lemma FrameReceived(c: Client, name: string, data: string, rest: string)
    requires c.name == "" && c.data == "" && Writable(Message(name, data))
    ensures ReadLines(c, Lines(EventFrame(name, data) + rest)) == ReadLines(c.(events := c.events + [Event(name, data)]), Lines(rest))
  {
    hide ReadLine, Lines;
    var parts := Split(data);
    SplitOneLine(data);
    var body := DataLines(parts) + ("" + [LF] + rest);
    assert EventFrame(name, data) + rest == "event: " + name + [LF] + body;
    LinesCons("event: " + name, body);
    LinesOfData(parts, "" + [LF] + rest);
    LinesCons("", rest);
    var lines := ["event: " + name] + (DataTexts(parts) + ([""] + Lines(rest)));
    assert Lines(EventFrame(name, data) + rest) == lines;
    assert "event" + ": " + name == "event: " + name;
    ReadField(c, "event", name);
    var named := c.(name := name);
    assert lines[1..] == DataTexts(parts) + ([""] + Lines(rest));
    ReadData(named, parts, [""] + Lines(rest));
    SplitEnded(data);
    var full := named.(data := data + [LF]);
    assert named.data + Ended(parts) == full.data;
    EmptyLineDispatches(full);
    assert full.data[..|full.data| - 1] == data;
    assert ([""] + Lines(rest))[1..] == Lines(rest);
  }

  lemma EmptyLineDispatches(c: Client)
    ensures ReadLine(c, "") == Dispatch(c)
  {
  }

  /** A heartbeat changes nothing for a client with nothing pending. */
  lemma HeartbeatIgnored(c: Client, rest: string)
    requires c.name == "" && c.data == ""
    ensures ReadLines(c, Lines(HEARTBEAT + rest)) == ReadLines(c, Lines(rest))
  {
    hide Lines;
    LinesCons(": ping", "" + [LF] + rest);
    LinesCons("", rest);
    assert HEARTBEAT + rest == ": ping" + [LF] + ("" + [LF] + rest);
    var lines := [": ping"] + ([""] + Lines(rest));
    assert lines[1..] == [""] + Lines(rest) && lines[1..][1..] == Lines(rest);
    assert ReadLine(c, ": ping") == c && ReadLine(c, "") == c;
  }

  lemma {:induction false} StreamReceived(c: Client, items: seq<Item>)
    requires c.name == "" && c.data == "" && forall item <- items :: Writable(item)
    ensures ReadLines(c, Lines(Stream(items))) == c.(events := c.events + Messages(items))
    decreases |items|
  {
    hide ReadLine, ReadLines, Lines, Frame;
    if items == [] {
      NothingReceived(c);
      assert c.events + [] == c.events;
    } else {
      assert items[0] in items && forall item <- items[1..] :: item in items;
      var rest := Stream(items[1..]);
      FirstReceived(c, items[0], rest);
      var first := FirstMessage(items[0]);
      MessagesCons(items);
      hide Messages, FirstMessage;
      StreamReceived(c.(events := c.events + first), items[1..]);
      SeqAssociates(c.events, first, Messages(items[1..]));
    }
  }

  function FirstMessage(item: Item): seq<Event> {
    if item.Message? then [Event(item.name, item.data)] else []
  }

  lemma MessagesCons(items: seq<Item>)
    requires items != []
    ensures Messages(items) == FirstMessage(items[0]) + Messages(items[1..])
  {
  }

  lemma NothingReceived(c: Client)
    ensures ReadLines(c, Lines("")) == c
  {
  }

  lemma FirstReceived(c: Client, item: Item, rest: string)
    requires c.name == "" && c.data == "" && Writable(item)
    ensures ReadLines(c, Lines(Frame(item) + rest))
            == ReadLines(c.(events := c.events + FirstMessage(item)), Lines(rest))
  {
    assert c.events + [] == c.events;
    match item
    case Message(n, d) => FrameReceived(c, n, d, rest);
    case Heartbeat => HeartbeatIgnored(c, rest);
  }

  // ----- What can never be received -----

  ghost predicate Plain(e: Event) {
    e.name != "" && OneLine(e.name) && CR !in e.data
  }

  ghost predicate Tidy(c: Client) {
    OneLine(c.name) && CR !in c.data && forall e <- c.events :: Plain(e)
  }

  lemma {:induction false} LinesAreLines(s: string)
    ensures forall line <- Lines(s) :: OneLine(line)
    decreases |s|
  {
    var k := LineEnd(s);
    if k < |s| {
      if s[k] == CR && k + 1 < |s| && s[k + 1] == LF { LinesAreLines(s[k + 2..]); } else { LinesAreLines(s[k + 1..]); }
      assert OneLine(s[..k]);
    }
  }

  lemma ReadTidy(c: Client, line: string)
    requires Tidy(c) && OneLine(line)
    ensures Tidy(ReadLine(c, line))
  {
    if line == "" {
      assert forall i :: 0 <= i < |c.data| ==> c.data[i] in c.data;
    } else {
      assert forall i :: 0 <= i < |line| ==> line[i] in line;
    }
  }

  lemma {:induction false} ReadAllTidy(c: Client, lines: seq<string>)
    requires Tidy(c) && forall line <- lines :: OneLine(line)
    ensures Tidy(ReadLines(c, lines))
    decreases |lines|
  {
    hide ReadLine, Tidy;
    if lines != [] {
      assert lines[0] in lines && forall line <- lines[1..] :: line in lines;
      ReadTidy(c, lines[0]);
      ReadAllTidy(ReadLine(c, lines[0]), lines[1..]);
    }
  }

  lemma {:induction false} MessagesIn(items: seq<Item>, item: Item)
    requires item in items && item.Message?
    ensures Event(item.name, item.data) in Messages(items)
    decreases |items|
  {
    if items[0] != item {
      MessagesIn(items[1..], item);
    }
  }

  /**
   A client receives exactly the messages written, whatever heartbeats are among them, if
   and only if every name is a nonempty single line and no payload contains a carriage return.
   */
  lemma StreamRoundTrip(items: seq<Item>)
    ensures Received(Stream(items)) == Messages(items) <==> forall item <- items :: Writable(item)
  {
    hide ReadLines, Lines;
    if forall item <- items :: Writable(item) {
      StreamReceived(NEW_CLIENT, items);
      assert [] + Messages(items) == Messages(items);
    }
    if Received(Stream(items)) == Messages(items) {
      LinesAreLines(Stream(items));
      ReadAllTidy(NEW_CLIENT, Lines(Stream(items)));
      forall item | item in items
        ensures Writable(item)
      {
        if item.Message? {
          MessagesIn(items, item);
          assert Plain(Event(item.name, item.data));
        }
      }
    }
  }
}
