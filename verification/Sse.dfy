/**
  Server-sent event frames: what the writer emits, read back by the parsing rules of sections 9.2.5 and 9.2.6 of
  the WHATWG HTML Standard.
 */
module Sse {
  import opened Events
  import Text

  const LF := '\n'
  const CR := '\r'

  /** What a client receives: the event type, the data, and the last event id at that point. */
  datatype Received = Received(kind: string, data: string, lastId: string)

  function Decimal(n: nat): (s: string)
    ensures s != "" && forall i :: 0 <= i < |s| ==> '0' <= s[i] <= '9'
  {
    var digit := [('0' as int + n % 10) as char];
    if n < 10 then digit else Decimal(n / 10) + digit
  }

  /** The number that decimal digits write. */
  function NumberOf(digits: string): int {
    if digits == "" then 0
    else NumberOf(digits[..|digits| - 1]) * 10 + (digits[|digits| - 1] as int - '0' as int)
  }

  /** An id reads back as the number it was, and has no leading zero. */
  lemma {:induction false} DecimalReadsBack(n: nat)
    ensures NumberOf(Decimal(n)) == n && (|Decimal(n)| > 1 ==> Decimal(n)[0] != '0')
  {
    var s := Decimal(n);
    if n >= 10 {
      DecimalReadsBack(n / 10);
      assert s[..|s| - 1] == Decimal(n / 10);
    } else {
      assert s[..0] == "";
    }
  }

  // ---------------------------------------------------------------- writing

  function DataLines(parts: seq<string>): seq<string> {
    if parts == [] then [] else ["data: " + parts[0]] + DataLines(parts[1..])
  }

  /** Every line with its line feed. */
  function Lines(lines: seq<string>): string {
    if lines == [] then "" else lines[0] + [LF] + Lines(lines[1..])
  }

  function Frames(events: seq<Event>): string {
    if events == [] then "" else Lines(FrameLines(events[0])) + Frames(events[1..])
  }

  lemma {:induction false} LinesConcat(a: seq<string>, b: seq<string>)
    ensures Lines(a + b) == Lines(a) + Lines(b)
  {
    if a == [] {
      assert a + b == b;
    } else {
      assert (a + b)[1..] == a[1..] + b;
      LinesConcat(a[1..], b);
    }
  }

  lemma {:induction false} DataLinesNext(parts: seq<string>, i: nat)
    requires i < |parts|
    ensures DataLines(parts[..i + 1]) == DataLines(parts[..i]) + ["data: " + parts[i]]
  {
    if i > 0 {
      DataLinesNext(parts[1..], i - 1);
      FrontOfRest(parts, i + 1);
      FrontOfRest(parts, i);
    }
  }

  lemma FrontOfRest(parts: seq<string>, i: nat)
    requires 1 <= i <= |parts|
    ensures parts[1..][..i - 1] == parts[..i][1..]
  {
  }

  /** Writes a line and its line feed behind the lines written before. */
  method Emit(out: string, ghost w: string, ghost lines: seq<string>, line: string) returns (out': string)
    requires out == w + Lines(lines)
    ensures out' == w + Lines(lines + [line])
  {
    OneMore(w, lines, line);
    out' := out + line + [LF];
  }

  method EmitData(out: string, ghost w: string, ghost lines: seq<string>, parts: seq<string>) returns (out': string)
    requires out == w + Lines(lines)
    ensures out' == w + Lines(lines + DataLines(parts))
  {
    out' := out;
    assert lines + [] == lines;
    for i := 0 to |parts|
      invariant out' == w + Lines(lines + DataLines(parts[..i]))
    {
      DataLinesNext(parts, i);
      assert lines + DataLines(parts[..i]) + ["data: " + parts[i]] == lines + DataLines(parts[..i + 1]);
      out' := Emit(out', w, lines + DataLines(parts[..i]), "data: " + parts[i]);
    }
    assert parts[..|parts|] == parts;
  }

  function Head(evt: Event): seq<string> {
    (if evt.id > 0 then ["id: " + Decimal(evt.id)] else []) + if evt.kind != "" then ["event: " + evt.kind] else []
  }

  method EmitHead(w: string, evt: Event) returns (out: string)
    ensures out == w + Lines(Head(evt))
  {
    out := w;
    assert w + Lines([]) == w;
    if evt.id > 0 {
      out := Emit(out, w, [], "id: " + Decimal(evt.id));
      assert [] + ["id: " + Decimal(evt.id)] == ["id: " + Decimal(evt.id)];
    }
    if evt.kind != "" {
      out := Emit(out, w, if evt.id > 0 then ["id: " + Decimal(evt.id)] else [], "event: " + evt.kind);
    } else {
      assert (if evt.id > 0 then ["id: " + Decimal(evt.id)] else []) + [] == Head(evt);
    }
  }

  function Body(evt: Event): seq<string> {
    if evt.data != "" then DataLines(Text.Split(evt.data, LF)) else ["data:"]
  }

  function FrameLines(evt: Event): seq<string> {
    Head(evt) + Body(evt) + [""]
  }

  /** Writes one frame to the end of what was written before. */
  method WriteEventFrame(w: string, evt: Event) returns (out: string)
    ensures out == w + Lines(FrameLines(evt))
  {
    out := EmitHead(w, evt);
    if evt.data != "" {
      out := EmitData(out, w, Head(evt), Text.Split(evt.data, LF));
    } else {
      out := Emit(out, w, Head(evt), "data:");
    }
    out := Emit(out, w, Head(evt) + Body(evt), "");
  }

  lemma OneMore(w: string, lines: seq<string>, line: string)
    ensures w + Lines(lines + [line]) == w + Lines(lines) + line + [LF]
  {
    LinesConcat(lines, [line]);
    assert Lines([line]) == line + [LF] by { assert [line][1..] == []; }
  }

  // ---------------------------------------------------------------- parsing

  /** The buffers of a client and the events it dispatched. */
  datatype Client = Client(kind: string, data: string, lastId: string, events: seq<Received>)

  const NEW_CLIENT := Client("", "", "", [])

  function Dispatch(c: Client): Client {
    if c.data == "" then c.(kind := "")
    else
      var data := if c.data[|c.data| - 1] == LF then c.data[..|c.data| - 1] else c.data;
      Client("", "", c.lastId, c.events + [Received(if c.kind == "" then "message" else c.kind, data, c.lastId)])
  }

  function Field(c: Client, name: string, value: string): Client {
    if name == "event" then c.(kind := value)
    else if name == "data" then c.(data := c.data + value + [LF])
    else if name == "id" then if '\0' in value then c else c.(lastId := value)
    else c
  }

  function Unspaced(value: string): string {
    if value != "" && value[0] == ' ' then value[1..] else value
  }

  /** One line: blank dispatches, a leading colon is a comment, otherwise it is a field. */
  function Process(c: Client, line: string): Client {
    var i := Text.First(line, ':');
    if line == "" then Dispatch(c)
    else if i == 0 then c
    else if i < |line| then Field(c, line[..i], Unspaced(line[i + 1..]))
    else Field(c, line, "")
  }

  /** The end of the first line: a carriage return, a line feed, or both. */
  function LineEnd(text: string): (i: nat)
    ensures i <= |text| && CR !in text[..i] && LF !in text[..i] && (i < |text| ==> text[i] == CR || text[i] == LF)
  {
    if text == "" || text[0] == CR || text[0] == LF then 0 else 1 + LineEnd(text[1..])
  }

  function AfterLine(text: string, i: nat): string
    requires i < |text|
  {
    if text[i] == CR && i + 1 < |text| && text[i + 1] == LF then text[i + 2..] else text[i + 1..]
  }

  /** Reads line by line; what is not ended by a blank line is discarded at the end. */
  function Parse(c: Client, text: string): Client
    decreases |text|
  {
    var i := LineEnd(text);
    if i == |text| then c else Parse(Process(c, text[..i]), AfterLine(text, i))
  }

  function ProcessAll(c: Client, lines: seq<string>): Client
    decreases |lines|
  {
    if lines == [] then c else ProcessAll(Process(c, lines[0]), lines[1..])
  }

  predicate OneLine(s: string) {
    CR !in s && LF !in s
  }

  lemma LineEndAt(line: string, rest: string)
    requires OneLine(line)
    ensures LineEnd(line + [LF] + rest) == |line|
  {
    var text := line + [LF] + rest;
    assert text[|line|] == LF && text[..|line|] == line;
    assert forall k :: 0 <= k < |line| ==> text[k] in line;
    assert forall k :: 0 <= k < LineEnd(text) ==> text[k] in text[..LineEnd(text)];
  }

  lemma {:induction false} ParseLines(c: Client, lines: seq<string>, rest: string)
    requires forall i :: 0 <= i < |lines| ==> OneLine(lines[i])
    ensures Parse(c, Lines(lines) + rest) == Parse(ProcessAll(c, lines), rest)
    decreases |lines|
  {
    if lines == [] {
      assert Lines(lines) + rest == rest;
    } else {
      var line, more := lines[0], Lines(lines[1..]) + rest;
      assert Lines(lines) + rest == line + [LF] + more;
      LineEndAt(line, more);
      assert (line + [LF] + more)[..|line|] == line && (line + [LF] + more)[|line| + 1..] == more;
      ParseLines(Process(c, line), lines[1..], rest);
    }
  }

  // ---------------------------------------------------------------- one frame

  lemma NamedField(c: Client, name: string, value: string)
    requires name != "" && ':' !in name
    ensures Process(c, name + ": " + value) == Field(c, name, value)
  {
    var line := name + ": " + value;
    assert line == name + [':'] + (" " + value);
    Text.FirstAt(name, ':', " " + value);
    assert line[..|name|] == name && line[|name| + 1..] == " " + value;
  }

  lemma {:induction false} ProcessAllConcat(c: Client, a: seq<string>, b: seq<string>)
    ensures ProcessAll(c, a + b) == ProcessAll(ProcessAll(c, a), b)
    decreases |a|
  {
    if a == [] {
      assert a + b == b;
    } else {
      assert (a + b)[1..] == a[1..] + b && (a + b)[0] == a[0];
      ProcessAllConcat(Process(c, a[0]), a[1..], b);
    }
  }

  lemma ProcessFirst(c: Client, line: string, rest: seq<string>)
    ensures ProcessAll(c, [line] + rest) == ProcessAll(Process(c, line), rest)
  {
    assert ([line] + rest)[1..] == rest;
  }

  lemma DataField(c: Client, part: string)
    ensures Process(c, "data: " + part) == c.(data := c.data + part + [LF])
  {
    NamedField(c, "data", part);
    assert "data" + ": " + part == "data: " + part;
  }

  lemma LinesFirst(before: string, parts: seq<string>)
    requires parts != []
    ensures before + parts[0] + [LF] + Lines(parts[1..]) == before + Lines(parts)
  {
  }

  lemma {:induction false} ProcessData(c: Client, parts: seq<string>)
    ensures ProcessAll(c, DataLines(parts)) == c.(data := c.data + Lines(parts))
    decreases |parts|
  {
    if parts == [] {
      assert c.data + "" == c.data;
    } else {
      var next := c.(data := c.data + parts[0] + [LF]);
      DataField(c, parts[0]);
      ProcessFirst(c, "data: " + parts[0], DataLines(parts[1..]));
      ProcessData(next, parts[1..]);
      LinesFirst(c.data, parts);
    }
  }

  lemma {:induction false} LinesIsJoin(parts: seq<string>)
    requires parts != []
    ensures Lines(parts) == Text.Join(parts, LF) + [LF]
    decreases |parts|
  {
    if |parts| > 1 {
      LinesIsJoin(parts[1..]);
    } else {
      assert parts[1..] == [];
    }
  }

  function IdAfter(evt: Event, lastId: string): string {
    if evt.id > 0 then Decimal(evt.id) else lastId
  }

  /** What a client should receive for an event: an unnamed one is a message, one without id keeps the last id. */
  function Expected(evt: Event, lastId: string): Received {
    Received(if evt.kind == "" then "message" else evt.kind, evt.data, IdAfter(evt, lastId))
  }

  function ExpectedAll(events: seq<Event>, lastId: string): (r: seq<Received>)
    ensures |r| == |events|
    decreases |events|
  {
    if events == [] then [] else [Expected(events[0], lastId)] + ExpectedAll(events[1..], IdAfter(events[0], lastId))
  }

  lemma ProcessId(c: Client, evt: Event)
    ensures Process(c, "id: " + Decimal(evt.id)) == c.(lastId := Decimal(evt.id))
  {
    NamedField(c, "id", Decimal(evt.id));
    assert "id" + ": " + Decimal(evt.id) == "id: " + Decimal(evt.id);
  }

  lemma ProcessKind(c: Client, evt: Event)
    ensures Process(c, "event: " + evt.kind) == c.(kind := evt.kind)
  {
    NamedField(c, "event", evt.kind);
    assert "event" + ": " + evt.kind == "event: " + evt.kind;
  }

  lemma ProcessOne(c: Client, line: string)
    ensures ProcessAll(c, [line]) == Process(c, line)
  {
    assert [line][1..] == [];
  }

  lemma ProcessHead(c: Client, evt: Event)
    requires c.kind == ""
    ensures ProcessAll(c, Head(evt)) == c.(kind := evt.kind, lastId := IdAfter(evt, c.lastId))
  {
    var first := if evt.id > 0 then ["id: " + Decimal(evt.id)] else [];
    var second := if evt.kind != "" then ["event: " + evt.kind] else [];
    ProcessAllConcat(c, first, second);
    var next := c.(lastId := IdAfter(evt, c.lastId));
    assert ProcessAll(c, first) == next by {
      ProcessId(c, evt);
      ProcessOne(c, "id: " + Decimal(evt.id));
    }
    ProcessKind(next, evt);
    ProcessOne(next, "event: " + evt.kind);
  }

  lemma ProcessBody(c: Client, evt: Event)
    requires c.data == ""
    ensures ProcessAll(c, Body(evt)) == c.(data := evt.data + [LF])
  {
    if evt.data != "" {
      ProcessData(c, Text.Split(evt.data, LF));
      LinesIsJoin(Text.Split(evt.data, LF));
      Text.JoinSplit(evt.data, LF);
      assert "" + Lines(Text.Split(evt.data, LF)) == evt.data + [LF];
    } else {
      ProcessOne(c, "data:");
      EmptyData(c);
    }
  }

  lemma EmptyData(c: Client)
    ensures Process(c, "data:") == c.(data := c.data + [LF])
  {
    Text.FirstAt("data", ':', "");
    assert "data" + [':'] + "" == "data:";
    assert "data:"[..4] == "data" && "data:"[5..] == "";
    assert c.data + "" + [LF] == c.data + [LF];
  }

  /** A client with empty buffers dispatches exactly the event of a frame, whatever its content. */
  lemma ProcessFrame(c: Client, evt: Event)
    requires c.kind == "" && c.data == ""
    ensures ProcessAll(c, FrameLines(evt)) ==
      Client("", "", IdAfter(evt, c.lastId), c.events + [Expected(evt, c.lastId)])
  {
    ProcessAllConcat(c, Head(evt) + Body(evt), [""]);
    ProcessAllConcat(c, Head(evt), Body(evt));
    ProcessHead(c, evt);
    var named := c.(kind := evt.kind, lastId := IdAfter(evt, c.lastId));
    ProcessBody(named, evt);
    var filled := named.(data := evt.data + [LF]);
    ProcessOne(filled, "");
    assert (evt.data + [LF])[..|evt.data|] == evt.data;
  }

  // ---------------------------------------------------------------- any concatenation of frames

  /** The type is one line and the data has no carriage return. */
  predicate Writable(evt: Event) {
    OneLine(evt.kind) && CR !in evt.data
  }

  lemma {:induction false} DataLinesAt(parts: seq<string>, i: nat)
    requires i < |DataLines(parts)|
    ensures |DataLines(parts)| == |parts| && DataLines(parts)[i] == "data: " + parts[i]
  {
    if i > 0 {
      DataLinesAt(parts[1..], i - 1);
    } else if |parts| > 1 {
      DataLinesAt(parts[1..], 0);
    }
  }

  lemma FrameIsLines(evt: Event)
    requires Writable(evt)
    ensures forall i :: 0 <= i < |FrameLines(evt)| ==> OneLine(FrameLines(evt)[i])
  {
    forall i | 0 <= i < |Body(evt)| ensures OneLine(Body(evt)[i]) {
      if evt.data != "" {
        var parts := Text.Split(evt.data, LF);
        DataLinesAt(parts, i);
        Text.JoinSplit(evt.data, LF);
        Text.SplitWithout(evt.data, LF, CR);
      }
    }
    forall i | 0 <= i < |Head(evt)| ensures OneLine(Head(evt)[i]) {}
  }

  lemma ParseFrame(c: Client, evt: Event, rest: string)
    requires c.kind == "" && c.data == "" && Writable(evt)
    ensures Parse(c, Lines(FrameLines(evt)) + rest) ==
      Parse(Client("", "", IdAfter(evt, c.lastId), c.events + [Expected(evt, c.lastId)]), rest)
  {
    FrameIsLines(evt);
    ParseLines(c, FrameLines(evt), rest);
    ProcessFrame(c, evt);
  }

  lemma {:induction false} ParseFrames(c: Client, events: seq<Event>)
    requires c.kind == "" && c.data == "" && forall i :: 0 <= i < |events| ==> Writable(events[i])
    ensures Parse(c, Frames(events)).events == c.events + ExpectedAll(events, c.lastId)
    decreases |events|
  {
    if events == [] {
      NothingToParse(c);
      assert c.events + [] == c.events;
    } else {
      var evt, rest := events[0], events[1..];
      var next := Client("", "", IdAfter(evt, c.lastId), c.events + [Expected(evt, c.lastId)]);
      ParseFirst(c, events, next);
      ParseFrames(next, rest);
      ExpectedFirst(c.events, events, c.lastId);
    }
  }

  lemma ParseFirst(c: Client, events: seq<Event>, next: Client)
    requires c.kind == "" && c.data == "" && events != [] && Writable(events[0])
    requires next == Client("", "", IdAfter(events[0], c.lastId), c.events + [Expected(events[0], c.lastId)])
    ensures Parse(c, Frames(events)) == Parse(next, Frames(events[1..]))
  {
    ParseFrame(c, events[0], Frames(events[1..]));
  }

  lemma ExpectedFirst(before: seq<Received>, events: seq<Event>, lastId: string)
    requires events != []
    ensures before + [Expected(events[0], lastId)] + ExpectedAll(events[1..], IdAfter(events[0], lastId))
         == before + ExpectedAll(events, lastId)
  {
  }

  lemma NothingToParse(c: Client)
    ensures Parse(c, "") == c
  {
  }

  // ---------------------------------------------------------------- what a client can receive at all

  ghost predicate Receivable(r: Received) {
    OneLine(r.kind) && CR !in r.data
  }

  ghost predicate Possible(c: Client) {
    OneLine(c.kind) && CR !in c.data && forall i :: 0 <= i < |c.events| ==> Receivable(c.events[i])
  }

  lemma FieldPossible(c: Client, name: string, value: string)
    requires Possible(c) && OneLine(value)
    ensures Possible(Field(c, name, value))
  {
  }

  lemma DispatchPossible(c: Client)
    requires Possible(c)
    ensures Possible(Dispatch(c))
  {
  }

  lemma ProcessPossible(c: Client, line: string)
    requires Possible(c) && OneLine(line)
    ensures Possible(Process(c, line))
  {
    var i := Text.First(line, ':');
    DispatchPossible(c);
    FieldPossible(c, line, "");
    if i < |line| {
      assert OneLine(Unspaced(line[i + 1..]));
      FieldPossible(c, line[..i], Unspaced(line[i + 1..]));
    }
  }

  lemma {:induction false} ParsePossible(c: Client, text: string)
    requires Possible(c)
    ensures Possible(Parse(c, text))
    decreases |text|
  {
    var i := LineEnd(text);
    if i < |text| {
      ProcessPossible(c, text[..i]);
      ParsePossible(Process(c, text[..i]), AfterLine(text, i));
    }
  }

  lemma {:induction false} ExpectedAt(events: seq<Event>, lastId: string, i: nat)
    requires i < |events|
    ensures ExpectedAll(events, lastId)[i].data == events[i].data
    ensures ExpectedAll(events, lastId)[i].kind == if events[i].kind == "" then "message" else events[i].kind
    decreases |events|
  {
    if i > 0 { ExpectedAt(events[1..], IdAfter(events[0], lastId), i - 1); }
  }

  /**
    Parsing any concatenation of frames returns the events, in order and with their data, exactly when every type
    is a single line and no data holds a carriage return.
   */
  lemma FramesReadBack(events: seq<Event>)
    ensures Parse(NEW_CLIENT, Frames(events)).events == ExpectedAll(events, "") <==>
      forall i :: 0 <= i < |events| ==> Writable(events[i])
  {
    if forall i :: 0 <= i < |events| ==> Writable(events[i]) {
      ParseFrames(NEW_CLIENT, events);
      assert [] + ExpectedAll(events, "") == ExpectedAll(events, "");
    }
    ParsePossible(NEW_CLIENT, Frames(events));
    if Parse(NEW_CLIENT, Frames(events)).events == ExpectedAll(events, "") {
      forall i | 0 <= i < |events| ensures Writable(events[i]) {
        ExpectedAt(events, "", i);
        assert Receivable(ExpectedAll(events, "")[i]);
      }
    }
  }
}
