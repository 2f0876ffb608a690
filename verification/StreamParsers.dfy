/**
 * The client's incremental `parseSSE` and `parseNDJSON`, against a reading of
 * the whole text, the server's framers, and section 9.2.6 of the WHATWG HTML
 * standard. Text is a sequence of characters: byte decoding is not modelled.
 */
module StreamParsers {
  import opened Basics
  import opened Options
  import JsonText

  // ----- lines of a text -----

  function IndexOf(s: string, c: char, from: nat): (i: nat)
    requires from <= |s|
    ensures from <= i <= |s| && (i < |s| ==> s[i] == c) && forall j | from <= j < i :: s[j] != c
    decreases |s| - from
  {
    if from == |s| || s[from] == c then from else IndexOf(s, c, from + 1)
  }

  /** Where the first newline is, or the length when there is none. */
  function Newline(s: string): (i: nat)
    ensures i <= |s| && (i < |s| ==> s[i] == '\n') && forall j | 0 <= j < i :: s[j] != '\n'
  {
    IndexOf(s, '\n', 0)
  }

  /** The lines that a newline ends. */
  function Lines(text: string): seq<string> {
    if text == "" then []
    else
      var (before, c) := (text[..|text| - 1], text[|text| - 1]);
      if c == '\n' then Lines(before) + [Tail(before)] else Lines(before)
  }

  /** What follows the last newline. */
  function Tail(text: string): string {
    if text == "" || text[|text| - 1] == '\n' then "" else Tail(text[..|text| - 1]) + [text[|text| - 1]]
  }

  predicate OneLine(s: string) {
    forall j | 0 <= j < |s| :: s[j] != '\n'
  }

  lemma ReadOn(text: string, c: char)
    ensures Lines(text + [c]) == if c == '\n' then Lines(text) + [Tail(text)] else Lines(text)
    ensures Tail(text + [c]) == if c == '\n' then "" else Tail(text) + [c]
  {
    assert (text + [c])[..|text|] == text;
  }

  lemma Cut(done: string, buffer: string, nl: nat)
    requires nl < |buffer| && buffer[nl] == '\n'
    ensures done + buffer[..nl] + "\n" + buffer[nl + 1..] == done + buffer
  {
    assert buffer == buffer[..nl] + "\n" + buffer[nl + 1..];
  }

  lemma ConcatMore(chunks: seq<string>, i: nat)
    requires i < |chunks|
    ensures Concat(chunks[..i + 1]) == Concat(chunks[..i]) + chunks[i]
  {
    assert chunks[..i + 1][..i] == chunks[..i];
  }

  lemma {:induction false} ReadOnLine(text: string, s: string)
    requires OneLine(s)
    ensures Lines(text + s) == Lines(text) && Tail(text + s) == Tail(text) + s
  {
    if s == "" {
      assert text + s == text && Tail(text) + s == Tail(text);
    } else {
      var front, c := s[..|s| - 1], s[|s| - 1];
      assert s == front + [c];
      ReadOnLine(text, front);
      ReadOn(text + front, c);
      AppendAssociates(text, front, [c]);
      AppendAssociates(Tail(text), front, [c]);
    }
  }

  /** An open last line after a text that ends with a newline. */
  lemma LineOpen(text: string, line: string)
    requires OneLine(line) && Tail(text) == ""
    ensures Lines(text + line) == Lines(text) && Tail(text + line) == line
  {
    ReadOnLine(text, line);
    assert "" + line == line;
  }

  /** One more whole line after a text that ends with a newline. */
  lemma LineThen(text: string, line: string)
    requires OneLine(line) && Tail(text) == ""
    ensures Lines(text + line + "\n") == Lines(text) + [line] && Tail(text + line + "\n") == ""
  {
    ReadOnLine(text, line);
    ReadOn(text + line, '\n');
    assert "" + line == line;
  }

  function EndsWithCr(line: string): bool {
    line != "" && line[|line| - 1] == '\r'
  }

  function Trim(line: string): string {
    if EndsWithCr(line) then line[..|line| - 1] else line
  }

  function Concat(chunks: seq<string>): string {
    if chunks == [] then "" else Concat(chunks[..|chunks| - 1]) + chunks[|chunks| - 1]
  }

  // ----- newline-delimited JSON -----

  /** The non-blank ones among `lines`, without a final carriage return. */
  function Records(lines: seq<string>): seq<string> {
    if lines == [] then []
    else Records(lines[..|lines| - 1]) + (var line := Trim(lines[|lines| - 1]); if line == "" then [] else [line])
  }

  function ReadNDJSON(text: string): seq<string> {
    Records(Lines(text) + [Tail(text)])
  }

  lemma RecordsMore(lines: seq<string>, line: string)
    ensures Records(lines + [line]) == Records(lines) + if Trim(line) == "" then [] else [Trim(line)]
  {
    assert (lines + [line])[..|lines|] == lines;
  }

  method ParseNDJSON(chunks: seq<string>) returns (records: seq<string>)
    ensures records == ReadNDJSON(Concat(chunks))
  {
    var buffer := "";
    records := [];
    ghost var done := "";
    var i := 0;
    while i < |chunks|
      invariant 0 <= i <= |chunks|
      invariant done + buffer == Concat(chunks[..i]) && Tail(done) == "" && OneLine(buffer)
      invariant records == Records(Lines(done))
    {
      ConcatMore(chunks, i);
      AppendAssociates(done, buffer, chunks[i]);
      buffer := buffer + chunks[i];
      var nl := Newline(buffer);
      while nl < |buffer|
        invariant nl == Newline(buffer)
        invariant done + buffer == Concat(chunks[..i + 1]) && Tail(done) == ""
        invariant records == Records(Lines(done))
        decreases |buffer|
      {
        var line := buffer[..nl];
        LineThen(done, line);
        RecordsMore(Lines(done), line);
        Cut(done, buffer, nl);
        done := done + line + "\n";
        buffer := buffer[nl + 1..];
        nl := Newline(buffer);
        line := Trim(line);
        if |line| > 0 { records := records + [line]; }
      }
      i := i + 1;
    }
    assert chunks[..i] == chunks;
    LineOpen(done, buffer);
    RecordsMore(Lines(done), buffer);
    var tail := Trim(buffer);
    if |tail| > 0 { records := records + [tail]; }
  }

  // ----- server-sent events -----

  datatype Event = Event(name: Option<string>, data: string)

  /** Data lines and event name of the event under way. */
  datatype Pending = Pending(data: seq<string>, name: Option<string>)

  const NOTHING := Pending([], None)

  function Join(lines: seq<string>): string {
    if lines == [] then ""
    else if |lines| == 1 then lines[0]
    else Join(lines[..|lines| - 1]) + "\n" + lines[|lines| - 1]
  }

  function Flush(p: Pending): seq<Event> {
    if p.data == [] then [] else [Event(if p.name == Some("") then None else p.name, Join(p.data))]
  }

  /** A field line's name and value. */
  function Field(line: string): (string, string) {
    var colon := IndexOf(line, ':', 0);
    if colon == |line| then (line, "")
    else (line[..colon], if colon + 1 < |line| && line[colon + 1] == ' ' then line[colon + 2..] else line[colon + 1..])
  }

  function HandleLine(p: Pending, line: string): (Pending, seq<Event>) {
    if line == "" then (NOTHING, Flush(p))
    else if line[0] == ':' then (p, [])
    else
      var (field, content) := Field(line);
      if field == "data" then (p.(data := p.data + [content]), [])
      else if field == "event" then (p.(name := Some(content)), [])
      else (p, [])
  }

  function Feed(lines: seq<string>): (Pending, seq<Event>) {
    if lines == [] then (NOTHING, [])
    else
      var (p, events) := Feed(lines[..|lines| - 1]);
      var (p', more) := HandleLine(p, Trim(lines[|lines| - 1]));
      (p', events + more)
  }

  /** What the end of the stream emits, `tail` being left over: an event the last line itself ends is dropped. */
  function AtEnd(p: Pending, tail: string): seq<Event> {
    Flush(if tail == "" then p else HandleLine(p, Trim(tail)).0)
  }

  /** The events of a whole text: those its lines end, then the one still under way. */
  function ReadSSE(text: string): seq<Event> {
    var (p, events) := Feed(Lines(text));
    events + AtEnd(p, Tail(text))
  }

  lemma FeedMore(lines: seq<string>, line: string)
    ensures var (p, events) := Feed(lines);
            var (p', more) := HandleLine(p, Trim(line));
            Feed(lines + [line]) == (p', events + more)
  {
    assert (lines + [line])[..|lines|] == lines;
  }

  method ParseSSE(chunks: seq<string>) returns (events: seq<Event>)
    ensures events == ReadSSE(Concat(chunks))
  {
    var buffer := "";
    var p := NOTHING;
    events := [];
    ghost var done := "";
    var i := 0;
    while i < |chunks|
      invariant 0 <= i <= |chunks|
      invariant done + buffer == Concat(chunks[..i]) && Tail(done) == "" && OneLine(buffer)
      invariant (p, events) == Feed(Lines(done))
    {
      ConcatMore(chunks, i);
      AppendAssociates(done, buffer, chunks[i]);
      buffer := buffer + chunks[i];
      var nl := Newline(buffer);
      while nl < |buffer|
        invariant nl == Newline(buffer)
        invariant done + buffer == Concat(chunks[..i + 1]) && Tail(done) == ""
        invariant (p, events) == Feed(Lines(done))
        decreases |buffer|
      {
        var line := buffer[..nl];
        LineThen(done, line);
        FeedMore(Lines(done), line);
        Cut(done, buffer, nl);
        done := done + line + "\n";
        buffer := buffer[nl + 1..];
        nl := Newline(buffer);
        if EndsWithCr(line) { line := line[..|line| - 1]; }
        var (p', more) := HandleLine(p, line);
        p, events := p', events + more;
      }
      i := i + 1;
    }
    assert chunks[..i] == chunks;
    LineOpen(done, buffer);
    if |buffer| > 0 {
      p := HandleLine(p, if EndsWithCr(buffer) then buffer[..|buffer| - 1] else buffer).0;
    }
    events := events + Flush(p);
  }

  // ----- the end of the stream -----

  /** What a line emits together with the end of the stream right after it. */
  function Closed(p: Pending, line: string): seq<Event> {
    HandleLine(p, Trim(line)).1 + Flush(HandleLine(p, Trim(line)).0)
  }

  lemma ClosedRead(text: string)
    ensures ReadSSE(text + "\n") == Feed(Lines(text)).1 + Closed(Feed(Lines(text)).0, Tail(text))
  {
    ReadOn(text, '\n');
    FeedMore(Lines(text), Tail(text));
    var (p', more) := HandleLine(Feed(Lines(text)).0, Trim(Tail(text)));
    AppendAssociates(Feed(Lines(text)).1, more, Flush(p'));
  }

  lemma OnlyBlankLinesEmit(p: Pending, line: string)
    ensures HandleLine(p, line).1 == if line == "" then Flush(p) else []
    ensures line == "" ==> HandleLine(p, line).0 == NOTHING
  {
  }

  /** What becomes of the event under way when the rest `tail` of the text is closed by a newline, or is not. */
  lemma ClosingTellsIff(p: Pending, tail: string)
    ensures Closed(p, tail) == AtEnd(p, tail) <==> !(tail == "\r" && p.data != [])
  {
    OnlyBlankLinesEmit(p, Trim(tail));
    assert tail == "\r" <==> tail != "" && Trim(tail) == "" by {
      if tail != "" && Trim(tail) == "" { assert tail == tail[..|tail| - 1] + [tail[|tail| - 1]]; }
    }
  }

  lemma SameFront(front: seq<Event>, a: seq<Event>, b: seq<Event>)
    ensures front + a == front + b <==> a == b
  {
    if front + a == front + b {
      assert a == (front + a)[|front|..] && b == (front + b)[|front|..];
    }
  }

  /**
   * Closing the last line changes nothing, except when what is left over is a
   * lone carriage return and an event is under way: that event is then lost.
   */
  lemma LastLineMayBeOpenIff(text: string)
    ensures ReadSSE(text + "\n") == ReadSSE(text) <==> !(Tail(text) == "\r" && Feed(Lines(text)).0.data != [])
  {
    var (p, events) := Feed(Lines(text));
    ClosedRead(text);
    ClosingTellsIff(p, Tail(text));
    SameFront(events, Closed(p, Tail(text)), AtEnd(p, Tail(text)));
  }

  // ----- what the server frames, the client reads -----

  /** An item, with an id on a resumable route, or the terminal error; the text is what `JSON.stringify` printed. */
  datatype Frame = Item(json: string, id: Option<string>) | Error(json: string)

  /** The lines of a frame; a newline follows each. */
  function FrameLines(f: Frame): seq<string> {
    match f
    case Item(json, Some(id)) => ["id" + ": " + id, "data" + ": " + json, ""]
    case Item(json, None) => ["data" + ": " + json, ""]
    case Error(json) => ["event" + ": " + "error", "data" + ": " + json, ""]
  }

  function Written(text: string, lines: seq<string>): string {
    if lines == [] then text else Written(text, lines[..|lines| - 1]) + lines[|lines| - 1] + "\n"
  }

  /** The body a stream of frames makes. */
  function Wire(frames: seq<Frame>): string {
    if frames == [] then "" else Written(Wire(frames[..|frames| - 1]), FrameLines(frames[|frames| - 1]))
  }

  function EventOf(f: Frame): Event {
    Event(if f.Error? then Some("error") else None, f.json)
  }

  function Events(frames: seq<Frame>): seq<Event> {
    if frames == [] then [] else Events(frames[..|frames| - 1]) + [EventOf(frames[|frames| - 1])]
  }

  /** Printed JSON has no line ends in it, and an id must have no newline. */
  predicate Frameable(f: Frame) {
    && OneLine(f.json) && !EndsWithCr(f.json)
    && (f.Item? && f.id.Some? ==> OneLine(f.id.value))
  }

  /** A text less one leading space, if it has one. */
  function Unspaced(s: string): string {
    if s != "" && s[0] == ' ' then s[1..] else s
  }

  /** Everything before the first colon is the name; what follows it, less one leading space, is the value. */
  lemma FieldIs(name: string, content: string)
    requires forall j | 0 <= j < |name| :: name[j] != ':'
    ensures Field(name + ":" + content) == (name, if content != "" && content[0] == ' ' then content[1..] else content)
    ensures Field(name) == (name, "")
  {
    var line := name + ":" + content;
    assert forall j | 0 <= j < |name| :: line[j] == name[j];
    assert line[|name|] == ':';
    assert IndexOf(line, ':', 0) == |name|;
    assert line[..|name|] == name && line[|name| + 1..] == content;
    if content != "" {
      assert line[|name| + 1] == content[0];
      assert line[|name| + 2..] == content[1..];
    }
  }

  lemma SpacedField(name: string, content: string)
    requires forall j | 0 <= j < |name| :: name[j] != ':'
    ensures Field(name + ": " + content) == (name, content)
  {
    FieldIs(name, " " + content);
    assert name + ":" + (" " + content) == name + ": " + content;
    assert (" " + content)[1..] == content;
  }

  /** What one field does to the event under way. */
  function Taken(p: Pending, name: string, content: string): Pending {
    if name == "data" then p.(data := p.data + [content])
    else if name == "event" then p.(name := Some(content))
    else p
  }

  lemma HandleField(p: Pending, name: string, content: string)
    requires name != "" && forall j | 0 <= j < |name| :: name[j] != ':'
    ensures HandleLine(p, name + ": " + content) == (Taken(p, name, content), [])
  {
    SpacedField(name, content);
    assert (name + ": " + content)[0] == name[0];
  }

  lemma TrimField(name: string, content: string)
    ensures Trim(name + ": " + content) == name + ": " + Trim(content)
  {
    var line := name + ": " + content;
    if EndsWithCr(content) {
      assert line[..|line| - 1] == name + ": " + content[..|content| - 1];
    }
  }

  lemma NoMore(events: seq<Event>)
    ensures events + [] == events
  {
  }

  /** A whole line `name: content` after a text that ends with a newline. */
  lemma ReadField(text: string, name: string, content: string)
    requires Tail(text) == "" && OneLine(name + ": " + content)
    requires name != "" && forall j | 0 <= j < |name| :: name[j] != ':'
    ensures var after := text + (name + ": " + content) + "\n";
            var (p, events) := Feed(Lines(text));
            Tail(after) == "" && Feed(Lines(after)) == (Taken(p, name, Trim(content)), events)
  {
    var line := name + ": " + content;
    LineThen(text, line);
    FeedMore(Lines(text), line);
    TrimField(name, content);
    HandleField(Feed(Lines(text)).0, name, Trim(content));
    NoMore(Feed(Lines(text)).1);
  }

  lemma ReadBlank(text: string)
    requires Tail(text) == ""
    ensures var (p, events) := Feed(Lines(text));
            Feed(Lines(text + "" + "\n")) == (NOTHING, events + Flush(p)) && Tail(text + "" + "\n") == ""
  {
    LineThen(text, "");
    FeedMore(Lines(text), "");
  }

  lemma WrittenOf(text: string, a: string, b: string, c: string)
    ensures Written(text, [a, b]) == text + a + "\n" + b + "\n"
    ensures Written(text, [a, b, c]) == text + a + "\n" + b + "\n" + c + "\n"
  {
    assert [a, b, c][..2] == [a, b] && [a, b][..1] == [a] && [a][..0] == [];
    assert Written(text, [a]) == text + a + "\n";
    assert Written(text, [a, b]) == Written(text, [a]) + b + "\n";
  }

  /** The data line and the blank line that end every frame. */
  lemma ReadPayload(text: string, json: string)
    requires Tail(text) == "" && Feed(Lines(text)).0.data == [] && OneLine(json) && !EndsWithCr(json)
    ensures var after := text + ("data" + ": " + json) + "\n" + "" + "\n";
            var (p, events) := Feed(Lines(text));
            && Tail(after) == ""
            && Feed(Lines(after)) == (NOTHING, events + [Event(if p.name == Some("") then None else p.name, json)])
  {
    ReadField(text, "data", json);
    ReadBlank(text + ("data" + ": " + json) + "\n");
    assert [] + [json] == [json];
  }

  lemma ReadId(text: string, id: string)
    requires Tail(text) == "" && OneLine(id)
    ensures var after := text + ("id" + ": " + id) + "\n";
            Tail(after) == "" && Feed(Lines(after)) == Feed(Lines(text))
  {
    assert OneLine("id" + ": " + id);
    ReadField(text, "id", id);
  }

  lemma ReadErrorName(text: string)
    requires Tail(text) == ""
    ensures var after := text + ("event" + ": " + "error") + "\n";
            && Tail(after) == ""
            && Feed(Lines(after)) == (Feed(Lines(text)).0.(name := Some("error")), Feed(Lines(text)).1)
  {
    assert OneLine("event" + ": " + "error");
    ReadField(text, "event", "error");
  }

  lemma ReadFrame(text: string, f: Frame)
    requires Tail(text) == "" && Feed(Lines(text)).0 == NOTHING && Frameable(f)
    ensures var after := Written(text, FrameLines(f));
            Tail(after) == "" && Feed(Lines(after)) == (NOTHING, Feed(Lines(text)).1 + [EventOf(f)])
  {
    match f
    case Item(json, Some(id)) =>
      WrittenOf(text, "id" + ": " + id, "data" + ": " + json, "");
      ReadId(text, id);
      ReadPayload(text + ("id" + ": " + id) + "\n", json);
    case Error(json) =>
      WrittenOf(text, "event" + ": " + "error", "data" + ": " + json, "");
      ReadErrorName(text);
      ReadPayload(text + ("event" + ": " + "error") + "\n", json);
    case Item(json, None) =>
      WrittenOf(text, "data" + ": " + json, "", "");
      ReadPayload(text, json);
  }

  lemma {:induction false} ReadFrames(frames: seq<Frame>)
    requires forall i | 0 <= i < |frames| :: Frameable(frames[i])
    ensures Tail(Wire(frames)) == "" && Feed(Lines(Wire(frames))) == (NOTHING, Events(frames))
  {
    if frames != [] {
      ReadFrames(frames[..|frames| - 1]);
      ReadFrame(Wire(frames[..|frames| - 1]), frames[|frames| - 1]);
    }
  }

  /** Whatever chunks a framed stream arrives in, reading it gives back its items and its error, in order. */
  lemma FramesRoundTrip(frames: seq<Frame>, chunks: seq<string>)
    requires forall i | 0 <= i < |frames| :: Frameable(frames[i])
    requires Concat(chunks) == Wire(frames)
    ensures ReadSSE(Concat(chunks)) == Events(frames)
  {
    ReadFrames(frames);
  }

  // ----- what any server writes, with or without the space -----

  /** An event as a server may send it: data lines, maybe a name, and a space after every colon or after none. */
  datatype Message = Message(name: Option<string>, data: seq<string>, tight: bool)

  function FieldLine(name: string, content: string, tight: bool): string {
    name + ":" + (if tight then content else " " + content)
  }

  function DataLines(data: seq<string>, tight: bool): seq<string> {
    if data == [] then [] else DataLines(data[..|data| - 1], tight) + [FieldLine("data", data[|data| - 1], tight)]
  }

  function MessageText(text: string, m: Message): string {
    Written(Written(if m.name.Some? then Written(text, [FieldLine("event", m.name.value, m.tight)]) else text,
                    DataLines(m.data, m.tight)), [""])
  }

  function Body(messages: seq<Message>): string {
    if messages == [] then "" else MessageText(Body(messages[..|messages| - 1]), messages[|messages| - 1])
  }

  function Received(messages: seq<Message>): seq<Event> {
    if messages == [] then []
    else Received(messages[..|messages| - 1]) + [Event(messages[|messages| - 1].name, Join(messages[|messages| - 1].data))]
  }

  /** A value that fits a line: no newline, no final carriage return, and no leading space where none is added. */
  predicate Fits(content: string, tight: bool) {
    OneLine(content) && !EndsWithCr(content) && (tight && content != "" ==> content[0] != ' ')
  }

  predicate Sendable(m: Message) {
    && m.data != [] && (forall i | 0 <= i < |m.data| :: Fits(m.data[i], m.tight))
    && (m.name.Some? ==> m.name.value != "" && Fits(m.name.value, m.tight))
  }

  lemma HandleFieldLine(p: Pending, name: string, content: string, tight: bool)
    requires name != "" && (forall j | 0 <= j < |name| :: name[j] != ':') && Fits(content, tight)
    ensures HandleLine(p, FieldLine(name, content, tight)) == (Taken(p, name, content), [])
  {
    FieldIs(name, if tight then content else " " + content);
    assert (" " + content)[1..] == content;
    assert FieldLine(name, content, tight)[0] == name[0];
  }

  lemma FieldLineFits(name: string, content: string, tight: bool)
    requires OneLine(name) && Fits(content, tight)
    ensures OneLine(FieldLine(name, content, tight)) && Trim(FieldLine(name, content, tight)) == FieldLine(name, content, tight)
  {
    var line := FieldLine(name, content, tight);
    if content != "" { assert line[|line| - 1] == content[|content| - 1]; }
  }

  lemma WrittenOne(text: string, line: string)
    ensures Written(text, [line]) == text + line + "\n"
  {
    assert [line][..0] == [];
  }

  lemma ReadFieldLine(text: string, name: string, content: string, tight: bool)
    requires Tail(text) == "" && OneLine(name) && Fits(content, tight)
    requires name != "" && forall j | 0 <= j < |name| :: name[j] != ':'
    ensures var after := Written(text, [FieldLine(name, content, tight)]);
            var (p, events) := Feed(Lines(text));
            Tail(after) == "" && Feed(Lines(after)) == (Taken(p, name, content), events)
  {
    var line := FieldLine(name, content, tight);
    WrittenOne(text, line);
    FieldLineFits(name, content, tight);
    LineThen(text, line);
    FeedMore(Lines(text), line);
    HandleFieldLine(Feed(Lines(text)).0, name, content, tight);
    NoMore(Feed(Lines(text)).1);
  }

  lemma WrittenMore(text: string, lines: seq<string>, line: string)
    ensures Written(text, lines + [line]) == Written(Written(text, lines), [line])
  {
    assert (lines + [line])[..|lines|] == lines;
    WrittenOne(Written(text, lines), line);
  }

  lemma MoreData(p: Pending, data: seq<string>)
    requires data != []
    ensures Taken(p.(data := p.data + data[..|data| - 1]), "data", data[|data| - 1]) == p.(data := p.data + data)
  {
    assert p.data + data[..|data| - 1] + [data[|data| - 1]] == p.data + data;
  }

  /** One more data line after those of a message read so far. */
  lemma ReadDataLine(text: string, data: seq<string>, tight: bool, p: Pending, events: seq<Event>)
    requires data != [] && Fits(data[|data| - 1], tight)
    requires Tail(text) == "" && Feed(Lines(text)) == (p.(data := p.data + data[..|data| - 1]), events)
    ensures var after := Written(text, [FieldLine("data", data[|data| - 1], tight)]);
            Tail(after) == "" && Feed(Lines(after)) == (p.(data := p.data + data), events)
  {
    ReadFieldLine(text, "data", data[|data| - 1], tight);
    MoreData(p, data);
  }

  lemma {:induction false} ReadDataLines(text: string, data: seq<string>, tight: bool, p: Pending, events: seq<Event>)
    requires Tail(text) == "" && Feed(Lines(text)) == (p, events) && forall i | 0 <= i < |data| :: Fits(data[i], tight)
    ensures var after := Written(text, DataLines(data, tight));
            Tail(after) == "" && Feed(Lines(after)) == (p.(data := p.data + data), events)
  {
    if data == [] {
      assert p.data + data == p.data;
    } else {
      var front, last := data[..|data| - 1], data[|data| - 1];
      var lines, line := DataLines(front, tight), FieldLine("data", last, tight);
      assert DataLines(data, tight) == lines + [line];
      ReadDataLines(text, front, tight, p, events);
      WrittenMore(text, lines, line);
      ReadDataLine(Written(text, lines), data, tight, p, events);
    }
  }

  /** The data lines and the blank line of a message, under a name that may have been set. */
  lemma ReadRest(text: string, data: seq<string>, tight: bool, name: Option<string>, events: seq<Event>)
    requires Tail(text) == "" && Feed(Lines(text)) == (Pending([], name), events)
    requires data != [] && (forall i | 0 <= i < |data| :: Fits(data[i], tight)) && name != Some("")
    ensures var after := Written(Written(text, DataLines(data, tight)), [""]);
            Tail(after) == "" && Feed(Lines(after)) == (NOTHING, events + [Event(name, Join(data))])
  {
    var whole := Written(text, DataLines(data, tight));
    ReadDataLines(text, data, tight, Pending([], name), events);
    assert [] + data == data;
    WrittenOne(whole, "");
    ReadBlank(whole);
  }

  lemma ReadMessage(text: string, m: Message)
    requires Tail(text) == "" && Feed(Lines(text)).0 == NOTHING && Sendable(m)
    ensures var after := MessageText(text, m);
            Tail(after) == "" && Feed(Lines(after)) == (NOTHING, Feed(Lines(text)).1 + [Event(m.name, Join(m.data))])
  {
    var named := if m.name.Some? then Written(text, [FieldLine("event", m.name.value, m.tight)]) else text;
    if m.name.Some? { ReadFieldLine(text, "event", m.name.value, m.tight); }
    ReadRest(named, m.data, m.tight, m.name, Feed(Lines(text)).1);
  }

  lemma {:induction false} ReadMessages(messages: seq<Message>)
    requires forall i | 0 <= i < |messages| :: Sendable(messages[i])
    ensures Tail(Body(messages)) == "" && Feed(Lines(Body(messages))) == (NOTHING, Received(messages))
  {
    if messages != [] {
      ReadMessages(messages[..|messages| - 1]);
      ReadMessage(Body(messages[..|messages| - 1]), messages[|messages| - 1]);
    }
  }

  /** Events of any number of data lines, with or without names and spaces, are read back whatever chunks they arrive in. */
  lemma MessagesRoundTrip(messages: seq<Message>, chunks: seq<string>)
    requires forall i | 0 <= i < |messages| :: Sendable(messages[i])
    requires Concat(chunks) == Body(messages)
    ensures ReadSSE(Concat(chunks)) == Received(messages)
  {
    ReadMessages(messages);
    NoMore(Received(messages));
  }

  /** A record as a line that ends with `\n` or, where `cr` says so, with `\r\n`. */
  datatype Row = Row(record: string, cr: bool)

  function RowText(row: Row): string {
    (if row.cr then row.record + "\r" else row.record) + "\n"
  }

  function RowsText(rows: seq<Row>): string {
    if rows == [] then "" else RowsText(rows[..|rows| - 1]) + RowText(rows[|rows| - 1])
  }

  function RecordsOf(rows: seq<Row>): seq<string> {
    if rows == [] then [] else RecordsOf(rows[..|rows| - 1]) + [rows[|rows| - 1].record]
  }

  predicate IsRecord(s: string) {
    OneLine(s) && s != "" && !EndsWithCr(s)
  }

  lemma ReadRow(text: string, row: Row)
    requires Tail(text) == "" && IsRecord(row.record)
    ensures var after := text + RowText(row);
            Tail(after) == "" && Records(Lines(after)) == Records(Lines(text)) + [row.record]
  {
    var line := if row.cr then row.record + "\r" else row.record;
    assert Trim(line) == row.record;
    LineThen(text, line);
    RecordsMore(Lines(text), line);
    AppendAssociates(text, line, "\n");
  }

  lemma {:induction false} ReadRows(rows: seq<Row>)
    requires forall i | 0 <= i < |rows| :: IsRecord(rows[i].record)
    ensures Tail(RowsText(rows)) == "" && Records(Lines(RowsText(rows))) == RecordsOf(rows)
  {
    if rows != [] {
      ReadRows(rows[..|rows| - 1]);
      ReadRow(RowsText(rows[..|rows| - 1]), rows[|rows| - 1]);
    }
  }

  /** A newline-delimited stream gives back its records, whatever chunks and line ends it arrives with. */
  lemma RecordsRoundTrip(rows: seq<Row>, chunks: seq<string>)
    requires forall i | 0 <= i < |rows| :: IsRecord(rows[i].record)
    requires Concat(chunks) == RowsText(rows)
    ensures ReadNDJSON(Concat(chunks)) == RecordsOf(rows)
  {
    ReadRows(rows);
    RecordsMore(Lines(Concat(chunks)), "");
  }

  /** What `JSON.stringify` prints fits every frame: the round trips hold for all JSON values. */
  lemma PrintedJsonFits(v: JsonText.Json, id: Option<string>)
    requires JsonText.WellFormed(v) && (id.Some? ==> OneLine(id.value))
    ensures Frameable(Item(JsonText.Print(v), id)) && Frameable(Error(JsonText.Print(v))) && IsRecord(JsonText.Print(v))
  {
    JsonText.IsPrintable(v, "");
    JsonText.StartsWithKind(v, "");
  }

  // ----- section 9.2.6 of the WHATWG HTML standard -----

  /** Every line end of the standard (CRLF, LF, CR) as a newline. */
  function Normalized(text: string): string {
    if text == "" then ""
    else
      var (before, c) := (text[..|text| - 1], text[|text| - 1]);
      if c == '\r' then Normalized(before) + "\n"
      else if c == '\n' && EndsWithCr(before) then Normalized(before)
      else Normalized(before) + [c]
  }

  /** The standard's data buffer and event type buffer. */
  datatype Buffers = Buffers(data: string, eventType: string)

  /** The standard's field name: the characters before the first colon, or the whole line. */
  function NameOf(line: string): string {
    if line == "" || line[0] == ':' then "" else [line[0]] + NameOf(line[1..])
  }

  /** The standard's field value: what follows the first colon, less one leading space; empty without a colon. */
  function ValueOf(line: string): string {
    if line == "" then "" else if line[0] == ':' then Unspaced(line[1..]) else ValueOf(line[1..])
  }

  /** Process one line by the standard; an unset type buffer is the empty string. */
  function ProcessLine(b: Buffers, line: string): (Buffers, seq<Event>) {
    if line == "" then
      (Buffers("", ""),
       if b.data == "" then []
       else [Event(if b.eventType == "" then None else Some(b.eventType), b.data[..|b.data| - 1])])
    else if line[0] == ':' then (b, [])
    else
      var (field, content) := (NameOf(line), ValueOf(line));
      if field == "event" then (b.(eventType := content), [])
      else if field == "data" then (b.(data := b.data + content + "\n"), [])
      else (b, [])
  }

  function Process(lines: seq<string>): (Buffers, seq<Event>) {
    if lines == [] then (Buffers("", ""), [])
    else
      var (b, events) := Process(lines[..|lines| - 1]);
      var (b', more) := ProcessLine(b, lines[|lines| - 1]);
      (b', events + more)
  }

  /** The events the standard dispatches; what is under way at the end is discarded. */
  function Standard(text: string): seq<Event> {
    Process(Lines(Normalized(text))).1
  }

  predicate CrsArePaired(text: string) {
    forall i | 0 <= i < |text| && text[i] == '\r' :: i + 1 < |text| && text[i + 1] == '\n'
  }

  function Trimmed(lines: seq<string>): seq<string> {
    if lines == [] then [] else Trimmed(lines[..|lines| - 1]) + [Trim(lines[|lines| - 1])]
  }

  lemma TrimmedMore(lines: seq<string>, line: string)
    ensures Trimmed(lines + [line]) == Trimmed(lines) + [Trim(line)]
  {
    assert (lines + [line])[..|lines|] == lines;
  }

  lemma NormalizedMore(before: string, c: char)
    ensures Normalized(before + [c])
            == if c == '\r' then Normalized(before) + ['\n']
               else if c == '\n' && EndsWithCr(before) then Normalized(before)
               else Normalized(before) + [c]
  {
    assert (before + [c])[..|before|] == before;
  }

  /** Both readings see the same lines, and no line under way ends with a carriage return. */
  predicate SameReading(text: string) {
    && Lines(Normalized(text)) == Trimmed(Lines(text)) && Tail(Normalized(text)) == Tail(text)
    && !EndsWithCr(Tail(text))
  }

  lemma CrlfReads(start: string)
    requires SameReading(start)
    ensures SameReading(start + ['\r'] + ['\n'])
  {
    NormalizedMore(start, '\r');
    NormalizedMore(start + ['\r'], '\n');
    ReadOn(start, '\r');
    ReadOn(start + ['\r'], '\n');
    ReadOn(Normalized(start), '\n');
    TrimmedMore(Lines(start), Tail(start) + ['\r']);
    assert Trim(Tail(start) + ['\r']) == Tail(start);
  }

  lemma PlainReads(before: string, c: char)
    requires SameReading(before) && c != '\r' && !(c == '\n' && EndsWithCr(before))
    ensures SameReading(before + [c])
  {
    NormalizedMore(before, c);
    ReadOn(before, c);
    ReadOn(Normalized(before), c);
    TrimmedMore(Lines(before), Tail(before));
  }

  /** When every carriage return belongs to a CRLF, both readings see the same lines. */
  lemma {:induction false} SameLines(text: string)
    requires CrsArePaired(text)
    ensures SameReading(text)
  {
    if text != "" {
      var n := |text| - 1;
      var before, c := text[..n], text[n];
      assert text == before + [c];
      if c == '\n' && EndsWithCr(before) {
        var start := before[..n - 1];
        assert before == start + ['\r'];
        SameLines(start);
        CrlfReads(start);
      } else {
        SameLines(before);
        PlainReads(before, c);
      }
    }
  }

  /** The data lines, each with the newline the standard appends. */
  function Ended(data: seq<string>): string {
    if data == [] then "" else Join(data) + "\n"
  }

  predicate Alike(p: Pending, b: Buffers) {
    b == Buffers(Ended(p.data), if p.name.Some? then p.name.value else "")
  }

  lemma BlankAlike(p: Pending, b: Buffers)
    requires Alike(p, b)
    ensures ProcessLine(b, "") == (Buffers("", ""), Flush(p))
  {
    assert (Join(p.data) + "\n")[..|Join(p.data)|] == Join(p.data);
  }

  lemma EndedMore(data: seq<string>, content: string)
    ensures Ended(data + [content]) == Ended(data) + content + "\n"
  {
    assert (data + [content])[..|data|] == data;
    if data == [] { assert [] + [content] == [content] && "" + content == content; }
  }

  /** The parser splits a line as the standard does. */
  lemma {:induction false} FieldIsStandard(line: string)
    ensures Field(line) == (NameOf(line), ValueOf(line))
  {
    if line != "" && line[0] != ':' {
      FieldIsStandard(line[1..]);
      FieldShifts(line);
    }
  }

  lemma FieldShifts(line: string)
    requires line != "" && line[0] != ':'
    ensures Field(line) == ([line[0]] + Field(line[1..]).0, Field(line[1..]).1)
  {
    var i, rest := IndexOf(line, ':', 0), line[1..];
    assert line == [line[0]] + rest;
    IndexIs(rest, ':', i - 1);
    SplitShifts(line, rest, i);
  }

  lemma SplitShifts(line: string, rest: string, i: nat)
    requires line != "" && rest == line[1..] && 0 < i <= |line|
    ensures line[..i] == [line[0]] + rest[..i - 1]
    ensures i < |line| ==> line[i + 1..] == rest[i..]
    ensures i + 1 < |line| ==> line[i + 1] == rest[i] && line[i + 2..] == rest[i + 1..]
    ensures i == |line| ==> line == [line[0]] + rest
  {
  }

  lemma IndexIs(s: string, c: char, i: nat)
    requires i <= |s| && (i < |s| ==> s[i] == c) && forall j | 0 <= j < i :: s[j] != c
    ensures IndexOf(s, c, 0) == i
  {
  }

  lemma LineAlike(p: Pending, b: Buffers, line: string)
    requires Alike(p, b)
    ensures Alike(HandleLine(p, line).0, ProcessLine(b, line).0) && HandleLine(p, line).1 == ProcessLine(b, line).1
  {
    if line == "" {
      BlankAlike(p, b);
    } else {
      FieldIsStandard(line);
      EndedMore(p.data, Field(line).1);
    }
  }

  lemma {:induction false} LinesAlike(lines: seq<string>)
    ensures Alike(Feed(lines).0, Process(Trimmed(lines)).0) && Feed(lines).1 == Process(Trimmed(lines)).1
  {
    if lines != [] {
      var front, line := lines[..|lines| - 1], lines[|lines| - 1];
      LinesAlike(front);
      LineAlike(Feed(front).0, Process(Trimmed(front)).0, Trim(line));
    }
  }

  /**
   * Where every carriage return belongs to a CRLF the parser reads what the
   * standard reads from the text closed by a blank line: the only difference
   * is that it emits an event still under way when the stream ends.
   */
  lemma AgreesWithStandard(text: string)
    requires CrsArePaired(text)
    ensures ReadSSE(text) == Standard(text + "\n" + "\n")
    ensures Standard(text) <= ReadSSE(text)
  {
    var closed := text + "\n";
    SameLines(text);
    SameLines(closed + "\n");
    LinesAlike(Lines(text));
    LinesAlike(Lines(closed + "\n"));
    ClosedRead(text);
    LastLineMayBeOpenIff(text);
    ReadOn(closed, '\n');
    ReadOn(text, '\n');
    FeedMore(Lines(closed), "");
  }

  lemma StandardEndsTheEvent(text: string)
    requires CrsArePaired(text) && Tail(text) == ""
    ensures Standard(text + "\r") == Feed(Lines(text)).1 + Flush(Feed(Lines(text)).0)
  {
    var lines := Trimmed(Lines(text));
    SameLines(text);
    LinesAlike(Lines(text));
    LineAlike(Feed(Lines(text)).0, Process(lines).0, "");
    OnlyBlankLinesEmit(Feed(Lines(text)).0, "");
    assert (text + "\r")[..|text|] == text;
    ReadOn(Normalized(text), '\n');
    ProcessMore(lines, "");
  }

  lemma ParserDropsTheEvent(text: string)
    requires Tail(text) == ""
    ensures ReadSSE(text + "\r") == Feed(Lines(text)).1
  {
    ReadOn(text, '\r');
    assert "" + ['\r'] == "\r" && Trim("\r") == "";
    OnlyBlankLinesEmit(Feed(Lines(text)).0, "");
    NoMore(Feed(Lines(text)).1);
  }

  /**
   * A carriage return on its own ends a line for the standard, and not for the
   * parser: after whole lines the standard sees the blank line that completes
   * the event under way, and the parser drops that event.
   */
  lemma LoneCrsDiffer(text: string)
    requires CrsArePaired(text) && Tail(text) == ""
    ensures Standard(text + "\r") == ReadSSE(text + "\r") + Flush(Feed(Lines(text)).0)
  {
    StandardEndsTheEvent(text);
    ParserDropsTheEvent(text);
  }

  lemma ProcessMore(lines: seq<string>, line: string)
    ensures var (b, events) := Process(lines);
            var (b', more) := ProcessLine(b, line);
            Process(lines + [line]) == (b', events + more)
  {
    assert (lines + [line])[..|lines|] == lines;
  }
}
