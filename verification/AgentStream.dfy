/** The assistant's answer to Slack: decoding the server-sent events of one run, and
    answering every tool confirmation the run asks for with a denial. */
module AgentStream {
  import opened Text

  datatype Event = Event(eventType: string, data: string)

  const MESSAGE := "message"

  // ----- lines -----

  function CutLine(text: string): (line: string)
    ensures |line| <= |text|
  {
    if text == "" || text[0] == '\n' then "" else [text[0]] + CutLine(text[1..])
  }

  function DropReturn(line: string): string {
    if line != "" && line[|line| - 1] == '\r' then line[..|line| - 1] else line
  }

  /** `bufio.ScanLines`: lines end at a newline, lose one carriage return, and the last
      one needs no newline. */
  function Lines(text: string): seq<string> {
    if text == "" then []
    else
      var line := CutLine(text);
      [DropReturn(line)] + if |line| == |text| then [] else Lines(text[|line| + 1..])
  }

  function Unlines(lines: seq<string>): string {
    if lines == [] then "" else lines[0] + "\n" + Unlines(lines[1..])
  }

  predicate PlainLine(line: string) {
    '\n' !in line && (line != "" ==> line[|line| - 1] != '\r')
  }

  lemma {:induction false} CutLineShape(text: string)
    ensures '\n' !in CutLine(text)
    ensures text == CutLine(text) + text[|CutLine(text)|..]
    ensures |CutLine(text)| < |text| ==> text[|CutLine(text)|] == '\n'
  {
    if text != "" && text[0] != '\n' {
      CutLineShape(text[1..]);
      assert text == [text[0]] + text[1..];
      assert text[|CutLine(text)|..] == text[1..][|CutLine(text[1..])|..];
    }
  }

  lemma {:induction false} CutLineOf(line: string, rest: string)
    requires '\n' !in line
    ensures CutLine(line + "\n" + rest) == line
  {
    if line != "" {
      assert (line + "\n" + rest)[1..] == line[1..] + "\n" + rest;
      CutLineOf(line[1..], rest);
    }
  }

  lemma LinesCons(line: string, rest: string)
    requires '\n' !in line
    ensures Lines(line + "\n" + rest) == [DropReturn(line)] + Lines(rest)
  {
    CutLineOf(line, rest);
    assert (line + "\n" + rest)[|line| + 1..] == rest;
  }

  predicate PlainLines(lines: seq<string>) {
    lines == [] || (PlainLine(lines[0]) && PlainLines(lines[1..]))
  }

  lemma DropReturnFixed(line: string)
    requires '\n' !in line
    ensures DropReturn(line) == line <==> PlainLine(line)
  {
  }

  /** The first line is read back as it was exactly when it is plain. */
  lemma FirstLine(line: string, rest: string, more: seq<string>)
    ensures Lines(line + "\n" + rest) == [line] + more <==> PlainLine(line) && Lines(rest) == more
  {
    if '\n' in line {
      var text := line + "\n" + rest;
      CutLineShape(text);
      assert Lines(text)[0] == DropReturn(CutLine(text));
      assert ([line] + more)[0] == line;
    } else {
      LinesCons(line, rest);
      DropReturnFixed(line);
      SameCons(DropReturn(line), Lines(rest), line, more);
    }
  }

  /** Written lines are read back exactly when none holds a newline or ends in a
      carriage return. */
  lemma {:induction false} LinesRoundTrip(lines: seq<string>)
    ensures Lines(Unlines(lines)) == lines <==> PlainLines(lines)
  {
    if lines != [] {
      LinesRoundTrip(lines[1..]);
      FirstLine(lines[0], Unlines(lines[1..]), lines[1..]);
      assert lines == [lines[0]] + lines[1..];
    }
  }

  lemma SameCons<T>(a: T, more: seq<T>, b: T, rest: seq<T>)
    ensures [a] + more == [b] + rest <==> a == b && more == rest
  {
    assert ([a] + more)[1..] == more && ([b] + rest)[1..] == rest;
    assert ([a] + more)[0] == a && ([b] + rest)[0] == b;
  }

  // ----- the decoder, one line at a time -----

  /** What the decoder holds between lines. */
  datatype Pending = Pending(eventType: string, data: string)

  const FRESH := Pending(MESSAGE, "")

  function DropSpaces(s: string): string {
    if s != "" && s[0] == ' ' then DropSpaces(s[1..]) else s
  }

  function AppendLine(data: string, line: string): string {
    if data == "" then line else data + "\n" + line
  }

  function Fed(p: Pending, line: string): Pending {
    if HasPrefix(line, "event:") then p.(eventType := Trim(line[6..]))
    else if HasPrefix(line, "data:") then p.(data := AppendLine(p.data, DropSpaces(line[5..])))
    else if line == "" && p.data != "" then FRESH
    else p
  }

  function Flushed(p: Pending): seq<Event> {
    if p.data == "" then [] else [Event(p.eventType, p.data)]
  }

  function Emitted(p: Pending, line: string): seq<Event> {
    if line == "" then Flushed(p) else []
  }

  /** The events the decoder hands over while it reads `lines` to the end. */
  function Events(p: Pending, lines: seq<string>): seq<Event>
    decreases |lines|
  {
    if lines == [] then Flushed(p) else Emitted(p, lines[0]) + Events(Fed(p, lines[0]), lines[1..])
  }

  /** The same when the stream may break off: what is pending then is not handed over. */
  function EventsTo(p: Pending, lines: seq<string>, ends: bool): seq<Event>
    decreases |lines|
  {
    if lines == [] then (if ends then Flushed(p) else [])
    else Emitted(p, lines[0]) + EventsTo(Fed(p, lines[0]), lines[1..], ends)
  }

  lemma {:induction false} EventsToEnd(p: Pending, lines: seq<string>)
    ensures EventsTo(p, lines, true) == Events(p, lines)
    decreases |lines|
  {
    if lines != [] {
      EventsToEnd(Fed(p, lines[0]), lines[1..]);
    }
  }

  // ----- the answer -----

  type Decode = (string, string) -> Result<string, string>

  /** The non-empty texts of the events, or the first error. */
  function Texts(decode: Decode, events: seq<Event>): Result<seq<string>, string> {
    if events == [] then Ok([])
    else match decode(events[0].eventType, events[0].data)
      case Err(e) => Err(e)
      case Ok(text) => Prepended(if text == "" then [] else [text], Texts(decode, events[1..]))
  }

  function Prepended(texts: seq<string>, r: Result<seq<string>, string>): Result<seq<string>, string> {
    match r
    case Err(e) => Err(e)
    case Ok(more) => Ok(texts + more)
  }

  function JoinedReply(r: Result<seq<string>, string>): Result<string, string> {
    match r
    case Err(e) => Err(e)
    case Ok(texts) => Ok(Trim(Join(texts, "\n")))
  }

  lemma PrependedTwice(a: seq<string>, b: seq<string>, r: Result<seq<string>, string>)
    ensures Prepended(a, Prepended(b, r)) == Prepended(a + b, r)
    ensures Prepended([], r) == r
  {
    if r.Ok? {
      assert a + (b + r.value) == (a + b) + r.value && [] + r.value == r.value;
    }
  }

  /** Decoding the pending event, if there is one. */
  method FlushEvent(decode: Decode, p: Pending, texts: seq<string>, ghost more: seq<Event>)
    returns (r: Result<seq<string>, string>)
    ensures r.Ok? ==> Prepended(texts, Texts(decode, Flushed(p) + more)) == Prepended(r.value, Texts(decode, more))
    ensures r.Err? ==> Texts(decode, Flushed(p) + more) == Err(r.error)
  {
    assert [] + more == more;
    if p.data == "" {
      return Ok(texts);
    }
    assert (Flushed(p) + more)[0] == Event(p.eventType, p.data) && (Flushed(p) + more)[1..] == more;
    match decode(p.eventType, p.data) {
      case Err(e) => r := Err(e);
      case Ok(text) =>
        PrependedTwice(texts, if text == "" then [] else [text], Texts(decode, more));
        assert text == "" ==> texts + [] == texts;
        r := Ok(if text == "" then texts else texts + [text]);
    }
  }

  /** What is left to read adds up, with the texts so far, to the whole answer. */
  predicate Underway(decode: Decode, lines: seq<string>, ends: bool, i: nat, p: Pending, texts: seq<string>) {
    && i <= |lines|
    && Prepended(texts, Texts(decode, EventsTo(p, lines[i..], ends))) == Texts(decode, EventsTo(FRESH, lines, ends))
  }

  lemma QuietStep(decode: Decode, lines: seq<string>, ends: bool, i: nat, p: Pending, texts: seq<string>)
    requires i < |lines| && Underway(decode, lines, ends, i, p, texts) && Emitted(p, lines[i]) == []
    ensures Underway(decode, lines, ends, i + 1, Fed(p, lines[i]), texts)
  {
    var more := EventsTo(Fed(p, lines[i]), lines[i + 1..], ends);
    assert lines[i..][1..] == lines[i + 1..];
    assert [] + more == more;
  }

  lemma UnderwayStarts(decode: Decode, lines: seq<string>, ends: bool)
    ensures Underway(decode, lines, ends, 0, FRESH, [])
  {
    PrependedTwice([], [], Texts(decode, EventsTo(FRESH, lines, ends)));
    assert lines[0..] == lines;
  }

  method FlushLine(decode: Decode, lines: seq<string>, ghost ends: bool, i: nat, p: Pending, texts: seq<string>)
    returns (r: Result<seq<string>, string>)
    requires i < |lines| && lines[i] == "" && p.data != ""
    requires Underway(decode, lines, ends, i, p, texts)
    ensures r.Ok? ==> Underway(decode, lines, ends, i + 1, FRESH, r.value)
    ensures r.Err? ==> Texts(decode, EventsTo(FRESH, lines, ends)) == Err(r.error)
  {
    assert lines[i..][1..] == lines[i + 1..];
    r := FlushEvent(decode, p, texts, EventsTo(FRESH, lines[i + 1..], ends));
  }

  method FlushLast(decode: Decode, lines: seq<string>, p: Pending, texts: seq<string>)
    returns (r: Result<string, string>)
    requires Underway(decode, lines, true, |lines|, p, texts)
    ensures r == JoinedReply(Texts(decode, EventsTo(FRESH, lines, true)))
  {
    assert lines[|lines|..] == [] && Flushed(p) + [] == Flushed(p);
    var flushed := FlushEvent(decode, p, texts, []);
    match flushed {
      case Err(e) => r := Err(e);
      case Ok(all) =>
        assert all + [] == all;
        r := Ok(Trim(Join(all, "\n")));
    }
  }

  /** What a stream that breaks off answers with: the error of an event before the break, or
      the break. */
  function BrokenReply(r: Result<seq<string>, string>, broken: string): Result<string, string> {
    match r
    case Err(e) => Err(e)
    case Ok(_) => Err(broken)
  }

  lemma BrokenOff(decode: Decode, lines: seq<string>, p: Pending, texts: seq<string>)
    requires Underway(decode, lines, false, |lines|, p, texts)
    ensures Texts(decode, EventsTo(FRESH, lines, false)).Ok?
  {
    assert lines[|lines|..] == [];
  }

  /** `broken` is the scanner's error after the lines it could read, if it has one: the reader
      failed, or a line was too long. */
  method DecodeAgentSSE(decode: Decode, lines: seq<string>, broken: Option<string>) returns (r: Result<string, string>)
    ensures broken.None? ==> r == JoinedReply(Texts(decode, Events(FRESH, lines)))
    ensures broken.Some? ==> r == BrokenReply(Texts(decode, EventsTo(FRESH, lines, false)), broken.value)
  {
    var eventType, data, texts := MESSAGE, "", [];
    var i := 0;
    UnderwayStarts(decode, lines, broken.None?);
    EventsToEnd(FRESH, lines);
    while i < |lines|
      invariant i <= |lines| && Underway(decode, lines, broken.None?, i, Pending(eventType, data), texts)
    {
      var line := lines[i];
      if line == "" && data != "" {
        var flushed := FlushLine(decode, lines, broken.None?, i, Pending(eventType, data), texts);
        if flushed.Err? {
          return Err(flushed.error);
        }
        eventType, data, texts := MESSAGE, "", flushed.value;
      } else {
        QuietStep(decode, lines, broken.None?, i, Pending(eventType, data), texts);
        if HasPrefix(line, "event:") {
          eventType := Trim(line[6..]);
        } else if HasPrefix(line, "data:") {
          data := AppendLine(data, DropSpaces(line[5..]));
        }
      }
      i := i + 1;
    }
    if broken.Some? {
      BrokenOff(decode, lines, Pending(eventType, data), texts);
      return Err(broken.value);
    }
    r := FlushLast(decode, lines, Pending(eventType, data), texts);
  }

  // ----- events written as frames -----

  /** One frame as a server writes it: a type if it names one, then the data lines. */
  datatype Frame = Frame(named: Option<string>, lines: seq<string>)

  function DataLines(lines: seq<string>): seq<string> {
    if lines == [] then [] else ["data: " + lines[0]] + DataLines(lines[1..])
  }

  function Printed(f: Frame): seq<string> {
    (if f.named.Some? then ["event: " + f.named.value] else []) + DataLines(f.lines) + [""]
  }

  function PrintAll(frames: seq<Frame>): seq<string> {
    if frames == [] then [] else Printed(frames[0]) + PrintAll(frames[1..])
  }

  function Unindented(lines: seq<string>): seq<string> {
    if lines == [] then [] else [DropSpaces(lines[0])] + Unindented(lines[1..])
  }

  function SkipEmpty(lines: seq<string>): seq<string> {
    if lines != [] && lines[0] == "" then SkipEmpty(lines[1..]) else lines
  }

  /** The data a frame carries: its lines without leading spaces, joined, without the
      empty ones it starts with. */
  function Content(lines: seq<string>): string {
    Join(SkipEmpty(Unindented(lines)), "\n")
  }

  function TypeOf(f: Frame, unnamed: string): string {
    if f.named.Some? then Trim(f.named.value) else unnamed
  }

  /** The events of the frames, when a frame that names no type is a plain message. */
  function Meaning(frames: seq<Frame>): seq<Event> {
    if frames == [] then []
    else
      var data := Content(frames[0].lines);
      (if data == "" then [] else [Event(TypeOf(frames[0], MESSAGE), data)]) + Meaning(frames[1..])
  }

  /** The events the decoder finds: a type stays until an event uses it up. */
  function Carried(t: string, frames: seq<Frame>): seq<Event>
    decreases |frames|
  {
    if frames == [] then []
    else
      var data := Content(frames[0].lines);
      var named := TypeOf(frames[0], t);
      if data == "" then Carried(named, frames[1..]) else [Event(named, data)] + Carried(MESSAGE, frames[1..])
  }

  function Payload(data: string, lines: seq<string>): string {
    if lines == [] then data else AppendLine(data, Join(lines, "\n"))
  }

  /** Appending line by line, empty ones at the start being lost, is joining the rest. */
  lemma {:induction false} AppendedLines(data: string, lines: seq<string>)
    requires lines != []
    ensures data != "" ==> Payload(AppendLine(data, lines[0]), lines[1..]) == Payload(data, lines)
    ensures data == "" && lines[0] != "" ==> Payload(lines[0], lines[1..]) == Join(lines, "\n")
  {
    var more := lines[1..];
    if more == [] {
      assert lines == [lines[0]];
    } else {
      assert Join(lines, "\n") == lines[0] + "\n" + Join(more, "\n");
      assert (data + "\n" + lines[0]) + "\n" + Join(more, "\n") == data + "\n" + (lines[0] + "\n" + Join(more, "\n"));
    }
  }

  lemma FedData(p: Pending, line: string)
    ensures Fed(p, "data: " + line) == p.(data := AppendLine(p.data, DropSpaces(line)))
    ensures Emitted(p, "data: " + line) == []
  {
    var s := "data: " + line;
    assert s[..5] == "data:" && s[5..] == " " + line && s[5..][1..] == line;
    assert s[0] == 'd' && "event:"[0] == 'e';
  }

  lemma FedType(p: Pending, name: string)
    ensures Fed(p, "event: " + name) == p.(eventType := Trim(name))
    ensures Emitted(p, "event: " + name) == []
  {
    var s := "event: " + name;
    assert s[..6] == "event:" && s[6..] == " " + name;
    TrimSpaces(" ", name);
  }

  lemma EventsCons(p: Pending, line: string, rest: seq<string>)
    ensures Events(p, [line] + rest) == Emitted(p, line) + Events(Fed(p, line), rest)
  {
    assert ([line] + rest)[1..] == rest;
  }

  /** The data lines of a frame leave their payload pending. */
  lemma {:induction false} DataLinesDecoded(p: Pending, lines: seq<string>, rest: seq<string>)
    ensures p.data != "" ==>
      Events(p, DataLines(lines) + rest) == Events(p.(data := Payload(p.data, Unindented(lines))), rest)
    ensures p.data == "" ==>
      Events(p, DataLines(lines) + rest) == Events(p.(data := Content(lines)), rest)
    decreases lines
  {
    if lines == [] {
      assert DataLines(lines) + rest == rest;
    } else {
      var line, more := lines[0], DataLines(lines[1..]) + rest;
      assert DataLines(lines) + rest == ["data: " + line] + more;
      EventsCons(p, "data: " + line, more);
      FedData(p, line);
      var next := p.(data := AppendLine(p.data, DropSpaces(line)));
      assert [] + Events(next, more) == Events(next, more);
      assert Unindented(lines)[1..] == Unindented(lines[1..]);
      AppendedLines(p.data, Unindented(lines));
      DataLinesDecoded(next, lines[1..], rest);
    }
  }

  lemma FrameDecoded(t: string, f: Frame, rest: seq<string>)
    ensures Events(Pending(t, ""), Printed(f) + rest)
      == if Content(f.lines) == "" then Events(Pending(TypeOf(f, t), ""), rest)
         else [Event(TypeOf(f, t), Content(f.lines))] + Events(FRESH, rest)
  {
    var body := DataLines(f.lines) + ([""] + rest);
    var p, typed := Pending(t, ""), Pending(TypeOf(f, t), "");
    if f.named.Some? {
      assert Printed(f) + rest == ["event: " + f.named.value] + body;
      EventsCons(p, "event: " + f.named.value, body);
      FedType(p, f.named.value);
      assert [] + Events(typed, body) == Events(typed, body);
    } else {
      assert Printed(f) + rest == body;
    }
    DataLinesDecoded(typed, f.lines, [""] + rest);
    var full := typed.(data := Content(f.lines));
    EventsCons(full, "", rest);
    assert [] + Events(full, rest) == Events(full, rest);
  }

  lemma {:induction false} PrintedDecodes(t: string, frames: seq<Frame>)
    ensures Events(Pending(t, ""), PrintAll(frames)) == Carried(t, frames)
    decreases |frames|
  {
    if frames != [] {
      FrameDecoded(t, frames[0], PrintAll(frames[1..]));
      PrintedDecodes(TypeOf(frames[0], t), frames[1..]);
      PrintedDecodes(MESSAGE, frames[1..]);
    }
  }

  // ----- when a type reaches the wrong event -----

  /** The next frame with data comes before the next one with a type. */
  predicate Exposed(frames: seq<Frame>) {
    frames != [] && frames[0].named.None? && (Content(frames[0].lines) != "" || Exposed(frames[1..]))
  }

  /** Some frame names a type other than a message's but has no data, and the next frame
      with data names none. */
  predicate TypeOrphaned(frames: seq<Frame>) {
    && frames != []
    && (TypeOrphaned(frames[1..])
        || (Content(frames[0].lines) == "" && TypeOf(frames[0], MESSAGE) != MESSAGE && Exposed(frames[1..])))
  }

  lemma {:induction false} CarriedIsMeaning(t: string, frames: seq<Frame>)
    ensures Carried(t, frames) == Meaning(frames) <==> !TypeOrphaned(frames) && (t == MESSAGE || !Exposed(frames))
    decreases |frames|
  {
    if frames != [] {
      var f, more := frames[0], frames[1..];
      CarriedIsMeaning(TypeOf(f, t), more);
      CarriedIsMeaning(MESSAGE, more);
      assert [] + Meaning(more) == Meaning(more);
      if Content(f.lines) != "" {
        assert Carried(t, frames)[1..] == Carried(MESSAGE, more) && Meaning(frames)[1..] == Meaning(more);
        assert Carried(t, frames)[0].eventType == TypeOf(f, t) && Meaning(frames)[0].eventType == TypeOf(f, MESSAGE);
      }
    }
  }

  /** Decoded frames mean what they say exactly when no type is left over by a frame
      without data and taken up by one without a type. */
  lemma DecodedMeaning(frames: seq<Frame>)
    ensures Events(FRESH, PrintAll(frames)) == Meaning(frames) <==> !TypeOrphaned(frames)
  {
    PrintedDecodes(MESSAGE, frames);
    CarriedIsMeaning(MESSAGE, frames);
  }

  /** For one: the type of an error frame without data lands on the next plain message. */
  lemma ErrorLandsOnMessage()
    ensures var frames := [Frame(Some("error"), []), Frame(None, ["x"])];
      Events(FRESH, PrintAll(frames)) == [Event("error", "x")] && Meaning(frames) == [Event("message", "x")]
  {
    var plain, frames := [Frame(None, ["x"])], [Frame(Some("error"), []), Frame(None, ["x"])];
    assert frames[1..] == plain && plain[1..] == [] && ["x"][1..] == [];
    assert Unindented(["x"]) == ["x"] && Content(["x"]) == "x" && Content([]) == "";
    TrimFixed("error");
    PrintedDecodes(MESSAGE, frames);
    assert Carried("error", plain) == [Event("error", "x")] + Carried(MESSAGE, []);
    assert Meaning(plain) == [Event(MESSAGE, "x")] + Meaning([]);
  }

  // ----- the round trip -----

  function SplitLines(data: string): (lines: seq<string>)
    ensures lines != []
  {
    var line := CutLine(data);
    [line] + if |line| == |data| then [] else SplitLines(data[|line| + 1..])
  }

  /** An event written with its type and all the lines of its data. */
  function Framed(ev: Event): Frame {
    Frame(Some(ev.eventType), SplitLines(ev.data))
  }

  function FramedAll(events: seq<Event>): seq<Frame> {
    if events == [] then [] else [Framed(events[0])] + FramedAll(events[1..])
  }

  predicate NoIndent(lines: seq<string>) {
    lines == [] || ((lines[0] != "" ==> lines[0][0] != ' ') && NoIndent(lines[1..]))
  }

  /** An event the frames can carry: no white space around the type, a first line that is
      not empty, and no line that starts with a space. */
  predicate Normal(ev: Event) {
    Trimmed(ev.eventType) && SplitLines(ev.data)[0] != "" && NoIndent(SplitLines(ev.data))
  }

  lemma SplitMore(line: string, rest: string)
    requires '\n' !in line
    ensures SplitLines(line + "\n" + rest) == [line] + SplitLines(rest)
  {
    CutLineOf(line, rest);
    assert (line + "\n" + rest)[|line| + 1..] == rest;
  }

  lemma CutAtNewline(data: string) returns (line: string, rest: string)
    requires |CutLine(data)| < |data|
    ensures '\n' !in line && data == line + "\n" + rest
  {
    CutLineShape(data);
    line, rest := CutLine(data), data[|CutLine(data)| + 1..];
    assert data[|line|..] == ['\n'] + rest;
    assert line + "\n" + rest == line + (['\n'] + rest);
  }

  lemma {:induction false} SplitJoined(data: string)
    ensures Join(SplitLines(data), "\n") == data
    decreases |data|
  {
    if |CutLine(data)| < |data| {
      var line, rest := CutAtNewline(data);
      SplitMore(line, rest);
      SplitJoined(rest);
      JoinMore(line, SplitLines(rest));
    } else {
      CutLineShape(data);
    }
  }

  lemma JoinMore(line: string, lines: seq<string>)
    requires lines != []
    ensures Join([line] + lines, "\n") == line + "\n" + Join(lines, "\n")
  {
    assert ([line] + lines)[1..] == lines;
  }

  lemma {:induction false} DropSpacesShape(s: string)
    ensures |DropSpaces(s)| <= |s|
    ensures |DropSpaces(s)| == |s| <==> (s != "" ==> s[0] != ' ')
    ensures |DropSpaces(s)| == |s| ==> DropSpaces(s) == s
  {
    if s != "" && s[0] == ' ' {
      DropSpacesShape(s[1..]);
    }
  }

  lemma {:induction false} UnindentedShape(lines: seq<string>)
    ensures |Join(Unindented(lines), "\n")| <= |Join(lines, "\n")|
    ensures NoIndent(lines) ==> Unindented(lines) == lines
    ensures |Join(Unindented(lines), "\n")| == |Join(lines, "\n")| ==> NoIndent(lines)
  {
    if lines != [] {
      var line, more := lines[0], lines[1..];
      DropSpacesShape(line);
      UnindentedShape(more);
      assert lines == [line] + more;
      if more != [] {
        JoinMore(line, more);
        JoinMore(DropSpaces(line), Unindented(more));
      }
    }
  }

  lemma {:induction false} SkipEmptyShape(lines: seq<string>)
    ensures |Join(SkipEmpty(lines), "\n")| <= |Join(lines, "\n")|
    ensures lines != [] && lines[0] == "" && Join(lines, "\n") != "" ==>
      |Join(SkipEmpty(lines), "\n")| < |Join(lines, "\n")|
  {
    if lines != [] && lines[0] == "" {
      SkipEmptyShape(lines[1..]);
    }
  }

  lemma ContentFixed(data: string)
    ensures data != "" && Content(SplitLines(data)) == data <==>
      SplitLines(data)[0] != "" && NoIndent(SplitLines(data))
  {
    var lines := SplitLines(data);
    SplitJoined(data);
    UnindentedShape(lines);
    SkipEmptyShape(Unindented(lines));
    assert lines[0] != "" ==> data != "";
  }

  lemma TrimmedFixed(s: string)
    ensures Trim(s) == s <==> Trimmed(s)
  {
    var left, right := TrimShape(s);
    if Trimmed(s) {
      TrimFixed(s);
    }
  }

  lemma {:induction false} FramedNamed(events: seq<Event>)
    ensures !Exposed(FramedAll(events)) && !TypeOrphaned(FramedAll(events))
  {
    if events != [] {
      FramedNamed(events[1..]);
      assert FramedAll(events)[1..] == FramedAll(events[1..]);
    }
  }

  predicate AllNormal(events: seq<Event>) {
    events == [] || (Normal(events[0]) && AllNormal(events[1..]))
  }

  lemma NormalFixed(ev: Event)
    ensures Normal(ev) <==>
      Content(Framed(ev).lines) != "" && Event(TypeOf(Framed(ev), MESSAGE), Content(Framed(ev).lines)) == ev
  {
    ContentFixed(ev.data);
    TrimmedFixed(ev.eventType);
  }

  lemma MeaningCons(f: Frame, frames: seq<Frame>)
    ensures Meaning([f] + frames)
      == if Content(f.lines) == "" then Meaning(frames)
         else [Event(TypeOf(f, MESSAGE), Content(f.lines))] + Meaning(frames)
  {
    assert ([f] + frames)[1..] == frames && [] + Meaning(frames) == Meaning(frames);
  }

  lemma MeaningFixedCons(ev: Event, more: seq<Event>, frames: seq<Frame>)
    requires |Meaning(frames)| <= |more|
    ensures |Meaning([Framed(ev)] + frames)| <= 1 + |more|
    ensures Meaning([Framed(ev)] + frames) == [ev] + more <==> Normal(ev) && Meaning(frames) == more
  {
    var f := Framed(ev);
    MeaningCons(f, frames);
    NormalFixed(ev);
    SameCons(Event(TypeOf(f, MESSAGE), Content(f.lines)), Meaning(frames), ev, more);
  }

  lemma {:induction false} MeaningFixed(events: seq<Event>)
    ensures |Meaning(FramedAll(events))| <= |events|
    ensures Meaning(FramedAll(events)) == events <==> AllNormal(events)
  {
    if events != [] {
      var ev, more := events[0], events[1..];
      MeaningFixed(more);
      MeaningFixedCons(ev, more, FramedAll(more));
      assert events == [ev] + more;
      assert FramedAll(events) == [Framed(ev)] + FramedAll(more);
      assert AllNormal(events) == (Normal(ev) && AllNormal(more));
    }
  }

  /** Printed events come back as they were exactly when each is normal. */
  lemma EventsRoundTrip(events: seq<Event>)
    ensures Events(FRESH, PrintAll(FramedAll(events))) == events <==> AllNormal(events)
  {
    FramedNamed(events);
    DecodedMeaning(FramedAll(events));
    MeaningFixed(events);
  }

  /** The last blank line makes no difference. */
  lemma {:induction false} FinalBlank(p: Pending, lines: seq<string>)
    ensures Events(p, lines + [""]) == Events(p, lines)
    decreases |lines|
  {
    if lines == [] {
      EventsCons(p, "", []);
      assert lines + [""] == [""] + [];
      assert Flushed(p) + [] == Flushed(p) == [] + Flushed(p);
    } else {
      assert (lines + [""])[1..] == lines[1..] + [""];
      FinalBlank(Fed(p, lines[0]), lines[1..]);
    }
  }

  /** From bytes to events: printed normal events whose lines can be written are read
      back, with or without the final blank line. */
  lemma TextRoundTrip(events: seq<Event>)
    requires AllNormal(events) && PlainLines(PrintAll(FramedAll(events)))
    ensures var lines := PrintAll(FramedAll(events));
      && Events(FRESH, Lines(Unlines(lines))) == events
      && (events != [] ==> Events(FRESH, Lines(Unlines(lines[..|lines| - 1]))) == events)
  {
    var lines := PrintAll(FramedAll(events));
    LinesRoundTrip(lines);
    EventsRoundTrip(events);
    assert events != [] ==> FramedAll(events) != [];
    if events != [] {
      EndsBlank(FramedAll(events));
      var short := lines[..|lines| - 1];
      PlainShorter(short, "");
      LinesRoundTrip(short);
      FinalBlank(FRESH, short);
    }
  }

  lemma {:induction false} PlainShorter(lines: seq<string>, line: string)
    requires PlainLines(lines + [line])
    ensures PlainLines(lines)
  {
    if lines != [] {
      assert (lines + [line])[0] == lines[0] && (lines + [line])[1..] == lines[1..] + [line];
      PlainShorter(lines[1..], line);
    }
  }

  lemma {:induction false} EndsBlank(frames: seq<Frame>)
    requires frames != []
    ensures PrintAll(frames) != [] && PrintAll(frames) == PrintAll(frames)[..|PrintAll(frames)| - 1] + [""]
  {
    if |frames| > 1 {
      EndsBlank(frames[1..]);
    } else {
      assert PrintAll(frames[1..]) == [];
    }
  }

  // ----- denying what the run asks to confirm -----

  /** How one request to the assistant ends. Replies, call ids and tool names come from the
      decoder trimmed, so one that is blank is empty. */
  datatype Outcome = Answer(reply: string) | Confirm(callId: string, tool: string) | Failed(message: string)

  const MAX_DENIALS := 3

  /** What Slack shows: the assistant's reply, or that a tool had to be denied, by its
      name unless that is empty. */
  datatype Shown = Reply(text: string) | Unavailable(tool: string)

  predicate Deniable(o: Outcome) {
    o.Confirm? && o.callId != ""
  }

  /** The last tool with a name among the first `n` confirmations. */
  function LastTool(outcome: nat -> Outcome, n: nat): string {
    if n == 0 then ""
    else
      var o := outcome(n - 1);
      if o.Confirm? && o.tool != "" then o.tool else LastTool(outcome, n - 1)
  }

  /** `outcome(0)` is the run's, `outcome(k)` that of the k-th denial. Every denial answers
      a confirmation that can be answered, there are at most three, and the last outcome
      decides the reply. */
  method RunText(outcome: nat -> Outcome) returns (r: Result<Shown, Outcome>, denials: nat)
    ensures denials <= 3
    ensures forall k :: 0 <= k < denials ==> outcome(k).Confirm? && outcome(k).callId != ""
    ensures outcome(denials).Confirm? && outcome(denials).callId != "" ==>
      denials == 3 && r == Ok(Unavailable(LastTool(outcome, denials + 1)))
    ensures outcome(denials).Failed? || (outcome(denials).Confirm? && outcome(denials).callId == "") ==>
      r == Err(outcome(denials))
    ensures outcome(denials).Answer? ==> r == Ok(
      if denials > 0 && outcome(denials).reply == "" then Unavailable(LastTool(outcome, denials))
      else Reply(outcome(denials).reply))
  {
    var last := outcome(0);
    var deniedTool := "";
    denials := 0;
    while true
      invariant denials <= MAX_DENIALS && last == outcome(denials) && deniedTool == LastTool(outcome, denials)
      invariant forall k :: 0 <= k < denials ==> Deniable(outcome(k))
      invariant denials > 0 && last.Answer? ==> last.reply != ""
      decreases MAX_DENIALS - denials
    {
      if !last.Confirm? {
        return if last.Answer? then Ok(Reply(last.reply)) else Err(last), denials;
      }
      if last.tool != "" {
        deniedTool := last.tool;
      }
      if last.callId == "" {
        return Err(last), denials;
      }
      if denials >= MAX_DENIALS {
        return Ok(Unavailable(deniedTool)), denials;
      }
      denials := denials + 1;
      last := outcome(denials);
      if last.Answer? && last.reply == "" {
        return Ok(Unavailable(deniedTool)), denials;
      }
    }
  }
}
