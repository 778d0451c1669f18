/** The event-stream parser of `apps/web/src/lib/sse.ts`, for lines that end in LF and `data` fields
    only (section 9.2.6 of the WHATWG HTML Living Standard).  A read is its decoded text.  */
module Sse {

  // ---------------------------------------------------------------------------
  // Lines
  // ---------------------------------------------------------------------------

  /** `text.split('\n')` */
  function Split(text: string): (lines: seq<string>)
    ensures lines != []
  {
    if text == "" then [""]
    else
      var rest := Split(text[1..]);
      if text[0] == '\n' then [""] + rest
      else [[text[0]] + rest[0]] + rest[1..]
  }

  /** `lines.join('\n')` */
  function Join(lines: seq<string>): string {
    if lines == [] then ""
    else if |lines| == 1 then lines[0]
    else lines[0] + "\n" + Join(lines[1..])
  }

  lemma {:induction false} JoinSplit(text: string)
    ensures Join(Split(text)) == text
  {
    if text != "" {
      var rest := Split(text[1..]);
      JoinSplit(text[1..]);
      if text[0] == '\n' {
        assert Join([""] + rest) == "\n" + Join(rest);
      } else {
        JoinLonger(text[0], rest);
      }
      assert text == [text[0]] + text[1..];
    }
  }

  lemma JoinLonger(c: char, lines: seq<string>)
    requires lines != []
    ensures Join([[c] + lines[0]] + lines[1..]) == [c] + Join(lines)
  {
    var longer := [[c] + lines[0]] + lines[1..];
    if |lines| > 1 {
      assert longer[1..] == lines[1..];
    }
  }

  predicate IsLine(line: string) {
    '\n' !in line
  }

  ghost predicate AreLines(lines: seq<string>) {
    forall i :: 0 <= i < |lines| ==> IsLine(lines[i])
  }

  lemma {:induction false} SplitGivesLines(text: string)
    ensures AreLines(Split(text))
  {
    if text != "" {
      SplitGivesLines(text[1..]);
    }
  }

  lemma {:induction false} SplitOfLine(line: string)
    requires IsLine(line)
    ensures Split(line) == [line]
  {
    if line != "" {
      SplitOfLine(line[1..]);
      assert line == [line[0]] + line[1..];
    }
  }

  lemma {:induction false} SplitOfJoined(line: string, text: string)
    requires IsLine(line)
    ensures Split(line + "\n" + text) == [line] + Split(text)
  {
    var whole := line + "\n" + text;
    if line == "" {
      assert whole[1..] == text;
    } else {
      assert whole[1..] == line[1..] + "\n" + text;
      SplitOfJoined(line[1..], text);
      assert line == [line[0]] + line[1..];
    }
  }

  lemma {:induction false} SplitJoin(lines: seq<string>)
    requires lines != [] && AreLines(lines)
    ensures Split(Join(lines)) == lines
  {
    if |lines| == 1 {
      SplitOfLine(lines[0]);
    } else {
      SplitJoin(lines[1..]);
      SplitOfJoined(lines[0], Join(lines[1..]));
    }
  }

  // ---------------------------------------------------------------------------
  // Frames
  // ---------------------------------------------------------------------------

  predicate StartsWith(s: string, prefix: string) {
    |prefix| <= |s| && s[..|prefix|] == prefix
  }

  /** `.replace(/^ /, '')` */
  function DropSpace(s: string): string {
    if s != "" && s[0] == ' ' then s[1..] else s
  }

  function DataFields(lines: seq<string>): seq<string> {
    if lines == [] then []
    else (if StartsWith(lines[0], "data:") then [DropSpace(lines[0][5..])] else []) + DataFields(lines[1..])
  }

  /** The payload of one frame; empty when it is not an event. */
  function Data(frame: string): string {
    Join(DataFields(Split(frame)))
  }

  /** `text.indexOf('\n\n')` */
  function Sep(text: string): (r: int)
    ensures r == -1 || 0 <= r <= |text| - 2
  {
    if |text| < 2 then -1
    else if text[0] == '\n' && text[1] == '\n' then 0
    else
      var r := Sep(text[1..]);
      if r < 0 then -1 else r + 1
  }

  function Event(frame: string): seq<string> {
    if Data(frame) == "" then [] else [Data(frame)]
  }

  /** The events of all complete frames of a text. */
  function Events(text: string): seq<string>
    decreases |text|
  {
    var sep := Sep(text);
    if sep < 0 then [] else Event(text[..sep]) + Events(text[sep + 2..])
  }

  /** What is left after the last complete frame. */
  function Rest(text: string): string
    decreases |text|
  {
    var sep := Sep(text);
    if sep < 0 then text else Rest(text[sep + 2..])
  }

  lemma {:induction false} SepIsStable(a: string, b: string)
    requires Sep(a) >= 0
    ensures Sep(a + b) == Sep(a)
  {
    if !(a[0] == '\n' && a[1] == '\n') {
      SepIsStable(a[1..], b);
      assert (a + b)[1..] == a[1..] + b;
    }
  }

  /** Later text continues where the complete frames end. */
  lemma {:induction false} EventsAppend(a: string, b: string)
    ensures Events(a + b) == Events(a) + Events(Rest(a) + b)
    ensures Rest(a + b) == Rest(Rest(a) + b)
    decreases |a|
  {
    var sep := Sep(a);
    if sep >= 0 {
      var frame, more := a[..sep], a[sep + 2..];
      SepIsStable(a, b);
      AppendSlices(a, b, sep);
      FirstFrame(a, frame, more);
      FirstFrame(a + b, frame, more + b);
      EventsAppend(more, b);
      AppendAssociative(Event(frame), Events(more), Events(Rest(more) + b));
    }
  }

  lemma AppendSlices(a: string, b: string, k: nat)
    requires k + 2 <= |a|
    ensures (a + b)[..k] == a[..k] && (a + b)[k + 2..] == a[k + 2..] + b
  {
  }

  lemma AppendAssociative(a: seq<string>, b: seq<string>, c: seq<string>)
    ensures a + (b + c) == a + b + c
  {
  }

  lemma FirstFrame(text: string, frame: string, more: string)
    requires Sep(text) >= 0 && frame == text[..Sep(text)] && more == text[Sep(text) + 2..]
    ensures Events(text) == Event(frame) + Events(more) && Rest(text) == Rest(more)
  {
  }

  function Concat(pieces: seq<string>): string {
    if pieces == [] then "" else Concat(pieces[..|pieces| - 1]) + pieces[|pieces| - 1]
  }

  lemma FrameTaken(events: seq<string>, buffer: string)
    requires Sep(buffer) != -1
    ensures var sep := Sep(buffer);
      && Rest(buffer) == Rest(buffer[sep + 2..])
      && events + Events(buffer) == (events + Event(buffer[..sep])) + Events(buffer[sep + 2..])
  {
    Regrouped(events, Event(buffer[..Sep(buffer)]), Events(buffer[Sep(buffer) + 2..]));
  }

  lemma Regrouped(a: seq<string>, b: seq<string>, c: seq<string>)
    ensures a + (b + c) == (a + b) + c
  {
  }

  lemma EventAdded(events: seq<string>, frame: string)
    ensures events + Event(frame) == if Data(frame) != "" then events + [Data(frame)] else events
  {
    assert events + [] == events;
  }

  /** The body of the inner loop: takes one complete frame off the buffer. */
  method TakeFrame(events: seq<string>, buffer: string, sep: nat) returns (events': seq<string>, buffer': string)
    requires sep == Sep(buffer)
    ensures events' == events + Event(buffer[..sep]) && buffer' == buffer[sep + 2..]
  {
    var frame := buffer[..sep];
    buffer' := buffer[sep + 2..];
    var data := Data(frame);
    EventAdded(events, frame);
    events' := if data != "" then events + [data] else events;
  }

  /** The inner loop: takes the complete frames off the buffer. */
  method TakeFrames(text: string) returns (events: seq<string>, buffer: string)
    ensures events == Events(text) && buffer == Rest(text)
  {
    events, buffer := [], text;
    var sep := Sep(buffer);
    while sep != -1
      invariant sep == Sep(buffer)
      invariant events + Events(buffer) == Events(text) && Rest(buffer) == Rest(text)
      decreases |buffer|
    {
      FrameTaken(events, buffer);
      events, buffer := TakeFrame(events, buffer, sep);
      sep := Sep(buffer);
    }
  }

  /** `parseSseStream`.  After every read, exactly the events of the text so far have been yielded. */
  method ParseSseStream(pieces: seq<string>) returns (events: seq<string>, yieldedAfter: seq<nat>)
    ensures events == Events(Concat(pieces))
    ensures |yieldedAfter| == |pieces|
    ensures forall i :: 0 <= i < |pieces| ==> yieldedAfter[i] == |Events(Concat(pieces[..i + 1]))|
  {
    events, yieldedAfter := [], [];
    var buffer := "";
    for i := 0 to |pieces|
      invariant events == Events(Concat(pieces[..i])) && buffer == Rest(Concat(pieces[..i]))
      invariant |yieldedAfter| == i
      invariant forall j :: 0 <= j < i ==> yieldedAfter[j] == |Events(Concat(pieces[..j + 1]))|
    {
      assert pieces[..i + 1][..i] == pieces[..i];
      EventsAppend(Concat(pieces[..i]), pieces[i]);
      buffer := buffer + pieces[i];
      var more;
      more, buffer := TakeFrames(buffer);
      events := events + more;
      yieldedAfter := yieldedAfter + [|events|];
    }
    assert pieces[..|pieces|] == pieces;
  }

  /** Events already yielded are never taken back, and more text only adds to them. */
  lemma {:induction false} EventsGrow(a: string, b: string)
    ensures Events(a) <= Events(a + b)
  {
    EventsAppend(a, b);
  }

  // ---------------------------------------------------------------------------
  // Encoding
  // ---------------------------------------------------------------------------

  function DataLines(lines: seq<string>): seq<string> {
    if lines == [] then [] else ["data: " + lines[0]] + DataLines(lines[1..])
  }

  /** One frame: every line of the payload as a `data` field, then a blank line. */
  function Encode(payload: string): string {
    Join(DataLines(Split(payload))) + "\n\n"
  }

  function EncodeAll(payloads: seq<string>): string {
    if payloads == [] then "" else Encode(payloads[0]) + EncodeAll(payloads[1..])
  }

  function NonEmpty(payloads: seq<string>): seq<string> {
    if payloads == [] then []
    else (if payloads[0] == "" then [] else [payloads[0]]) + NonEmpty(payloads[1..])
  }

  lemma {:induction false} DataLinesAreLines(lines: seq<string>)
    requires AreLines(lines)
    ensures |DataLines(lines)| == |lines| && AreLines(DataLines(lines))
    ensures forall i :: 0 <= i < |lines| ==> DataLines(lines)[i] != ""
  {
    if lines != [] {
      DataLinesAreLines(lines[1..]);
    }
  }

  lemma {:induction false} FieldsOfDataLines(lines: seq<string>)
    ensures DataFields(DataLines(lines)) == lines
  {
    if lines != [] {
      FieldsOfDataLines(lines[1..]);
      assert DataLines(lines)[1..] == DataLines(lines[1..]);
      assert ("data: " + lines[0])[5..] == " " + lines[0];
    }
  }

  lemma DataOfEncoded(payload: string)
    ensures Data(Join(DataLines(Split(payload)))) == payload
  {
    SplitGivesLines(payload);
    DataLinesAreLines(Split(payload));
    SplitJoin(DataLines(Split(payload)));
    FieldsOfDataLines(Split(payload));
    JoinSplit(payload);
  }

  /** No blank line inside: the text ends at its first blank line. */
  lemma {:induction false} SepAfterLine(line: string, text: string)
    requires IsLine(line) && line != ""
    ensures Sep(line + text) == if Sep(text) < 0 then -1 else |line| + Sep(text)
  {
    if |line| == 1 {
      assert (line + text)[1..] == text;
    } else {
      SepAfterLine(line[1..], text);
      assert (line + text)[1..] == line[1..] + text;
    }
  }

  lemma {:induction false} SepOfFrame(lines: seq<string>, rest: string)
    requires lines != [] && AreLines(lines) && forall i :: 0 <= i < |lines| ==> lines[i] != ""
    ensures Sep(Join(lines) + "\n\n" + rest) == |Join(lines)|
  {
    var tail := "\n\n" + rest;
    assert Join(lines) + "\n\n" + rest == Join(lines) + tail;
    if |lines| == 1 {
      SepAfterLine(lines[0], tail);
    } else {
      var below := Join(lines[1..]) + tail;
      SepOfFrame(lines[1..], rest);
      assert below == Join(lines[1..]) + "\n\n" + rest;
      assert Join(lines) + tail == lines[0] + ("\n" + below);
      JoinStartsWithLine(lines[1..]);
      assert ("\n" + below)[1..] == below && below[0] != '\n';
      SepAfterLine(lines[0], "\n" + below);
    }
  }

  lemma JoinStartsWithLine(lines: seq<string>)
    requires lines != [] && AreLines(lines) && lines[0] != ""
    ensures Join(lines) != "" && Join(lines)[0] != '\n'
  {
    assert lines[0][0] in lines[0];
  }

  /** Encoding payloads and parsing them back returns them, whatever lines they are made of; only
      empty payloads are not events. */
  lemma {:induction false} EncodedEvents(payloads: seq<string>)
    ensures Events(EncodeAll(payloads)) == NonEmpty(payloads)
    ensures Rest(EncodeAll(payloads)) == ""
  {
    if payloads != [] {
      var lines := DataLines(Split(payloads[0]));
      var frame, rest := Join(lines), EncodeAll(payloads[1..]);
      EncodedEvents(payloads[1..]);
      SplitGivesLines(payloads[0]);
      DataLinesAreLines(Split(payloads[0]));
      SepOfFrame(lines, rest);
      DataOfEncoded(payloads[0]);
      assert EncodeAll(payloads) == frame + "\n\n" + rest;
      assert EncodeAll(payloads)[..|frame|] == frame && EncodeAll(payloads)[|frame| + 2..] == rest;
    }
  }

  // ---------------------------------------------------------------------------
  // Which lines count
  // ---------------------------------------------------------------------------

  /** A line of a frame: a data field with a space after the colon, one without, or anything else. */
  datatype Line = Spaced(value: string) | Bare(value: string) | Other(line: string)

  ghost predicate ValidLine(l: Line) {
    match l
    case Spaced(value) => IsLine(value)
    case Bare(value) => IsLine(value) && (value == "" || value[0] != ' ')
    case Other(line) => IsLine(line) && !("data:" <= line)
  }

  function TextOf(l: Line): string {
    match l
    case Spaced(value) => "data: " + value
    case Bare(value) => "data:" + value
    case Other(line) => line
  }

  function TextsOf(lines: seq<Line>): seq<string> {
    if lines == [] then [] else [TextOf(lines[0])] + TextsOf(lines[1..])
  }

  function ValuesOf(lines: seq<Line>): seq<string> {
    if lines == [] then []
    else (if lines[0].Other? then [] else [lines[0].value]) + ValuesOf(lines[1..])
  }

  lemma LineIsData(l: Line)
    requires ValidLine(l)
    ensures IsLine(TextOf(l))
    ensures StartsWith(TextOf(l), "data:") <==> !l.Other?
    ensures !l.Other? ==> DropSpace(TextOf(l)[5..]) == l.value
  {
    var text := TextOf(l);
    match l {
      case Spaced(value) => assert text[..5] == "data:" && text[5..] == " " + value && (" " + value)[1..] == value;
      case Bare(value) => assert text[..5] == "data:" && text[5..] == value;
      case Other(line) => assert |line| >= 5 && line[..5] == "data:" ==> "data:" <= line;
    }
  }

  lemma {:induction false} ValuesAreData(lines: seq<Line>)
    requires forall i :: 0 <= i < |lines| ==> ValidLine(lines[i])
    ensures DataFields(TextsOf(lines)) == ValuesOf(lines) && AreLines(TextsOf(lines))
    ensures |TextsOf(lines)| == |lines|
  {
    if lines != [] {
      ValuesAreData(lines[1..]);
      LineIsData(lines[0]);
      assert TextsOf(lines)[1..] == TextsOf(lines[1..]);
    }
  }

  /** The payload of a frame: the values of its data fields, whether or not a space follows the colon, one
      under the other; its other lines do not count. */
  lemma {:induction false} FramePayload(lines: seq<Line>)
    requires lines != [] && forall i :: 0 <= i < |lines| ==> ValidLine(lines[i])
    ensures Data(Join(TextsOf(lines))) == Join(ValuesOf(lines))
  {
    ValuesAreData(lines);
    SplitJoin(TextsOf(lines));
  }
}
