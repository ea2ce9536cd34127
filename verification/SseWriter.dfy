/**
 The framing read back from any writer of the format, not just this one: comments, other
 fields, several data lines to an event, the optional space, LF or CRLF, a cut-off last event.
 */
module SseWriter {
  import opened Base
  import opened Sse
  import opened SseLaws

  /** A line as upstream may write it: data, with or without the one space, or anything else; ended by LF or CRLF. */
  datatype Line =
    | Data(value: Bytes, space: bool, crlf: bool)
    | Other(text: Bytes, crlf: bool)  // a comment or another field

  /** What stands on the line before its end. */
  function TextOf(line: Line): Bytes {
    match line
    case Data(value, space, _) => DATA_FIELD + (if space then [SPACE] else []) + value
    case Other(text, _) => text
  }

  /** A data value starts with a space only behind the one space; other lines are not empty and no data lines. */
  predicate WellFormed(line: Line) {
    LF !in TextOf(line) &&
    (!line.crlf && TextOf(line) != [] ==> TextOf(line)[|TextOf(line)| - 1] != CR) &&
    match line
    case Data(value, space, _) => !space && value != [] ==> value[0] != SPACE
    case Other(text, _) => text != [] && !(DATA_FIELD <= text)
  }

  function Raw(line: Line): Bytes {
    TextOf(line) + if line.crlf then [CR] else []
  }

  function LinesBytes(lines: seq<Line>): Bytes {
    if lines == [] then [] else Raw(lines[0]) + [LF] + LinesBytes(lines[1..])
  }

  /** An event: its lines and the blank line that ends it. */
  datatype Event = Event(lines: seq<Line>, crlf: bool)

  function EventBytes(e: Event): Bytes {
    LinesBytes(e.lines) + (if e.crlf then [CR] else []) + [LF]
  }

  function EventsBytes(events: seq<Event>): Bytes {
    if events == [] then [] else EventBytes(events[0]) + EventsBytes(events[1..])
  }

  function ValueOf(line: Line): seq<Bytes> {
    if line.Data? then [line.value] else []
  }

  /** The data values of an event, in order. */
  function Values(lines: seq<Line>): seq<Bytes> {
    if lines == [] then [] else ValueOf(lines[0]) + Values(lines[1..])
  }

  function LinesJoined(values: seq<Bytes>): Bytes
    requires values != []
  {
    if |values| == 1 then values[0] else values[0] + [LF] + LinesJoined(values[1..])
  }

  /** What an event delivers: its data values joined by LF, or nothing if it has none. */
  function Delivery(lines: seq<Line>): seq<Bytes> {
    if Values(lines) == [] then [] else [LinesJoined(Values(lines))]
  }

  function Deliveries(events: seq<Event>): seq<Bytes> {
    if events == [] then [] else Delivery(events[0].lines) + Deliveries(events[1..])
  }

  predicate AllWellFormed(lines: seq<Line>) {
    forall line :: line in lines ==> WellFormed(line)
  }

  /** The open event after more data values. */
  function Taking(data: Option<Bytes>, values: seq<Bytes>): Option<Bytes> {
    if values == [] then data
    else Some(if data.Some? then data.value + [LF] + LinesJoined(values) else LinesJoined(values))
  }

  lemma TakingNext(data: Option<Bytes>, value: Bytes, values: seq<Bytes>)
    ensures Taking(Taking(data, [value]), values) == Taking(data, [value] + values)
  {
    if values != [] { assert ([value] + values)[1..] == values; }
    if data.Some? && values != [] {
      assert data.value + [LF] + value + [LF] + LinesJoined(values) ==
             data.value + [LF] + (value + [LF] + LinesJoined(values));
    }
  }

  lemma StripsOnce(text: Bytes, crlf: bool)
    requires !crlf && text != [] ==> text[|text| - 1] != CR
    ensures TrimSuffixCR(text + if crlf then [CR] else []) == text
  {
    assert text + [] == text;
  }

  /** One written line, read: a data line adds its value, any other line changes nothing. */
  lemma LineTaken(f: Frame, line: Line)
    requires WellFormed(line)
    ensures EndLine(PATIENT, f, Raw(line)) ==
            Reading(f.(data := if line.Data? then Taking(f.data, [line.value]) else f.data), [])
  {
    StripsOnce(TextOf(line), line.crlf);
    match line
    case Data(value, space, _) =>
      var text := TextOf(line);
      assert text[..5] == DATA_FIELD;
      if space { assert text[6..] == value; } else { assert text[5..] == value; }
    case Other(text, _) =>
  }

  lemma LineReadBack(limit: int, f: Frame, line: Line, rest: Bytes)
    requires WellFormed(line) && Held(f) + |Raw(line)| <= limit
    ensures Read(limit, PATIENT, f, Raw(line) + [LF] + rest) ==
            Read(limit, PATIENT, f.(data := if line.Data? then Taking(f.data, [line.value]) else f.data), rest)
  {
    hide EndLine, Read;
    LineTaken(f, line);
    ReadLine(limit, PATIENT, f, Raw(line), rest);
  }

  lemma HeldGrows(f: Frame, line: Line)
    requires WellFormed(line)
    ensures Held(f.(data := if line.Data? then Taking(f.data, [line.value]) else f.data)) <=
            Held(f) + |Raw(line)| + 1
  {
  }

  lemma {:induction false} LinesReadBack(limit: int, f: Frame, lines: seq<Line>, rest: Bytes)
    requires AllWellFormed(lines) && Held(f) + |LinesBytes(lines)| <= limit
    ensures Read(limit, PATIENT, f, LinesBytes(lines) + rest) ==
            Read(limit, PATIENT, f.(data := Taking(f.data, Values(lines))), rest)
    ensures Held(f.(data := Taking(f.data, Values(lines)))) <= Held(f) + |LinesBytes(lines)|
    decreases |lines|
  {
    hide Read, Raw, WellFormed, Taking;
    if lines == [] {
      assert LinesBytes(lines) + rest == rest;
      TakingNothing(f.data);
    } else {
      var line, more := lines[0], LinesBytes(lines[1..]);
      assert line in lines;
      var g := f.(data := if line.Data? then Taking(f.data, [line.value]) else f.data);
      assert LinesBytes(lines) + rest == Raw(line) + [LF] + (more + rest);
      LineReadBack(limit, f, line, more + rest);
      HeldGrows(f, line);
      LinesReadBack(limit, g, lines[1..], rest);
      if line.Data? { TakingNext(f.data, line.value, Values(lines[1..])); }
      else { assert Values(lines) == Values(lines[1..]); }
    }
  }

  lemma TakingNothing(data: Option<Bytes>)
    ensures Taking(data, []) == data
  {
  }

  lemma BlankReadBack(limit: int, f: Frame, crlf: bool, rest: Bytes)
    requires Held(f) + 1 <= limit
    ensures Read(limit, PATIENT, f, (if crlf then [CR] else []) + [LF] + rest) ==
            Read(limit, PATIENT, Frame(None, f.delivered + if f.data.Some? then [f.data.value] else []), rest)
  {
    hide Read;
    assert f.delivered + [] == f.delivered;
    ReadLine(limit, PATIENT, f, if crlf then [CR] else [], rest);
  }

  lemma EventReadBack(limit: int, delivered: seq<Bytes>, e: Event, rest: Bytes)
    requires AllWellFormed(e.lines) && |EventBytes(e)| <= limit
    ensures Read(limit, PATIENT, Frame(None, delivered), EventBytes(e) + rest) ==
            Read(limit, PATIENT, Frame(None, delivered + Delivery(e.lines)), rest)
  {
    hide Read, LinesBytes, Values, AllWellFormed;
    var end: Bytes := if e.crlf then [CR] else [];
    assert EventBytes(e) + rest == LinesBytes(e.lines) + (end + [LF] + rest);
    LinesReadBack(limit, Frame(None, delivered), e.lines, end + [LF] + rest);
    BlankReadBack(limit, Frame(Taking(None, Values(e.lines)), delivered), e.crlf, rest);
  }

  lemma {:induction false} EventsReadBack(limit: int, delivered: seq<Bytes>, events: seq<Event>, rest: Bytes)
    requires forall e :: e in events ==> AllWellFormed(e.lines) && |EventBytes(e)| <= limit
    ensures Read(limit, PATIENT, Frame(None, delivered), EventsBytes(events) + rest) ==
            Read(limit, PATIENT, Frame(None, delivered + Deliveries(events)), rest)
    decreases |events|
  {
    hide Read, EventBytes, Delivery, AllWellFormed;
    if events == [] {
      assert EventsBytes(events) + rest == rest && delivered + [] == delivered;
    } else {
      var e, more := events[0], EventsBytes(events[1..]);
      assert e in events && EventsBytes(events) + rest == EventBytes(e) + (more + rest);
      EventReadBack(limit, delivered, e, more + rest);
      EventsReadBack(limit, delivered + Delivery(e.lines), events[1..], rest);
      assert delivered + Delivery(e.lines) + Deliveries(events[1..]) == delivered + Deliveries(events);
    }
  }

  /** An event cut off by the end of input: whole lines, and perhaps a line that lacks its LF. */
  datatype Rest = Rest(lines: seq<Line>, last: Option<Line>)

  function RestBytes(rest: Rest): Bytes {
    LinesBytes(rest.lines) + if rest.last.Some? then Raw(rest.last.value) else []
  }

  function RestLines(rest: Rest): seq<Line> {
    rest.lines + if rest.last.Some? then [rest.last.value] else []
  }

  lemma {:induction false} ValuesSnoc(lines: seq<Line>, line: Line)
    ensures Values(lines + [line]) == Values(lines) + ValueOf(line)
  {
    hide ValueOf;
    if lines == [] {
      assert ([] + [line])[1..] == [];
      assert ValueOf(line) + [] == [] + ValueOf(line);
    } else {
      assert (lines + [line])[1..] == lines[1..] + [line] && (lines + [line])[0] == lines[0];
      ValuesSnoc(lines[1..], line);
      Associative(ValueOf(lines[0]), Values(lines[1..]), ValueOf(line));
    }
  }

  lemma {:induction false} TakingSnoc(data: Option<Bytes>, values: seq<Bytes>, value: Bytes)
    ensures Taking(Taking(data, values), [value]) == Taking(data, values + [value])
    decreases |values|
  {
    hide Taking;
    if values == [] {
      TakingNothing(data);
      assert [] + [value] == [value];
    } else {
      assert values == [values[0]] + values[1..] && values + [value] == [values[0]] + (values[1..] + [value]);
      TakingNext(data, values[0], values[1..]);
      TakingNext(data, values[0], values[1..] + [value]);
      TakingSnoc(Taking(data, [values[0]]), values[1..], value);
    }
  }

  lemma RawHasNoNewline(line: Line)
    requires WellFormed(line)
    ensures LF !in Raw(line) && Raw(line) != []
  {
  }

  /** The end of input after whole lines. */
  lemma RestAtEof(delivered: seq<Bytes>, rest: Rest)
    requires AllWellFormed(RestLines(rest))
    ensures AtEof(PATIENT, Frame(Taking(None, Values(rest.lines)), delivered),
                  if rest.last.Some? then Raw(rest.last.value) else []) ==
            Reading(Frame(None, delivered + Delivery(RestLines(rest))), [])
  {
    hide EndLine, Values, Raw, WellFormed, LinesJoined;
    var f := Frame(Taking(None, Values(rest.lines)), delivered);
    assert delivered + [] == delivered;
    if rest.last.None? {
      assert RestLines(rest) == rest.lines;
    } else {
      var line := rest.last.value;
      assert RestLines(rest)[|rest.lines|] == line;
      RawHasNoNewline(line);
      LineTaken(f, line);
      ValuesSnoc(rest.lines, line);
      assert Values(rest.lines) + [] == Values(rest.lines);
      if line.Data? { TakingSnoc(None, Values(rest.lines), line.value); }
    }
  }

  /**
   Whatever mix of comments, other fields and data lines a writer sends, with or without the
   space, ended by LF or CRLF, and however its last event is cut off: each event is delivered as
   its data values joined by LF, and events without data not at all.
   */
  lemma WriteThenRead(limit: int, events: seq<Event>, rest: Rest, ending: Ending)
    requires forall e :: e in events ==> AllWellFormed(e.lines) && |EventBytes(e)| <= limit
    requires AllWellFormed(RestLines(rest)) && |RestBytes(rest)| <= limit
    ensures Stream(limit, PATIENT, EventsBytes(events) + RestBytes(rest), ending) ==
            if ending.Eof? then (Deliveries(events) + Delivery(RestLines(rest)), Success)
            else (Deliveries(events), ReadFailed)
  {
    hide Read, EventBytes, EventsBytes, LinesBytes, Values, Raw, WellFormed, AtEof, Delivery;
    var delivered := Deliveries(events);
    var last := if rest.last.Some? then Raw(rest.last.value) else [];
    EventsReadBack(limit, [], events, RestBytes(rest));
    assert [] + delivered == delivered;
    assert AllWellFormed(rest.lines) by { assert forall line :: line in rest.lines ==> line in RestLines(rest); }
    LinesReadBack(limit, Frame(None, delivered), rest.lines, last);
    if rest.last.Some? {
      assert RestLines(rest)[|rest.lines|] == rest.last.value;
      RawHasNoNewline(rest.last.value);
    }
    ReadNothing(limit, PATIENT, Frame(Taking(None, Values(rest.lines)), delivered), last);
    RestAtEof(delivered, rest);
  }

  /** A line over the limit is an error, once all events before it have been delivered. */
  lemma OversizedLine(limit: int, events: seq<Event>, text: Bytes, more: Bytes, ending: Ending)
    requires forall e :: e in events ==> AllWellFormed(e.lines) && |EventBytes(e)| <= limit
    requires LF !in text && |text| > limit && text != []
    ensures Stream(limit, PATIENT, EventsBytes(events) + (text + more), ending) == (Deliveries(events), Oversized)
  {
    hide Read, EventsBytes, EventBytes, AllWellFormed;
    EventsReadBack(limit, [], events, text + more);
    assert [] + Deliveries(events) == Deliveries(events);
    IndexOfPast(text, more, LF);
    ReadOnce(limit, PATIENT, Frame(None, Deliveries(events)), text + more, IndexOf(text + more, LF));
  }
}
