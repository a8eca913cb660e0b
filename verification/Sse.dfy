/** Server-sent event framing and field parsing (src/http.rs). */
module Sse {
  import opened Wrappers
  import opened Text

  datatype RawSseEvent = RawSseEvent(event: Option<string>, data: string)

  datatype SseError = UnsupportedField | MissingData | IncompleteEvent

  // -------- Delimiters --------

  datatype Boundary = Boundary(start: nat, len: nat)

  function Earlier(a: Option<Boundary>, b: Option<Boundary>): Option<Boundary> {
    if a.None? then b else if b.None? then a else if b.value.start < a.value.start then b else a
  }

  function FindDelimiter(buffer: string, delimiter: string): Option<Boundary> {
    match Find(buffer, delimiter) case None => None case Some(i) => Some(Boundary(i, |delimiter|))
  }

  /** `sse_event_boundary`: the earliest of the three delimiters. */
  function SseEventBoundary(buffer: string): (r: Option<Boundary>)
    ensures r.Some? ==> r.value.start + r.value.len <= |buffer| && 0 < r.value.len
  {
    Earlier(Earlier(FindDelimiter(buffer, "\r\n\r\n"), FindDelimiter(buffer, "\n\n")), FindDelimiter(buffer, "\r\r"))
  }

  /** A delimiter of length `len` starts at `i`. */
  predicate DelimiterAt(s: string, i: int, len: nat) {
    (len == 4 && Occurs(s, "\r\n\r\n", i)) || (len == 2 && (Occurs(s, "\n\n", i) || Occurs(s, "\r\r", i)))
  }

  lemma BoundaryMeaning(s: string)
    ensures var b := SseEventBoundary(s);
            && (b.Some? ==> DelimiterAt(s, b.value.start, b.value.len))
            && (forall i, len :: DelimiterAt(s, i, len) ==> b.Some? && b.value.start <= i)
  {
  }

  lemma OneDelimiterLength(s: string, i: nat, a: nat, b: nat)
    requires DelimiterAt(s, i, a) && DelimiterAt(s, i, b)
    ensures a == b
  {
    assert s[i..i + 2] == [s[i], s[i + 1]];
    assert a == 4 || b == 4 ==> s[i..i + 4] == [s[i], s[i + 1], s[i + 2], s[i + 3]];
  }

  lemma BoundaryIs(s: string, i: nat, len: nat)
    requires DelimiterAt(s, i, len)
    requires forall j, n :: j < i ==> !DelimiterAt(s, j, n)
    ensures SseEventBoundary(s) == Some(Boundary(i, len))
  {
    hide SseEventBoundary;
    BoundaryMeaning(s);
    var b := SseEventBoundary(s).value;
    assert b.start == i;
    OneDelimiterLength(s, i, b.len, len);
  }

  /** A delimiter complete within a prefix stays the earliest one in every extension. */
  lemma BoundaryExtends(s: string, more: string)
    requires SseEventBoundary(s).Some?
    ensures SseEventBoundary(s + more) == SseEventBoundary(s)
  {
    BoundaryMeaning(s);
    var Boundary(i, len) := SseEventBoundary(s).value;
    var t := s + more;
    assert DelimiterAt(t, i, len) by {
      assert t[i..i + len] == s[i..i + len];
    }
    forall j, n | j < i ensures !DelimiterAt(t, j, n) {
      if DelimiterAt(t, j, n) {
        NoEarlierDelimiter(s, more, i, len, j, n);
      }
    }
    BoundaryIs(t, i, len);
  }

  lemma NoEarlierDelimiter(s: string, more: string, i: nat, len: nat, j: nat, n: nat)
    requires DelimiterAt(s, i, len) && DelimiterAt(s + more, j, n) && j < i
    ensures DelimiterAt(s, j, n)
  {
    LaterDelimiterEndsLater(s, more, i, len, j, n);
    assert (s + more)[j..j + n] == s[j..j + n];
  }

  /** Only the four-unit delimiter is long enough to start first and end last, and its middle is no delimiter. */
  lemma LaterDelimiterEndsLater(s: string, more: string, i: nat, len: nat, j: nat, n: nat)
    requires DelimiterAt(s, i, len) && DelimiterAt(s + more, j, n) && j < i
    ensures j + n <= |s|
  {
    var t := s + more;
    assert s[i..i + 2] == [t[i], t[i + 1]];
    assert n == 4 ==> t[j..j + 4] == [t[j], t[j + 1], t[j + 2], t[j + 3]];
    assert len == 4 ==> s[i..i + 4][..2] == s[i..i + 2];
  }

  // -------- One event's lines --------

  /** `str::lines`: split at line feeds, each line without its own carriage return. */
  function Lines(raw: string): seq<string>
    decreases |raw|
  {
    if raw == "" then []
    else match Find(raw, "\n")
      case None => [raw]
      case Some(i) => [DropReturn(raw[..i])] + Lines(raw[i + 1..])
  }

  function DropReturn(line: string): string {
    if line != "" && line[|line| - 1] == '\r' then line[..|line| - 1] else line
  }

  datatype Fields = Fields(event: Option<string>, data: seq<string>, sawField: bool)

  const NoFields := Fields(None, [], false)

  function FieldValue(line: string, colon: nat): string
    requires colon < |line|
  {
    if colon + 1 < |line| && line[colon + 1] == ' ' then line[colon + 2..] else line[colon + 1..]
  }

  /** The effect of one line of an event. */
  function ReadLine(fields: Fields, rawLine: string): Result<Fields, SseError> {
    var line := DropReturn(rawLine);
    if line == "" || line[0] == ':' then Success(fields)
    else
      var colon := Find(line, ":");
      var name := if colon.Some? then line[..colon.value] else line;
      var value := if colon.Some? then FieldValue(line, colon.value) else "";
      if name == "event" then Success(fields.(event := Some(value), sawField := true))
      else if name == "data" then Success(fields.(data := fields.data + [value], sawField := true))
      else if name == "id" || name == "retry" then Success(fields.(sawField := true))
      else Failure(UnsupportedField)
  }

  function ReadLines(fields: Fields, lines: seq<string>): Result<Fields, SseError>
    decreases |lines|
  {
    if lines == [] then Success(fields)
    else match ReadLine(fields, lines[0])
      case Failure(e) => Failure(e)
      case Success(next) => ReadLines(next, lines[1..])
  }

  function Join(lines: seq<string>): string {
    if lines == [] then "" else if |lines| == 1 then lines[0] else lines[0] + "\n" + Join(lines[1..])
  }

  function EventOf(fields: Fields): Result<Option<RawSseEvent>, SseError> {
    if fields.data != [] then Success(Some(RawSseEvent(fields.event, Join(fields.data))))
    else if fields.sawField then Failure(MissingData)
    else Success(None)
  }

  function ParseSseEvent(raw: string): Result<Option<RawSseEvent>, SseError> {
    match ReadLines(NoFields, Lines(raw))
    case Failure(e) => Failure(e)
    case Success(fields) => EventOf(fields)
  }

  /** `parse_sse_event`: one pass over the lines. */
  method ReadSseEvent(raw: string) returns (r: Result<Option<RawSseEvent>, SseError>)
    ensures r == ParseSseEvent(raw)
  {
    var event: Option<string> := None;
    var dataLines: seq<string> := [];
    var sawNonCommentField := false;
    var lines := Lines(raw);
    for n := 0 to |lines|
      invariant ReadLines(NoFields, lines) == ReadLines(Fields(event, dataLines, sawNonCommentField), lines[n..])
    {
      assert lines[n..][1..] == lines[n + 1..];
      var line := DropReturn(lines[n]);
      if line == "" || line[0] == ':' {
        continue;
      }
      sawNonCommentField := true;
      var name, value := line, "";
      match Find(line, ":") {
        case Some(colon) => name, value := line[..colon], FieldValue(line, colon);
        case None =>
      }
      if name == "event" {
        event := Some(value);
      } else if name == "data" {
        dataLines := dataLines + [value];
      } else if name != "id" && name != "retry" {
        return Failure(UnsupportedField);
      }
    }
    if dataLines == [] {
      if sawNonCommentField {
        return Failure(MissingData);
      }
      return Success(None);
    }
    return Success(Some(RawSseEvent(event, Join(dataLines))));
  }

  // -------- Framing --------

  /** Events framed so far and the text still buffered. */
  datatype Framed = Framed(events: seq<RawSseEvent>, rest: string)

  function Frame(buffer: string, events: seq<RawSseEvent>): Result<Framed, SseError>
    decreases |buffer|
  {
    match SseEventBoundary(buffer)
    case None => Success(Framed(events, buffer))
    case Some(b) =>
      match ParseSseEvent(buffer[..b.start])
      case Failure(e) => Failure(e)
      case Success(event) =>
        Frame(buffer[b.start + b.len..], if event.Some? then events + [event.value] else events)
  }

  class SseEventParser {
    var buffer: string

    constructor ()
      ensures buffer == ""
    {
      buffer := "";
    }

    /** Append a chunk and take every complete event off the buffer. */
    method Push(chunk: string) returns (r: Result<seq<RawSseEvent>, SseError>)
      modifies this
      ensures match Frame(old(buffer) + chunk, [])
              case Failure(e) => r == Failure(e)
              case Success(f) => r == Success(f.events) && buffer == f.rest
    {
      hide SseEventBoundary, ParseSseEvent;
      buffer := buffer + chunk;
      var events: seq<RawSseEvent> := [];
      ghost var whole := buffer;
      var boundary := SseEventBoundary(buffer);
      while boundary.Some?
        invariant boundary == SseEventBoundary(buffer)
        invariant Frame(whole, []) == Frame(buffer, events)
        decreases |buffer|
      {
        var raw := buffer[..boundary.value.start];
        buffer := buffer[boundary.value.start + boundary.value.len..];
        var parsed := ReadSseEvent(raw);
        match parsed {
          case Failure(e) => return Failure(e);
          case Success(event) =>
            if event.Some? {
              events := events + [event.value];
            }
        }
        boundary := SseEventBoundary(buffer);
      }
      return Success(events);
    }

    /** When the stream ends, every unit left must belong to white space. */
    method Finish() returns (r: Result<(), SseError>)
      ensures r.Success? <==> forall i :: 0 <= i < |buffer| ==> InSpace(buffer, i)
      ensures r.Failure? ==> r.error == IncompleteEvent
    {
      BlankMeaning(buffer);
      return if Blank(buffer) then Success(()) else Failure(IncompleteEvent);
    }
  }

  /** Framing chunk by chunk. */
  function FrameChunks(buffer: string, chunks: seq<string>, events: seq<RawSseEvent>): Result<Framed, SseError>
    decreases |chunks|
  {
    if chunks == [] then Success(Framed(events, buffer))
    else match Frame(buffer + chunks[0], [])
      case Failure(e) => Failure(e)
      case Success(f) => FrameChunks(f.rest, chunks[1..], events + f.events)
  }

  lemma {:induction false} FrameAfter(buffer: string, before: seq<RawSseEvent>, events: seq<RawSseEvent>)
    ensures Frame(buffer, before + events) ==
            match Frame(buffer, events)
            case Failure(e) => Failure(e)
            case Success(f) => Success(Framed(before + f.events, f.rest))
    decreases |buffer|
  {
    hide SseEventBoundary, ParseSseEvent;
    var b := SseEventBoundary(buffer);
    if b.Some? && ParseSseEvent(buffer[..b.value.start]).Success? {
      var event := ParseSseEvent(buffer[..b.value.start]).value;
      var next := if event.Some? then events + [event.value] else events;
      assert (if event.Some? then before + events + [event.value] else before + events) == before + next;
      FrameAfter(buffer[b.value.start + b.value.len..], before, next);
    }
  }

  /** Framing a buffer and then more text is framing both at once. */
  lemma {:induction false} FrameSplit(buffer: string, events: seq<RawSseEvent>, more: string)
    ensures Frame(buffer + more, events) ==
            match Frame(buffer, events) case Failure(e) => Failure(e) case Success(f) => Frame(f.rest + more, f.events)
    decreases |buffer|
  {
    hide SseEventBoundary, ParseSseEvent;
    var b := SseEventBoundary(buffer);
    if b.Some? {
      var Boundary(i, len) := b.value;
      BoundaryExtends(buffer, more);
      assert (buffer + more)[..i] == buffer[..i];
      assert (buffer + more)[i + len..] == buffer[i + len..] + more;
      if ParseSseEvent(buffer[..i]).Success? {
        var event := ParseSseEvent(buffer[..i]).value;
        FrameSplit(buffer[i + len..], if event.Some? then events + [event.value] else events, more);
      }
    }
  }

  lemma {:induction false} ChunksFrameLikeWhole(buffer: string, chunks: seq<string>, events: seq<RawSseEvent>)
    requires SseEventBoundary(buffer).None?
    ensures FrameChunks(buffer, chunks, events) == Frame(buffer + Concat(chunks), events)
    decreases |chunks|
  {
    hide SseEventBoundary, ParseSseEvent;
    if chunks == [] {
      assert buffer + "" == buffer;
    } else {
      var c, rest := chunks[0], Concat(chunks[1..]);
      assert buffer + (c + rest) == buffer + c + rest;
      FrameSplit(buffer + c, events, rest);
      assert events + [] == events;
      FrameAfter(buffer + c, events, []);
      var f := Frame(buffer + c, []);
      if f.Success? {
        FrameIsDone(buffer + c, []);
        ChunksFrameLikeWhole(f.value.rest, chunks[1..], events + f.value.events);
      }
    }
  }

  lemma {:induction false} FrameIsDone(buffer: string, events: seq<RawSseEvent>)
    ensures Frame(buffer, events).Success? ==> SseEventBoundary(Frame(buffer, events).value.rest).None?
    decreases |buffer|
  {
    hide SseEventBoundary, ParseSseEvent;
    var b := SseEventBoundary(buffer);
    if b.Some? && ParseSseEvent(buffer[..b.value.start]).Success? {
      var event := ParseSseEvent(buffer[..b.value.start]).value;
      FrameIsDone(buffer[b.value.start + b.value.len..], if event.Some? then events + [event.value] else events);
    }
  }

  /** Two chunkings of one stream fail with the same error or give the same events and leftover. */
  lemma FramingIgnoresChunking(a: seq<string>, b: seq<string>)
    requires Concat(a) == Concat(b)
    ensures FrameChunks("", a, []) == FrameChunks("", b, [])
  {
    ChunksFrameLikeWhole("", a, []);
    ChunksFrameLikeWhole("", b, []);
  }

  lemma NothingToFrame()
    ensures SseEventBoundary("").None?
  {
  }
}
