/** All the ways upstream text that does not frame can be read, by how it was cut into chunks (src/http.rs). */
module ChunkReadings {
  import opened Wrappers
  import opened Text
  import opened Sse
  import opened ChatEvents
  import opened ChatPump

  // -------- The events in front of the refused one --------

  /** Every event framed before the raw event that is refused, if one is. */
  function Front(buffer: string): seq<RawSseEvent>
    decreases |buffer|
  {
    match SseEventBoundary(buffer)
    case None => []
    case Some(b) =>
      match ParseSseEvent(buffer[..b.start])
      case Failure(_) => []
      case Success(event) => (if event.Some? then [event.value] else []) + Front(buffer[b.start + b.len..])
  }

  /** The first event of a buffer is the first one of every extension. */
  lemma FrontStep(buffer: string, more: string)
    requires SseEventBoundary(buffer).Some?
    ensures var Boundary(i, len) := SseEventBoundary(buffer).value;
            Front(buffer + more) ==
            match ParseSseEvent(buffer[..i])
            case Failure(_) => []
            case Success(event) => (if event.Some? then [event.value] else []) + Front(buffer[i + len..] + more)
  {
    hide SseEventBoundary, ParseSseEvent;
    var Boundary(i, len) := SseEventBoundary(buffer).value;
    BoundaryExtends(buffer, more);
    assert (buffer + more)[..i] == buffer[..i];
    assert (buffer + more)[i + len..] == buffer[i + len..] + more;
  }

  lemma NoBoundary(buffer: string)
    ensures SseEventBoundary(buffer).None? ==> Front(buffer) == []
  {
    hide SseEventBoundary, ParseSseEvent;
  }

  /** What a buffer frames comes first in every extension. */
  lemma {:induction false} FrontSplit(buffer: string, events: seq<RawSseEvent>, more: string)
    requires Frame(buffer, events).Success?
    ensures var f := Frame(buffer, events).value; f.events + Front(f.rest + more) == events + Front(buffer + more)
    decreases |buffer|
  {
    hide SseEventBoundary, ParseSseEvent, Front;
    var b := SseEventBoundary(buffer);
    if b.Some? {
      var Boundary(i, len) := b.value;
      FrontStep(buffer, more);
      var event := ParseSseEvent(buffer[..i]).value;
      var first := if event.Some? then [event.value] else [];
      assert events + [] == events;
      FrontSplit(buffer[i + len..], events + first, more);
      assert events + first + Front(buffer[i + len..] + more) == events + (first + Front(buffer[i + len..] + more));
    }
  }

  /** A text can be cut behind any number of the events in front of the refused one. */
  lemma {:induction false} CutBehind(text: string, j: nat) returns (n: nat)
    requires j <= |Front(text)|
    ensures n <= |text| && Frame(text[..n], []).Success? && Frame(text[..n], []).value.events == Front(text)[..j]
    decreases |text|
  {
    hide SseEventBoundary, ParseSseEvent, Front;
    if j == 0 {
      n := 0;
      NothingToFrame();
      assert text[..0] == "" && Front(text)[..0] == [];
    } else {
      NoBoundary(text);
      FrontStep(text, "");
      assert text + "" == text;
      var Boundary(i, len) := SseEventBoundary(text).value;
      assert text[i + len..] + "" == text[i + len..];
      var k, event := i + len, ParseSseEvent(text[..i]).value;
      var first, rest := if event.Some? then [event.value] else [], text[k..];
      var m := CutBehind(rest, j - |first|);
      n := k + m;
      assert text[..n][..i] == text[..i] && text[..n][k..] == rest[..m];
      BoundaryInFront(text, n);
      FrameAfter(rest[..m], first, []);
      assert first + [] == first && [] + first == first;
      assert Front(text)[..j] == first + Front(rest)[..j - |first|];
    }
  }

  /** A prefix that holds the first delimiter ends its first event there too. */
  lemma BoundaryInFront(text: string, n: nat)
    requires SseEventBoundary(text).Some? && n <= |text|
    requires var b := SseEventBoundary(text).value; b.start + b.len <= n
    ensures SseEventBoundary(text[..n]) == SseEventBoundary(text)
  {
    hide SseEventBoundary;
    BoundaryMeaning(text);
    BoundaryMeaning(text[..n]);
    var Boundary(i, len) := SseEventBoundary(text).value;
    assert text[..n][i..i + len] == text[i..i + len];
    assert DelimiterAt(text[..n], i, len);
    assert text == text[..n] + text[n..];
    BoundaryExtends(text[..n], text[n..]);
  }

  // -------- What can be read --------

  /** The first `j` of those events, and then the refusal. */
  function Reading(reader: Reader, text: string, j: nat): seq<Event>
    requires j <= |Front(text)|
  {
    ReadAll(reader, Front(text)[..j]) + [BadEvent]
  }

  /** However a text that does not frame is cut, a first part of its events is read, and then the refusal. */
  lemma {:induction false} ChunksReadSome(reader: Reader, buffer: string, chunks: seq<string>) returns (j: nat)
    requires Frame(buffer, []).Success? && Frame(buffer, []).value == Framed([], buffer)
    requires Frame(buffer + Concat(chunks), []).Failure?
    ensures j <= |Front(buffer + Concat(chunks))|
    ensures EventsOf(reader, buffer, chunks) == Reading(reader, buffer + Concat(chunks), j)
    decreases |chunks|
  {
    hide Frame, Front, ReadAll;
    ConcatStep(chunks);
    assert buffer + "" == buffer;
    var text := buffer + Concat(chunks);
    var c, rest := chunks[0], Concat(chunks[1..]);
    assert text == buffer + c + rest;
    if Frame(buffer + c, []).Failure? {
      j := 0;
      assert Front(text)[..0] == [];
      NothingRead(reader, [BadEvent]);
    } else {
      var f := Frame(buffer + c, []).value;
      FrameResumes(buffer + c, rest);
      FrontSplit(buffer + c, [], rest);
      FramedRest(buffer + c);
      var m := ChunksReadSome(reader, f.rest, chunks[1..]);
      j := |f.events| + m;
      var later := Front(f.rest + rest);
      assert [] + Front(text) == Front(text);
      assert Front(text)[..j] == f.events + later[..m];
      ReadAllAppend(reader, f.events, later[..m]);
      assert ReadAll(reader, f.events) + (ReadAll(reader, later[..m]) + [BadEvent]) ==
        ReadAll(reader, f.events) + ReadAll(reader, later[..m]) + [BadEvent];
    }
  }

  /** What is left over frames to itself. */
  lemma FramedRest(buffer: string)
    requires Frame(buffer, []).Success?
    ensures var rest := Frame(buffer, []).value.rest; Frame(rest, []) == Success(Framed([], rest))
  {
    hide SseEventBoundary, ParseSseEvent;
    FrameIsDone(buffer, []);
  }

  /** And every first part is read for some chunks. */
  lemma SomeChunksRead(reader: Reader, text: string, j: nat) returns (chunks: seq<string>)
    requires Frame(text, []).Failure? && j <= |Front(text)|
    ensures Concat(chunks) == text && EventsOf(reader, "", chunks) == Reading(reader, text, j)
  {
    hide Frame, Front, ReadAll;
    var n := CutBehind(text, j);
    var a, b := text[..n], text[n..];
    chunks := [a, b];
    ConcatStep(chunks);
    ConcatStep(chunks[1..]);
    ConcatStep([]);
    assert chunks[1..] == [b] && [b][1..] == [] && b + "" == b && a + b == text && "" + a == a;
    FrameResumes(a, b);
  }

  // -------- What the chunks can change --------

  /** One answer to all chunkings of a text. */
  ghost predicate AnsweredAlike<T>(answer: seq<Event> -> T, reader: Reader, text: string) {
    forall a, b :: Concat(a) == text && Concat(b) == text ==>
      answer(EventsOf(reader, "", a)) == answer(EventsOf(reader, "", b))
  }

  /**
   Whoever consumes the events, streaming or buffering: all chunkings of a text get one answer
   exactly if it frames, or no part of the events in front of the refused one changes the answer.
   */
  lemma AnswersIgnoreChunkingExactly<T>(answer: seq<Event> -> T, reader: Reader, text: string)
    ensures AnsweredAlike(answer, reader, text) <==>
            Frame(text, []).Success?
            || forall j :: 0 <= j <= |Front(text)| ==> answer(Reading(reader, text, j)) == answer([BadEvent])
  {
    hide Frame, EventsOf, Front, Reading;
    if Frame(text, []).Success? {
      hide ReadsAlike;
      ChunkingMattersExactly(reader, text);
      FramedAnswersAlike(answer, reader, text);
    } else {
      NothingIsReading(reader, text);
      if AnsweredAlike(answer, reader, text) {
        forall j | 0 <= j <= |Front(text)| ensures answer(Reading(reader, text, j)) == answer([BadEvent]) {
          var a := SomeChunksRead(reader, text, j);
          var b := SomeChunksRead(reader, text, 0);
        }
      } else {
        var a, b :| Concat(a) == text && Concat(b) == text
          && answer(EventsOf(reader, "", a)) != answer(EventsOf(reader, "", b));
        NothingSeen();
        assert "" + text == text;
        var i := ChunksReadSome(reader, "", a);
        var j := ChunksReadSome(reader, "", b);
      }
    }
  }

  lemma NothingIsReading(reader: Reader, text: string)
    ensures Reading(reader, text, 0) == [BadEvent]
  {
    NothingRead(reader, [BadEvent]);
    assert Front(text)[..0] == [];
  }

  lemma FramedAnswersAlike<T>(answer: seq<Event> -> T, reader: Reader, text: string)
    requires ReadsAlike(reader, text)
    ensures AnsweredAlike(answer, reader, text)
  {
  }
}
