/** From upstream text chunks to client outputs: framing, reading and transforming in one loop (src/http.rs). */
module ChatPump {
  import opened Wrappers
  import opened Text
  import opened Json
  import opened Sse
  import SL = SseLines
  import opened ChatEvents
  import TS = ToolStream
  import opened PlainStream

  /** serde_json and the codec, as functions that may fail. */
  datatype Reader = Reader(parseJson: string -> Option<Json>, decrypt: string -> Option<string>)

  // -------- Reading one event --------

  /** `Value::get` with a name. */
  function Member(value: Json, name: string): Option<Json> {
    if value.JObject? then Get(value.fields, name) else None
  }

  /** `encrypted_delta_text_field`, with what decrypting the field would give. */
  function ReadField(reader: Reader, delta: Json, name: string): DeltaField {
    match Member(delta, name)
    case None => Absent
    case Some(JNull) => Absent
    case Some(JString(text)) => if text == "" then Absent else Sealed(reader.decrypt(text))
    case Some(_) => Malformed
  }

  function ReadChoice(reader: Reader, choice: Json): Event {
    if !choice.JObject? then BadEvent
    else
      var index := match Member(choice, "index")
        case None => NoIndex
        case Some(JInt(n)) => if 0 <= n then Number(n) else BadIndex
        case Some(_) => BadIndex;
      var finish := match Member(choice, "finish_reason")
        case None => NoFinish
        case Some(JNull) => NoFinish
        case Some(JString(text)) => Reason(text)
        case Some(_) => BadFinish;
      var delta := if Member(choice, "delta").Some? then Member(choice, "delta").value else JNull;
      Choice(index, finish, ReadField(reader, delta, "content"), ReadField(reader, delta, "reasoning_content"))
  }

  /** `classify_upstream_event` and the reading of its choice. */
  function ReadEvent(reader: Reader, raw: RawSseEvent): Event {
    if raw.event == Some("error") then UpstreamError
    else if Trim(raw.data) == "[DONE]" then Done
    else match reader.parseJson(raw.data)
      case None => BadEvent
      case Some(value) =>
        if Member(value, "error").Some? then UpstreamError
        else match AsArray(Member(value, "choices"))
          case None => BadEvent
          case Some(choices) =>
            if choices == [] then Usage(Member(value, "usage"))
            else if |choices| != 1 then BadEvent
            else ReadChoice(reader, choices[0])
  }

  function ReadAll(reader: Reader, raws: seq<RawSseEvent>): (events: seq<Event>)
    ensures |events| == |raws|
  {
    if raws == [] then [] else [ReadEvent(reader, raws[0])] + ReadAll(reader, raws[1..])
  }

  lemma {:induction false} ReadAllAppend(reader: Reader, a: seq<RawSseEvent>, b: seq<RawSseEvent>)
    ensures ReadAll(reader, a + b) == ReadAll(reader, a) + ReadAll(reader, b)
  {
    hide ReadEvent;
    if a == [] {
      assert a + b == b;
    } else {
      assert (a + b)[1..] == a[1..] + b;
      ReadAllAppend(reader, a[1..], b);
    }
  }

  // -------- Reading a stream of chunks --------

  /** The events a transformer is given; a chunk that does not frame is refused with all its events. */
  function EventsOf(reader: Reader, buffer: string, chunks: seq<string>): seq<Event>
    decreases |chunks|
  {
    if chunks == [] then []
    else match Frame(buffer + chunks[0], [])
      case Failure(_) => [BadEvent]
      case Success(f) => ReadAll(reader, f.events) + EventsOf(reader, f.rest, chunks[1..])
  }

  lemma {:induction false} EventsAreFramed(reader: Reader, buffer: string, chunks: seq<string>,
      before: seq<RawSseEvent>)
    requires FrameChunks(buffer, chunks, before).Success?
    ensures ReadAll(reader, FrameChunks(buffer, chunks, before).value.events) ==
            ReadAll(reader, before) + EventsOf(reader, buffer, chunks)
    decreases |chunks|
  {
    hide Frame, ReadAll;
    if chunks == [] {
      assert ReadAll(reader, before) + [] == ReadAll(reader, before);
    } else {
      var f := Frame(buffer + chunks[0], []).value;
      EventsAreFramed(reader, f.rest, chunks[1..], before + f.events);
      ReadAllAppend(reader, before, f.events);
      var rest := EventsOf(reader, f.rest, chunks[1..]);
      assert ReadAll(reader, before) + ReadAll(reader, f.events) + rest ==
        ReadAll(reader, before) + (ReadAll(reader, f.events) + rest);
    }
  }

  /** Where upstream's text frames, all three consumers answer the text, however it was cut into chunks. */
  lemma ResponsesIgnoreChunking(reader: Reader, a: seq<string>, b: seq<string>, at: TS.Attempt, includeUsage: bool,
      requireEncrypted: bool)
    requires Concat(a) == Concat(b) && FrameChunks("", a, []).Success?
    ensures TS.RunEvents(at, TS.InitialState, EventsOf(reader, "", a)) ==
            TS.RunEvents(at, TS.InitialState, EventsOf(reader, "", b))
    ensures StreamEvents(includeUsage, InitialState, EventsOf(reader, "", a)) ==
            StreamEvents(includeUsage, InitialState, EventsOf(reader, "", b))
    ensures BufferEvents(requireEncrypted, EmptyBuffer, EventsOf(reader, "", a)) ==
            BufferEvents(requireEncrypted, EmptyBuffer, EventsOf(reader, "", b))
  {
    hide FrameChunks, EventsOf, TS.RunEvents, StreamEvents, BufferEvents;
    FramingIgnoresChunking(a, b);
    EventsAreFramed(reader, "", a, []);
    EventsAreFramed(reader, "", b, []);
    assert ReadAll(reader, []) + EventsOf(reader, "", a) == EventsOf(reader, "", a);
    assert ReadAll(reader, []) + EventsOf(reader, "", b) == EventsOf(reader, "", b);
  }

  // -------- Text that does not frame --------

  /** The first `n` units frame at least one event. */
  predicate FramesBy(text: string, n: nat) {
    n <= |text| && var framed := Frame(text[..n], []); framed.Success? && framed.value.events != []
  }

  /** Some event is framed before the raw event that is refused. */
  ghost predicate FramesSome(text: string) {
    exists n :: FramesBy(text, n)
  }

  lemma FrameResumes(buffer: string, more: string)
    requires Frame(buffer, []).Success?
    ensures var f := Frame(buffer, []).value; Frame(buffer + more, []).Failure? <==> Frame(f.rest + more, []).Failure?
  {
    hide Frame;
    var f := Frame(buffer, []).value;
    FrameSplit(buffer, [], more);
    FrameAfter(f.rest + more, f.events, []);
    assert f.events + [] == f.events;
  }

  lemma OneChunk(reader: Reader, text: string)
    requires Frame(text, []).Failure?
    ensures EventsOf(reader, "", [text]) == [BadEvent]
  {
    hide Frame;
    assert "" + text == text;
  }

  /** Cut where an event has been framed, the text gives that event first. */
  lemma TwoChunks(reader: Reader, text: string, n: nat)
    requires Frame(text, []).Failure? && FramesBy(text, n)
    ensures EventsOf(reader, "", [text[..n], text[n..]]) ==
            ReadAll(reader, Frame(text[..n], []).value.events) + [BadEvent]
  {
    hide Frame, ReadAll;
    var chunks := [text[..n], text[n..]];
    assert "" + text[..n] == text[..n] && chunks[1..] == [text[n..]];
    assert text == text[..n] + text[n..];
    FrameResumes(text[..n], text[n..]);
  }

  /** Where no event is framed before the refused one, every chunking ends with the refusal alone. */
  lemma {:induction false} NothingFramed(reader: Reader, text: string, seen: string, buffer: string,
      chunks: seq<string>)
    requires Frame(text, []).Failure? && !FramesSome(text) && text == seen + Concat(chunks)
    requires Frame(seen, []) == Success(Framed([], buffer))
    ensures EventsOf(reader, buffer, chunks) == [BadEvent]
    decreases |chunks|
  {
    hide Frame;
    ConcatStep(chunks);
    assert seen + "" == seen;
    if chunks != [] {
      var next := seen + chunks[0];
      assert text == next + Concat(chunks[1..]);
      assert text[..|next|] == next;
      FrameSplit(seen, [], chunks[0]);
      if Frame(next, []).Success? {
        assert !FramesBy(text, |next|);
        NothingFramed(reader, text, next, Frame(next, []).value.rest, chunks[1..]);
        assert ReadAll(reader, []) + [BadEvent] == [BadEvent];
      }
    }
  }

  lemma NothingSeen()
    ensures Frame("", []) == Success(Framed([], ""))
  {
    NothingToFrame();
  }

  ghost predicate ReadsAlike(reader: Reader, text: string) {
    forall a, b :: Concat(a) == text && Concat(b) == text ==> EventsOf(reader, "", a) == EventsOf(reader, "", b)
  }

  /**
   All chunkings of a text read as the same events exactly if it frames, or no event is framed
   before the raw event it refuses.
   */
  lemma ChunkingMattersExactly(reader: Reader, text: string)
    ensures ReadsAlike(reader, text) <==> Frame(text, []).Success? || !FramesSome(text)
  {
    hide Frame, FrameChunks, EventsOf, ReadAll;
    if Frame(text, []).Success? {
      forall a, b | Concat(a) == text && Concat(b) == text ensures EventsOf(reader, "", a) == EventsOf(reader, "", b) {
        WholeFrames(text, a);
        FramingIgnoresChunking(a, b);
        EventsAreFramed(reader, "", a, []);
        EventsAreFramed(reader, "", b, []);
        NothingRead(reader, EventsOf(reader, "", a));
        NothingRead(reader, EventsOf(reader, "", b));
      }
    } else if n :| FramesBy(text, n) {
      Separates(reader, text, n);
    } else {
      forall a | Concat(a) == text ensures EventsOf(reader, "", a) == [BadEvent] {
        NothingSeen();
        assert "" + text == text;
        NothingFramed(reader, text, "", "", a);
      }
    }
  }

  lemma NothingRead(reader: Reader, events: seq<Event>)
    ensures ReadAll(reader, []) + events == events
  {
  }

  lemma WholeFrames(text: string, chunks: seq<string>)
    requires Concat(chunks) == text && Frame(text, []).Success?
    ensures FrameChunks("", chunks, []).Success?
  {
    hide Frame, FrameChunks, SseEventBoundary;
    NothingToFrame();
    ChunksFrameLikeWhole("", chunks, []);
    assert "" + text == text;
  }

  /** The whole text and its two pieces read differently. */
  lemma Separates(reader: Reader, text: string, n: nat)
    requires Frame(text, []).Failure? && FramesBy(text, n)
    ensures !ReadsAlike(reader, text)
  {
    hide Frame, EventsOf;
    var pieces := [text[..n], text[n..]];
    OneChunk(reader, text);
    TwoChunks(reader, text, n);
    ConcatStep([text]);
    ConcatStep(pieces);
    ConcatStep(pieces[1..]);
    assert pieces[1..][1..] == [] && [text][1..] == [] && text + "" == text && text[n..] + "" == text[n..];
    assert text[..n] + text[n..] == text;
    assert Concat([text]) == text && Concat(pieces) == text;
    assert |EventsOf(reader, "", pieces)| > 1 == |EventsOf(reader, "", [text])|;
  }

  /** A Done and then an unknown field: the client's stream fails from one chunk and completes from two. */
  lemma ChunkingCanLoseDone(reader: Reader, includeUsage: bool)
    ensures var done, bad := "data: [DONE]\n\n", "bogus\n\n";
            && StreamEvents(includeUsage, InitialState, EventsOf(reader, "", [done + bad])).error ==
              Some(MalformedEvent)
            && StreamEvents(includeUsage, InitialState, EventsOf(reader, "", [done, bad])).error == None
  {
    hide Frame, EventsOf, StreamEvents;
    var done, bad := "data: [DONE]\n\n", "bogus\n\n";
    var text, n := done + bad, |done|;
    DoneFrames();
    BogusFails();
    assert text[..n] == done && text[n..] == bad && "" + bad == bad;
    FrameResumes(done, bad);
    OneChunk(reader, text);
    TwoChunks(reader, text, n);
    DoneIsRead(reader);
    DoneCompletes(includeUsage);
    Continued(includeUsage, StreamEvents(includeUsage, InitialState, [BadEvent]), [], InitialState, [BadEvent]);
  }

  lemma DoneFrames()
    ensures Frame("data: [DONE]\n\n", []) == Success(Framed([RawSseEvent(None, "[DONE]")], ""))
  {
    hide Frame, SL.Said;
    var line := SL.Field("data", SL.Spaced("[DONE]"));
    assert SL.Spelled(line) == "data: [DONE]" && "data: [DONE]" + "\n\n" == "data: [DONE]\n\n";
    SL.OneLineFrames(line);
    SL.DataSays("[DONE]");
  }

  lemma BogusFails()
    ensures Frame("bogus\n\n", []).Failure?
  {
    hide Frame;
    var line := SL.Field("bogus", SL.Bare);
    assert SL.Spelled(line) == "bogus" && "bogus" + "\n\n" == "bogus\n\n";
    SL.OneLineFrames(line);
    assert !SL.Supported(line) && line in [line];
  }

  lemma DoneIsRead(reader: Reader)
    ensures ReadAll(reader, [RawSseEvent(None, "[DONE]")]) == [Done]
  {
    assert SpaceLen("[DONE]", 0) == 0 && SpaceLen("[DONE]", 5) == 0 && SpaceLen("[DONE]", 4) == 0
      && SpaceLen("[DONE]", 3) == 0;
    assert Trim("[DONE]") == "[DONE]";
    assert [RawSseEvent(None, "[DONE]")][1..] == [];
  }

  lemma DoneCompletes(includeUsage: bool)
    ensures StreamEvents(includeUsage, InitialState, [Done] + [BadEvent]).error == None
  {
  }

  // -------- The loop --------

  /** What is still to come completes what has been sent. */
  ghost predicate Continues(includeUsage: bool, whole: Streamed, sent: seq<StreamOutput>, st: State,
      events: seq<Event>)
  {
    var rest := StreamEvents(includeUsage, st, events);
    whole == Streamed(sent + rest.outputs, rest.error)
  }

  lemma ContinuesStep(includeUsage: bool, whole: Streamed, sent: seq<StreamOutput>, st: State, event: Event,
      rest: seq<Event>)
    requires Continues(includeUsage, whole, sent, st, [event] + rest)
    ensures match StreamEvent(includeUsage, st, event)
            case Failure(e) => whole == Streamed(sent, Some(e))
            case Success((next, outputs)) =>
              if event.Done? then whole == Streamed(sent + outputs, None)
              else Continues(includeUsage, whole, sent + outputs, next, rest)
  {
    hide StreamEvent;
    assert ([event] + rest)[1..] == rest;
    assert sent + [] == sent;
    if StreamEvent(includeUsage, st, event).Success? && !event.Done? {
      var (next, outputs) := StreamEvent(includeUsage, st, event).value;
      var later := StreamEvents(includeUsage, next, rest).outputs;
      assert sent + (outputs + later) == sent + outputs + later;
    }
  }

  lemma Continued(includeUsage: bool, whole: Streamed, sent: seq<StreamOutput>, st: State, events: seq<Event>)
    ensures whole == StreamEvents(includeUsage, st, events) ==> Continues(includeUsage, whole, [], st, events)
    ensures Continues(includeUsage, whole, sent, st, events) && (events == [] || events == [BadEvent]) ==>
              whole == Streamed(sent, Some(MalformedEvent))
  {
    var rest := StreamEvents(includeUsage, st, events);
    assert [] + rest.outputs == rest.outputs && sent + [] == sent;
  }

  lemma NextChunk(reader: Reader, buffer: string, chunks: seq<string>, n: nat)
    requires n < |chunks|
    ensures var framed := Frame(buffer + chunks[n], []);
            EventsOf(reader, buffer, chunks[n..]) ==
            if framed.Failure? then [BadEvent]
            else ReadAll(reader, framed.value.events) + EventsOf(reader, framed.value.rest, chunks[n + 1..])
  {
    hide Frame;
    assert chunks[n..][1..] == chunks[n + 1..];
  }

  lemma NextRaw(reader: Reader, raws: seq<RawSseEvent>, k: nat, later: seq<Event>)
    requires k <= |raws|
    ensures ReadAll(reader, raws[k..]) + later ==
            if k == |raws| then later else [ReadEvent(reader, raws[k])] + (ReadAll(reader, raws[k + 1..]) + later)
  {
    hide ReadEvent;
    if k < |raws| {
      assert raws[k..][1..] == raws[k + 1..];
    } else {
      assert ReadAll(reader, raws[k..]) == [];
    }
  }

  /** `chat_sse_event_stream`: read a chunk, frame it, transform its events, stop at Done or the first error. */
  method StreamChat(reader: Reader, includeUsage: bool, chunks: seq<string>) returns (streamed: Streamed)
    ensures streamed == StreamEvents(includeUsage, InitialState, EventsOf(reader, "", chunks))
  {
    hide Frame, ReadEvent, ReadAll, EventsOf, StreamEvent, StreamEvents, Continues;
    var parser := new SseEventParser();
    var transformer := new OpenAiChatStreamTransformer(includeUsage);
    var outputs: seq<StreamOutput> := [];
    ghost var whole := StreamEvents(includeUsage, InitialState, EventsOf(reader, "", chunks));
    assert chunks[0..] == chunks;
    Continued(includeUsage, whole, [], InitialState, EventsOf(reader, "", chunks));
    for n := 0 to |chunks|
      invariant transformer.includeUsage == includeUsage
      invariant Continues(includeUsage, whole, outputs, transformer.Snapshot(),
                EventsOf(reader, parser.buffer, chunks[n..]))
    {
      NextChunk(reader, parser.buffer, chunks, n);
      var framed := parser.Push(chunks[n]);
      if framed.Failure? {
        Continued(includeUsage, whole, outputs, transformer.Snapshot(), [BadEvent]);
        return Streamed(outputs, Some(MalformedEvent));
      }
      var raws := framed.value;
      ghost var buffer := parser.buffer;
      ghost var later := EventsOf(reader, buffer, chunks[n + 1..]);
      assert raws[0..] == raws;
      for k := 0 to |raws|
        invariant transformer.includeUsage == includeUsage && parser.buffer == buffer
        invariant Continues(includeUsage, whole, outputs, transformer.Snapshot(), ReadAll(reader, raws[k..]) + later)
      {
        NextRaw(reader, raws, k, later);
        var event := ReadEvent(reader, raws[k]);
        ContinuesStep(includeUsage, whole, outputs, transformer.Snapshot(), event,
          ReadAll(reader, raws[k + 1..]) + later);
        var step := transformer.HandleEvent(event);
        if step.Failure? {
          return Streamed(outputs, Some(step.error));
        }
        outputs := outputs + step.value;
        if event.Done? {
          return Streamed(outputs, None);
        }
      }
      NextRaw(reader, raws, |raws|, later);
    }
    NoChunks(reader, parser.buffer, chunks);
    Continued(includeUsage, whole, outputs, transformer.Snapshot(), []);
    var finished := parser.Finish();
    if finished.Failure? {
      return Streamed(outputs, Some(MalformedEvent));
    }
    return Streamed(outputs, Some(MalformedEvent));
  }

  lemma NoChunks(reader: Reader, buffer: string, chunks: seq<string>)
    ensures EventsOf(reader, buffer, chunks[|chunks|..]) == []
  {
  }
}
