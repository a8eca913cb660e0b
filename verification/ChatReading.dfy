/** What upstream's JSON chunks say, and that the client is told just that (src/http.rs). */
module ChatReading {
  import opened Wrappers
  import opened Text
  import opened Json
  import opened Sse
  import SL = SseLines
  import opened ChatEvents
  import opened PlainStream
  import SC = SideChannels
  import opened ChatPump

  // -------- What a chunk says --------

  /** One choice: its index, finish reason, text and reasoning, each where there is one. */
  datatype Remark =
    | Spoken(index: Option<nat>, finish: Option<string>, content: Option<string>, reasoning: Option<string>)
    | Reported(usage: Json)

  /** `delta[name]` is text that decrypts to `text`; for no text it is missing, null or empty. */
  ghost predicate TextSays(reader: Reader, delta: Json, name: string, text: Option<string>) {
    var field := if delta.JObject? then Get(delta.fields, name) else None;
    match text
    case None => field == None || field == Some(JNull) || field == Some(JString(""))
    case Some(t) =>
      field.Some? && field.value.JString? && field.value.s != "" && reader.decrypt(field.value.s) == Some(t)
  }

  /** The fields of a choice say it. */
  ghost predicate ChoiceSays(reader: Reader, choice: seq<Field>, remark: Remark)
    requires remark.Spoken?
  {
    var delta := if Has(choice, "delta") then Get(choice, "delta").value else JNull;
    && Get(choice, "index") == (if remark.index.Some? then Some(JInt(remark.index.value)) else None)
    && (if remark.finish.Some? then Get(choice, "finish_reason") == Some(JString(remark.finish.value))
        else Get(choice, "finish_reason") in {None, Some(JNull)})
    && TextSays(reader, delta, "content", remark.content)
    && TextSays(reader, delta, "reasoning_content", remark.reasoning)
  }

  /** The data of an event is a JSON object without an error. */
  ghost predicate IsChunk(reader: Reader, raw: RawSseEvent, chunk: seq<Field>) {
    && raw.event != Some("error") && Trim(raw.data) != "[DONE]"
    && reader.parseJson(raw.data) == Some(JObject(chunk)) && Get(chunk, "error") == None
  }

  ghost predicate Says(reader: Reader, raw: RawSseEvent, remark: Remark) {
    exists chunk: seq<Field> :: IsChunk(reader, raw, chunk) &&
      match remark
      case Reported(usage) => Get(chunk, "choices") == Some(JArray([])) && Get(chunk, "usage") == Some(usage)
      case Spoken(_, _, _, _) =>
        exists choice: seq<Field> ::
          Get(chunk, "choices") == Some(JArray([JObject(choice)])) && ChoiceSays(reader, choice, remark)
  }

  function FieldOf(text: Option<string>): DeltaField {
    if text.Some? then Sealed(text) else Absent
  }

  /** The event that is read where a remark is made. */
  function EventOf(remark: Remark): Event {
    match remark
    case Reported(usage) => Usage(Some(usage))
    case Spoken(index, finish, content, reasoning) =>
      Choice(
        if index.Some? then Number(index.value) else NoIndex,
        if finish.Some? then Reason(finish.value) else NoFinish,
        FieldOf(content), FieldOf(reasoning))
  }

  lemma TextIsRead(reader: Reader, delta: Json, name: string, text: Option<string>)
    ensures TextSays(reader, delta, name, text) <==> ReadField(reader, delta, name) == FieldOf(text)
  {
  }

  lemma ChoiceIsRead(reader: Reader, choice: seq<Field>, remark: Remark)
    requires remark.Spoken?
    ensures ChoiceSays(reader, choice, remark) <==> ReadChoice(reader, JObject(choice)) == EventOf(remark)
  {
    hide ReadField, TextSays, Get;
    var delta := if Has(choice, "delta") then Get(choice, "delta").value else JNull;
    TextIsRead(reader, delta, "content", remark.content);
    TextIsRead(reader, delta, "reasoning_content", remark.reasoning);
  }

  /** A remark is read as its event, and only a remark is. */
  lemma RemarkIsRead(reader: Reader, raw: RawSseEvent, remark: Remark)
    ensures Says(reader, raw, remark) <==> ReadEvent(reader, raw) == EventOf(remark)
  {
    hide ReadChoice, ChoiceSays, Get, Trim;
    if Says(reader, raw, remark) {
      var chunk: seq<Field> :| IsChunk(reader, raw, chunk) &&
        match remark
        case Reported(usage) => Get(chunk, "choices") == Some(JArray([])) && Get(chunk, "usage") == Some(usage)
        case Spoken(_, _, _, _) =>
          exists choice: seq<Field> ::
            Get(chunk, "choices") == Some(JArray([JObject(choice)])) && ChoiceSays(reader, choice, remark);
      if remark.Spoken? {
        var choice: seq<Field> :|
          Get(chunk, "choices") == Some(JArray([JObject(choice)])) && ChoiceSays(reader, choice, remark);
        ChoiceIsRead(reader, choice, remark);
      }
    }
    if ReadEvent(reader, raw) == EventOf(remark) {
      EventIsChunk(reader, raw, remark);
      var chunk := reader.parseJson(raw.data).value.fields;
      assert IsChunk(reader, raw, chunk);
      if remark.Spoken? {
        var choices := Get(chunk, "choices").value.items;
        var choice := choices[0].fields;
        assert choices == [JObject(choice)];
        ChoiceIsRead(reader, choice, remark);
      }
    }
  }

  /** Only a chunk is read as a choice or as usage. */
  lemma EventIsChunk(reader: Reader, raw: RawSseEvent, remark: Remark)
    requires ReadEvent(reader, raw) == EventOf(remark)
    ensures var parsed := reader.parseJson(raw.data);
            && parsed.Some? && parsed.value.JObject? && IsChunk(reader, raw, parsed.value.fields)
            && var choices := AsArray(Get(parsed.value.fields, "choices"));
               choices.Some? &&
               if remark.Reported? then choices.value == [] && Get(parsed.value.fields, "usage") == Some(remark.usage)
               else |choices.value| == 1 && choices.value[0].JObject?
  {
    hide ReadField, Get, Trim;
  }

  // -------- What is refused --------

  /** The event has an error type, or its data is an object with an error in it. */
  ghost predicate IsError(reader: Reader, raw: RawSseEvent) {
    || raw.event == Some("error")
    || (Trim(raw.data) != "[DONE]"
        && exists chunk: seq<Field> :: reader.parseJson(raw.data) == Some(JObject(chunk)) && Get(chunk, "error").Some?)
  }

  /** A chunk whose choices are an array: none, or one object. */
  ghost predicate HasChoices(reader: Reader, raw: RawSseEvent, choices: seq<Json>) {
    && (choices == [] || (|choices| == 1 && choices[0].JObject?))
    && exists chunk: seq<Field> :: IsChunk(reader, raw, chunk) && Get(chunk, "choices") == Some(JArray(choices))
  }

  /** Errors, the end mark, and everything that is neither those nor a chunk with at most one choice. */
  lemma OtherEventsAreExact(reader: Reader, raw: RawSseEvent)
    ensures ReadEvent(reader, raw) == UpstreamError <==> IsError(reader, raw)
    ensures ReadEvent(reader, raw) == Done <==> raw.event != Some("error") && Trim(raw.data) == "[DONE]"
    ensures ReadEvent(reader, raw) == BadEvent <==>
            && !IsError(reader, raw) && Trim(raw.data) != "[DONE]"
            && forall choices: seq<Json> :: !HasChoices(reader, raw, choices)
  {
    hide ReadField, Get, Trim;
    var parsed := reader.parseJson(raw.data);
    if !IsError(reader, raw) && Trim(raw.data) != "[DONE]" && parsed.Some? && parsed.value.JObject? {
      var chunk := parsed.value.fields;
      assert IsChunk(reader, raw, chunk);
      var choices := Get(chunk, "choices");
      if choices.Some? && choices.value.JArray? && |choices.value.items| == 1 {
        assert choices.value.items == [choices.value.items[0]];
      }
      assert choices.Some? && choices.value.JArray? ==>
        forall other: seq<Json> :: HasChoices(reader, raw, other) ==> other == choices.value.items;
      assert HasChoices(reader, raw, if choices.Some? && choices.value.JArray? then choices.value.items else [])
        <==> choices.Some? && choices.value.JArray? &&
             (choices.value.items == [] || (|choices.value.items| == 1 && choices.value.items[0].JObject?));
    }
  }

  /** Of a choice: which fields are refused, and which text does not decrypt. */
  lemma RefusedFieldsAreExact(reader: Reader, choice: seq<Field>, name: string)
    requires name in ["content", "reasoning_content"]
    ensures var event, index, finish := ReadChoice(reader, JObject(choice)), Get(choice, "index"),
              Get(choice, "finish_reason");
            var delta := if Has(choice, "delta") then Get(choice, "delta").value else JNull;
            var text := if delta.JObject? then Get(delta.fields, name) else None;
            var field := if name == "content" then event.content else event.reasoning;
            && event.Choice?
            && (event.index == BadIndex <==> index.Some? && !(index.value.JInt? && 0 <= index.value.n))
            && (event.finish == BadFinish <==> finish.Some? && !finish.value.JNull? && !finish.value.JString?)
            && (field == Malformed <==> text.Some? && !text.value.JNull? && !text.value.JString?)
            && (field == Sealed(None) <==>
                  text.Some? && text.value.JString? && text.value.s != "" && reader.decrypt(text.value.s) == None)
  {
    hide Get;
  }

  // -------- Whole answers --------

  function EventsSaid(remarks: seq<Remark>): (events: seq<Event>)
    ensures |events| == |remarks|
  {
    if remarks == [] then [] else [EventOf(remarks[0])] + EventsSaid(remarks[1..])
  }

  function ContentSaid(remarks: seq<Remark>): string {
    if remarks == [] then ""
    else (if remarks[0].Spoken? then TextOr(remarks[0].content) else "") + ContentSaid(remarks[1..])
  }

  function ReasoningSaid(remarks: seq<Remark>): string {
    if remarks == [] then ""
    else (if remarks[0].Spoken? then TextOr(remarks[0].reasoning) else "") + ReasoningSaid(remarks[1..])
  }

  function UsageSaid(remarks: seq<Remark>): seq<Json> {
    if remarks == [] then []
    else (if remarks[0].Reported? then [remarks[0].usage] else []) + UsageSaid(remarks[1..])
  }

  function ReasonSaid(remarks: seq<Remark>): Option<string> {
    if remarks == [] then None
    else
      var later := ReasonSaid(remarks[1..]);
      if later.Some? then later else if remarks[0].Spoken? then remarks[0].finish else None
  }

  /** Upstream's events make these remarks one by one, and then end. */
  ghost predicate Talk(reader: Reader, raws: seq<RawSseEvent>, remarks: seq<Remark>) {
    && |raws| == |remarks| + 1
    && (forall k :: 0 <= k < |remarks| ==> Says(reader, raws[k], remarks[k]))
    && raws[|remarks|].event != Some("error") && Trim(raws[|remarks|].data) == "[DONE]"
  }

  lemma {:induction false} TalkIsRead(reader: Reader, raws: seq<RawSseEvent>, remarks: seq<Remark>)
    requires Talk(reader, raws, remarks)
    ensures ReadAll(reader, raws) == EventsSaid(remarks) + [Done]
    decreases |remarks|
  {
    hide ReadEvent, Says, Trim;
    if remarks == [] {
      OtherEventsAreExact(reader, raws[0]);
      assert raws[1..] == [] && [] + [Done] == [Done];
    } else {
      RemarkIsRead(reader, raws[0], remarks[0]);
      assert forall k :: 0 <= k < |remarks[1..]| ==> remarks[1..][k] == remarks[k + 1] && raws[1..][k] == raws[k + 1];
      TalkIsRead(reader, raws[1..], remarks[1..]);
      assert [EventOf(remarks[0])] + (EventsSaid(remarks[1..]) + [Done]) == EventsSaid(remarks) + [Done];
    }
  }

  /** A delta, where there is text, and then a finish chunk, where there is a reason. */
  lemma ChunksCarry(index: nat, delta: Delta, hasText: bool, finish: Option<string>)
    requires delta.call.None? && (!hasText ==> delta.content.None? && delta.reasoning.None?)
    ensures var outputs := (if hasText then [Chunk(index, delta, None)] else [])
                           + (if finish.Some? then [FinishChunk(index, finish.value)] else []);
            && ContentOf(outputs) == TextOr(delta.content) && ReasoningOf(outputs) == TextOr(delta.reasoning)
            && SC.UsageOf(outputs) == [] && LastFinish(outputs) == finish
  {
    hide ContentOf, ReasoningOf, PartsOf, LastFinish;
    var a: seq<StreamOutput> := if hasText then [Chunk(index, delta, None)] else [];
    var b: seq<StreamOutput> := if finish.Some? then [FinishChunk(index, finish.value)] else [];
    NothingSent();
    OneOutput(Chunk(index, delta, None));
    if finish.Some? {
      OneOutput(FinishChunk(index, finish.value));
    }
    OutputsAppend(a, b);
    SC.UsageAppend(a, b);
    assert SC.UsageOf(a) == [] && SC.UsageOf(b) == [];
    assert forall s: string :: s + "" == s;
  }

  /** What one remark sends to the client of a plain stream. */
  lemma RemarkIsSent(includeUsage: bool, st: State, remark: Remark)
    ensures StreamEvent(includeUsage, st, EventOf(remark)).Success?
    ensures var (next, outputs) := StreamEvent(includeUsage, st, EventOf(remark)).value;
            && ContentOf(outputs) == ContentSaid([remark]) && ReasoningOf(outputs) == ReasoningSaid([remark])
            && SC.UsageOf(outputs) == (if includeUsage then UsageSaid([remark]) else [])
            && LastFinish(outputs) == ReasonSaid([remark])
            && next.sentFinalFinish == (st.sentFinalFinish || ReasonSaid([remark]).Some?)
  {
    OneRemark(remark);
    hide ContentOf, ReasoningOf, PartsOf, LastFinish, SC.UsageOf, ContentSaid, ReasoningSaid, UsageSaid, ReasonSaid;
    match remark {
      case Reported(usage) =>
        NothingSent();
        SC.NoUsage();
        OneOutput(UsageChunk(usage));
        OneUsage(usage);
      case Spoken(index, finish, content, reasoning) =>
        var at, hasText := if index.Some? then index.value else 0, content.Some? || reasoning.Some?;
        var delta := Delta(!st.sentRole, reasoning, content, None);
        ChunksCarry(at, delta, hasText, finish);
        var none: seq<StreamOutput> := [];
        assert none + none == none && forall o: StreamOutput :: none + [o] == [o] && [o] + none == [o];
        assert forall o: StreamOutput, p: StreamOutput :: [o] + [p] == [o, p];
    }
  }

  lemma OneUsage(usage: Json)
    ensures SC.UsageOf([UsageChunk(usage)]) == [usage]
  {
    assert [UsageChunk(usage)][1..] == [];
  }

  lemma OneRemark(remark: Remark)
    ensures ContentSaid([remark]) == if remark.Spoken? then TextOr(remark.content) else ""
    ensures ReasoningSaid([remark]) == if remark.Spoken? then TextOr(remark.reasoning) else ""
    ensures UsageSaid([remark]) == if remark.Reported? then [remark.usage] else []
    ensures ReasonSaid([remark]) == if remark.Spoken? then remark.finish else None
  {
    assert [remark][1..] == [] && forall s: string :: s + "" == s;
  }

  lemma SaidStep(remarks: seq<Remark>)
    requires remarks != []
    ensures var first, rest := [remarks[0]], remarks[1..];
            && ContentSaid(remarks) == ContentSaid(first) + ContentSaid(rest)
            && ReasoningSaid(remarks) == ReasoningSaid(first) + ReasoningSaid(rest)
            && UsageSaid(remarks) == UsageSaid(first) + UsageSaid(rest)
            && ReasonSaid(remarks) == (if ReasonSaid(rest).Some? then ReasonSaid(rest) else ReasonSaid(first))
  {
    assert [remarks[0]][1..] == [] && forall s: string :: s + "" == s;
    assert forall u: seq<Json> :: u + [] == u;
  }

  /** A plain stream tells the client what was said, and ends with the last reason, or "stop". */
  lemma {:induction false} TalkIsStreamed(includeUsage: bool, st: State, remarks: seq<Remark>)
    ensures var streamed := StreamEvents(includeUsage, st, EventsSaid(remarks) + [Done]);
            && streamed.error == None
            && ContentOf(streamed.outputs) == ContentSaid(remarks)
            && ReasoningOf(streamed.outputs) == ReasoningSaid(remarks)
            && SC.UsageOf(streamed.outputs) == (if includeUsage then UsageSaid(remarks) else [])
            && LastFinish(streamed.outputs) ==
               (if ReasonSaid(remarks).Some? || st.sentFinalFinish then ReasonSaid(remarks) else Some("stop"))
    decreases |remarks|
  {
    hide StreamEvent, ContentOf, ReasoningOf, PartsOf, LastFinish, SC.UsageOf, ContentSaid, ReasoningSaid, UsageSaid,
      ReasonSaid;
    var events := EventsSaid(remarks) + [Done];
    if remarks == [] {
      assert events == [Done];
      EndIsStreamed(includeUsage, st);
    } else {
      var remark, rest := remarks[0], remarks[1..];
      assert events[0] == EventOf(remark) && events[1..] == EventsSaid(rest) + [Done];
      RemarkIsSent(includeUsage, st, remark);
      var (next, outputs) := StreamEvent(includeUsage, st, EventOf(remark)).value;
      TalkIsStreamed(includeUsage, next, rest);
      SaidStep(remarks);
      var later := StreamEvents(includeUsage, next, events[1..]).outputs;
      OutputsAppend(outputs, later);
      SC.UsageAppend(outputs, later);
    }
  }

  lemma EndIsStreamed(includeUsage: bool, st: State)
    ensures var streamed := StreamEvents(includeUsage, st, [Done]);
            && streamed.error == None && ContentOf(streamed.outputs) == ReasoningOf(streamed.outputs) == ""
            && SC.UsageOf(streamed.outputs) == []
            && LastFinish(streamed.outputs) == (if st.sentFinalFinish then None else Some("stop"))
    ensures ContentSaid([]) == ReasoningSaid([]) == "" && UsageSaid([]) == [] && ReasonSaid([]) == None
  {
    hide ContentOf, ReasoningOf, PartsOf, LastFinish;
    OneOutput(DoneMark);
    OneOutput(FinishChunk(0, "stop"));
    OutputsAppend([FinishChunk(0, "stop")], [DoneMark]);
    var both := [FinishChunk(0, "stop")] + [DoneMark];
    assert both[0] == FinishChunk(0, "stop") && both[1..] == [DoneMark] && [DoneMark][1..] == [];
    assert [] + [DoneMark] == [DoneMark] && "" + "" == "";
  }

  /** What the buffer and the tool transformer read is what was said, too. */
  lemma {:induction false} TalkIsPlain(remarks: seq<Remark>)
    ensures Plaintext(EventsSaid(remarks)) == ContentSaid(remarks)
    ensures forall e <- EventsSaid(remarks) :: Readable(e) && !e.Done?
  {
    if remarks != [] {
      TalkIsPlain(remarks[1..]);
      assert EventsSaid(remarks)[1..] == EventsSaid(remarks[1..]);
    }
  }

  /**
   Upstream's text, written in any lines and cut into any chunks: its events are the remarks it makes
   and the end, and the client of a plain stream is told exactly what they say.
   */
  lemma ChatRoundTrip(reader: Reader, includeUsage: bool, written: seq<SL.Rendered>, raws: seq<RawSseEvent>,
      remarks: seq<Remark>, chunks: seq<string>)
    requires (forall k :: 0 <= k < |written| ==> SL.Renderable(written[k])) && Concat(chunks) == SL.RenderAll(written)
    requires SL.AllSaid(written, []) == Success(raws) && Talk(reader, raws, remarks)
    ensures EventsOf(reader, "", chunks) == EventsSaid(remarks) + [Done]
    ensures var streamed := StreamEvents(includeUsage, InitialState, EventsOf(reader, "", chunks));
            && streamed.error == None
            && ContentOf(streamed.outputs) == ContentSaid(remarks)
            && ReasoningOf(streamed.outputs) == ReasoningSaid(remarks)
            && SC.UsageOf(streamed.outputs) == (if includeUsage then UsageSaid(remarks) else [])
            && LastFinish(streamed.outputs) ==
               Some(if ReasonSaid(remarks).Some? then ReasonSaid(remarks).value else "stop")
  {
    hide EventsOf, StreamEvents, ReadAll, Talk, FrameChunks, SL.AllSaid, SL.RenderAll, ContentOf, ReasoningOf,
      LastFinish, SC.UsageOf;
    SL.ChunkedRoundTrip(written, chunks);
    EventsAreFramed(reader, "", chunks, []);
    TalkIsRead(reader, raws, remarks);
    NothingRead(reader, EventsOf(reader, "", chunks));
    TalkIsStreamed(includeUsage, InitialState, remarks);
  }
}
