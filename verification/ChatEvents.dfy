/** Upstream chat events and client-facing stream outputs (src/http.rs). */
module ChatEvents {
  import opened Wrappers
  import opened Json
  import opened Classify

  /** An encrypted `delta` field; `Sealed(None)` stands for a payload that does not decrypt. */
  datatype DeltaField = Absent | Malformed | Sealed(plain: Option<string>)

  datatype ChoiceIndex = NoIndex | Number(value: nat) | BadIndex

  datatype FinishReason = NoFinish | Reason(text: string) | BadFinish

  /**
   One upstream event after classification. The last two are refused by every consumer and
   stand for error events, unreadable events, and failures to read or frame the stream.
   */
  datatype Event =
    | Done
    | Usage(usage: Option<Json>)
    | Choice(index: ChoiceIndex, finish: FinishReason, content: DeltaField, reasoning: DeltaField)
    | UpstreamError
    | BadEvent

  datatype CallFailure = Unusable(error: CallError) | NoCorrectedCall | CorrectionTooLong | TimedOut

  datatype ChatError =
    | UpstreamFailed
    | MalformedEvent
    | DecryptionFailed
    | InvalidCall(failure: CallFailure, invalidOutput: string)

  // -------- Reading a choice --------

  /** `normalized_choice_index`. */
  function ReadIndex(index: ChoiceIndex): Result<nat, ChatError> {
    match index
    case NoIndex => Success(0)
    case Number(value) => Success(value)
    case BadIndex => Failure(MalformedEvent)
  }

  /** `normalized_finish_reason`. */
  function ReadFinish(finish: FinishReason): Result<Option<string>, ChatError> {
    match finish
    case NoFinish => Success(None)
    case Reason(text) => Success(Some(text))
    case BadFinish => Failure(MalformedEvent)
  }

  /** `ChunkContext::decrypt` of a field that has been read. */
  function Decrypt(field: DeltaField): Result<Option<string>, ChatError>
    requires !field.Malformed?
  {
    match field
    case Absent => Success(None)
    case Sealed(None) => Failure(DecryptionFailed)
    case Sealed(Some(text)) => Success(Some(text))
  }

  // -------- Outputs --------

  /** A `delta` object; all fields empty stand for `{}`. */
  datatype Delta = Delta(role: bool, reasoning: Option<string>, content: Option<string>, call: Option<ToolCallPart>)

  datatype ToolCallPart = ToolCallPart(toolIndex: nat, call: ValidatedToolCall)

  datatype StreamOutput =
    | Chunk(index: nat, delta: Delta, finish: Option<string>)
    | UsageChunk(usage: Json)
    | DoneMark

  const EmptyDelta := Delta(false, None, None, None)

  function FinishChunk(index: nat, reason: string): StreamOutput {
    Chunk(index, EmptyDelta, Some(reason))
  }

  function TextOr(text: Option<string>): string {
    if text.Some? then text.value else ""
  }

  /** All content text a client receives. */
  function ContentOf(outputs: seq<StreamOutput>): string {
    if outputs == [] then ""
    else (if outputs[0].Chunk? then TextOr(outputs[0].delta.content) else "") + ContentOf(outputs[1..])
  }

  function ReasoningOf(outputs: seq<StreamOutput>): string {
    if outputs == [] then ""
    else (if outputs[0].Chunk? then TextOr(outputs[0].delta.reasoning) else "") + ReasoningOf(outputs[1..])
  }

  /** All tool calls a client receives, each with its index. */
  function PartsOf(outputs: seq<StreamOutput>): seq<ToolCallPart> {
    if outputs == [] then []
    else
      (if outputs[0].Chunk? && outputs[0].delta.call.Some? then [outputs[0].delta.call.value] else [])
      + PartsOf(outputs[1..])
  }

  /** The last finish reason a client receives. */
  function LastFinish(outputs: seq<StreamOutput>): Option<string> {
    if outputs == [] then None
    else
      var later := LastFinish(outputs[1..]);
      if later.Some? then later else if outputs[0].Chunk? then outputs[0].finish else None
  }

  lemma OneOutput(output: StreamOutput)
    ensures ContentOf([output]) == if output.Chunk? then TextOr(output.delta.content) else ""
    ensures ReasoningOf([output]) == if output.Chunk? then TextOr(output.delta.reasoning) else ""
    ensures PartsOf([output]) == if output.Chunk? && output.delta.call.Some? then [output.delta.call.value] else []
    ensures LastFinish([output]) == if output.Chunk? then output.finish else None
  {
    assert [output][1..] == [];
  }

  lemma NothingSent()
    ensures LastFinish([]) == None && PartsOf([]) == [] && ContentOf([]) == ReasoningOf([]) == ""
  {
  }

  lemma OutputsStep(a: seq<StreamOutput>, b: seq<StreamOutput>)
    requires a != []
    ensures ContentOf(a + b) == ContentOf([a[0]]) + ContentOf(a[1..] + b)
    ensures ReasoningOf(a + b) == ReasoningOf([a[0]]) + ReasoningOf(a[1..] + b)
    ensures PartsOf(a + b) == PartsOf([a[0]]) + PartsOf(a[1..] + b)
    ensures LastFinish(a + b) == if LastFinish(a[1..] + b).Some? then LastFinish(a[1..] + b) else LastFinish([a[0]])
  {
    assert (a + b)[1..] == a[1..] + b;
    OneOutput(a[0]);
  }

  lemma {:induction false} OutputsAppend(a: seq<StreamOutput>, b: seq<StreamOutput>)
    ensures ContentOf(a + b) == ContentOf(a) + ContentOf(b)
    ensures ReasoningOf(a + b) == ReasoningOf(a) + ReasoningOf(b)
    ensures PartsOf(a + b) == PartsOf(a) + PartsOf(b)
    ensures LastFinish(a + b) == if LastFinish(b).Some? then LastFinish(b) else LastFinish(a)
  {
    hide ContentOf, ReasoningOf, PartsOf, LastFinish;
    if a == [] {
      assert a + b == b;
      NothingSent();
    } else {
      OutputsStep(a, b);
      OutputsStep(a, []);
      assert a + [] == a && a[1..] + [] == a[1..];
      OutputsAppend(a[1..], b);
      var first, rest := [a[0]], a[1..];
      assert ContentOf(first) + (ContentOf(rest) + ContentOf(b)) == ContentOf(first) + ContentOf(rest) + ContentOf(b);
      assert ReasoningOf(first) + (ReasoningOf(rest) + ReasoningOf(b)) ==
        ReasoningOf(first) + ReasoningOf(rest) + ReasoningOf(b);
      assert PartsOf(first) + (PartsOf(rest) + PartsOf(b)) == PartsOf(first) + PartsOf(rest) + PartsOf(b);
    }
  }

  /** All decrypted content of a list of events. */
  function Plaintext(events: seq<Event>): string {
    if events == [] then ""
    else
      (if events[0].Choice? && events[0].content.Sealed? then TextOr(events[0].content.plain) else "")
      + Plaintext(events[1..])
  }

  lemma {:induction false} PlaintextAppend(a: seq<Event>, b: seq<Event>)
    ensures Plaintext(a + b) == Plaintext(a) + Plaintext(b)
  {
    if a == [] {
      assert a + b == b;
    } else {
      assert (a + b)[1..] == a[1..] + b;
      PlaintextAppend(a[1..], b);
    }
  }

  predicate ReadableField(field: DeltaField) {
    field.Absent? || (field.Sealed? && field.plain.Some?)
  }

  /** An event no consumer refuses for its shape or its encryption. */
  predicate Readable(event: Event) {
    match event
    case Done => true
    case Usage(usage) => usage.Some?
    case Choice(index, finish, content, reasoning) =>
      !index.BadIndex? && !finish.BadFinish? && ReadableField(content) && ReadableField(reasoning)
    case _ => false
  }

  /** An event that neither finishes the choice nor ends the stream. */
  predicate Continuing(event: Event) {
    !event.Done? && (event.Choice? ==> event.finish.NoFinish?)
  }
}
