/** The streaming transformer for emulated tool calls (src/http.rs). */
module ToolStream {
  import opened Wrappers
  import opened Text
  import opened Classify
  import opened ChatEvents

  /** What one attempt is built with; `suppress` is set on every retry. */
  datatype Attempt = Attempt(tools: ToolContext, includeUsage: bool, suppress: bool)

  datatype State = State(
    sentRole: bool, sentFinalFinish: bool, pendingText: string,
    toolBuffer: string, bufferingToolCall: bool, emittedToolCalls: bool)

  const InitialState := State(false, false, "", "", false, false)

  type Step = Result<(State, seq<StreamOutput>), ChatError>

  // -------- Holding text back --------

  const PROTECTED_SUFFIX_LEN: nat := |TOOL_CALL_START| - 1

  /** The last character boundary at or before `i`. */
  function BoundaryBefore(s: string, i: nat): (b: nat)
    requires i <= |s|
    ensures b <= i && CharBoundary(s, b)
    ensures forall j :: b < j <= i ==> !CharBoundary(s, j)
  {
    if CharBoundary(s, i) then i else BoundaryBefore(s, i - 1)
  }

  function StreamableLen(pending: string): (n: nat)
    ensures n <= |pending|
  {
    if |pending| <= PROTECTED_SUFFIX_LEN then 0 else BoundaryBefore(pending, |pending| - PROTECTED_SUFFIX_LEN)
  }

  /** `streamable_pending_text_len`. */
  method FindStreamableLen(pending: string) returns (n: nat)
    ensures n == StreamableLen(pending)
  {
    if |pending| <= PROTECTED_SUFFIX_LEN {
      return 0;
    }
    n := |pending| - PROTECTED_SUFFIX_LEN;
    while !CharBoundary(pending, n)
      invariant n <= |pending| - PROTECTED_SUFFIX_LEN
      invariant BoundaryBefore(pending, n) == BoundaryBefore(pending, |pending| - PROTECTED_SUFFIX_LEN)
      decreases n
    {
      n := n - 1;
    }
  }

  // -------- Chunks --------

  function TextDelta(st: State, text: string): Delta {
    Delta(!st.sentRole, None, Some(text), None)
  }

  function EmitText(st: State, index: nat, text: string): (State, seq<StreamOutput>) {
    (st.(sentRole := true), [Chunk(index, TextDelta(st, text), None)])
  }

  /** `text_chunk_if_not_empty`. */
  function EmitTextIfAny(st: State, index: nat, text: string): (State, seq<StreamOutput>) {
    if text == "" then (st, []) else EmitText(st, index, text)
  }

  function EmitReasoning(st: State, index: nat, text: string): (State, seq<StreamOutput>) {
    (st.(sentRole := true), [Chunk(index, Delta(!st.sentRole, Some(text), None, None), None)])
  }

  /** One chunk per call, numbered from `first`. */
  function CallChunks(sentRole: bool, index: nat, calls: seq<ValidatedToolCall>, first: nat)
    : (chunks: seq<StreamOutput>)
    ensures |chunks| == |calls|
    decreases |calls|
  {
    if calls == [] then []
    else
      var part := ToolCallPart(first, calls[0]);
      [Chunk(index, Delta(!sentRole, None, None, Some(part)), None)] + CallChunks(true, index, calls[1..], first + 1)
  }

  // -------- Content --------

  /** `ensure_tool_buffer_within_limit`, then no output. */
  function KeepBuffering(at: Attempt, st: State): Step {
    if at.tools.maxBytes < |st.toolBuffer| then Failure(MalformedEvent) else Success((st, []))
  }

  /** `push_decrypted_content`. */
  function PushContent(at: Attempt, st: State, index: nat, content: string): Step {
    if st.bufferingToolCall then KeepBuffering(at, st.(toolBuffer := st.toolBuffer + content))
    else
      var pending := st.pendingText + content;
      match Find(pending, TOOL_CALL_START)
      case Some(i) => (
        var next := st.(toolBuffer := pending[i..], pendingText := "", bufferingToolCall := true);
        if at.tools.maxBytes < |next.toolBuffer| then Failure(MalformedEvent)
        else if at.suppress then Success((next, []))
        else Success(EmitTextIfAny(next, index, pending[..i])))
      case None =>
        if at.suppress && at.tools.maxBytes < |pending| then Failure(InvalidCall(CorrectionTooLong, pending))
        else if at.suppress then Success((st.(pendingText := pending), []))
        else
          var n := StreamableLen(pending);
          if n == 0 then Success((st.(pendingText := pending), []))
          else Success(EmitText(st.(pendingText := pending[n..]), index, pending[..n]))
  }

  // -------- Finishing --------

  /** `buffered_tool_call_chunks`. */
  function BufferedCallChunks(at: Attempt, st: State, index: nat): Step {
    if at.tools.maxBytes < |st.toolBuffer| then Failure(MalformedEvent)
    else
      match ClassifyOutput(at.tools, st.toolBuffer)
      case ToolCalls(calls) =>
        Success((st.(emittedToolCalls := true, sentRole := st.sentRole || calls != []),
                 CallChunks(st.sentRole, index, calls, 0)))
      case NormalText =>
        Success(EmitTextIfAny(st.(toolBuffer := "", bufferingToolCall := false), index, st.toolBuffer))
      case InvalidToolCall(error, invalidOutput) => Failure(InvalidCall(Unusable(error), invalidOutput))
  }

  /** What is flushed in front of the finish chunk. */
  function Flush(at: Attempt, st: State, index: nat): Step {
    if st.bufferingToolCall then BufferedCallChunks(at, st, index)
    else if at.suppress then Failure(InvalidCall(NoCorrectedCall, st.pendingText))
    else Success(EmitTextIfAny(st.(pendingText := ""), index, st.pendingText))
  }

  /** `finish_buffered_content`. */
  function FinishContent(at: Attempt, st: State, index: nat, reason: string): Step {
    var (next, flushed) :- Flush(at, st, index);
    Success((next.(sentFinalFinish := true),
             flushed + [FinishChunk(index, if next.emittedToolCalls then "tool_calls" else reason)]))
  }

  // -------- Events --------

  function ReasoningPart(at: Attempt, st: State, index: nat, reasoning: Option<string>): (State, seq<StreamOutput>) {
    if reasoning.Some? && !st.sentFinalFinish && !at.suppress then EmitReasoning(st, index, reasoning.value)
    else (st, [])
  }

  function ContentPart(at: Attempt, st: State, index: nat, content: Option<string>): Step {
    if content.Some? && !st.sentFinalFinish then PushContent(at, st, index, content.value) else Success((st, []))
  }

  function FinishPart(at: Attempt, st: State, index: nat, finish: Option<string>): Step {
    if finish.Some? && !st.sentFinalFinish then FinishContent(at, st, index, finish.value) else Success((st, []))
  }

  /** `handle_choice_chunk`. */
  function HandleChoice(at: Attempt, st: State, event: Event): Step
    requires event.Choice?
  {
    var index :- ReadIndex(event.index);
    var finish :- ReadFinish(event.finish);
    if event.content.Malformed? || event.reasoning.Malformed? then Failure(MalformedEvent)
    else
      var reasoning :- Decrypt(event.reasoning);
      var (st1, out1) := ReasoningPart(at, st, index, reasoning);
      var content :- Decrypt(event.content);
      var (st2, out2) :- ContentPart(at, st1, index, content);
      var (st3, out3) :- FinishPart(at, st2, index, finish);
      Success((st3, out1 + out2 + out3))
  }

  /** `handle_event`. */
  function HandleEvent(at: Attempt, st: State, event: Event): Step {
    match event
    case Done => (
      var (next, flushed) :- FinishPart(at, st, 0, Some("stop"));
      Success((next, flushed + [DoneMark])))
    case Usage(None) => Failure(MalformedEvent)
    case Usage(Some(usage)) => Success((st, if at.includeUsage then [UsageChunk(usage)] else []))
    case Choice(_, _, _, _) => HandleChoice(at, st, event)
    case UpstreamError => Failure(UpstreamFailed)
    case BadEvent => Failure(MalformedEvent)
  }

  /** An attempt over the events that have arrived: cut off, completed by Done, or failed. */
  datatype Run =
    | Open(state: State, outputs: seq<StreamOutput>)
    | Completed(outputs: seq<StreamOutput>)
    | Failed(outputs: seq<StreamOutput>, error: ChatError)
  {
    function After(earlier: seq<StreamOutput>): Run {
      this.(outputs := earlier + outputs)
    }
  }

  function RunEvents(at: Attempt, st: State, events: seq<Event>): Run
    decreases |events|
  {
    if events == [] then Open(st, [])
    else match HandleEvent(at, st, events[0])
      case Failure(e) => Failed([], e)
      case Success((next, outputs)) =>
        if events[0].Done? then Completed(outputs) else RunEvents(at, next, events[1..]).After(outputs)
  }

  // -------- The object --------

  class OpenAiToolEmulatedChatStreamTransformer {
    const attempt: Attempt
    var sentRole: bool
    var sentFinalFinish: bool
    var pendingText: string
    var toolBuffer: string
    var bufferingToolCall: bool
    var emittedToolCalls: bool

    function Snapshot(): State
      reads this
    {
      State(sentRole, sentFinalFinish, pendingText, toolBuffer, bufferingToolCall, emittedToolCalls)
    }

    constructor (attempt: Attempt)
      ensures Snapshot() == InitialState && this.attempt == attempt
    {
      this.attempt := attempt;
      sentRole, sentFinalFinish, pendingText, toolBuffer := false, false, "", "";
      bufferingToolCall, emittedToolCalls := false, false;
    }

    method RoleIfNeeded() returns (role: bool)
      modifies this`sentRole
      ensures role == !old(sentRole) && sentRole
    {
      role := !sentRole;
      sentRole := true;
    }

    method TextFieldChunk(index: nat, text: string) returns (output: StreamOutput)
      modifies this`sentRole
      ensures (Snapshot(), [output]) == EmitText(old(Snapshot()), index, text)
    {
      var role := RoleIfNeeded();
      output := Chunk(index, Delta(role, None, Some(text), None), None);
    }

    method PushDecryptedContent(index: nat, content: string) returns (r: Result<seq<StreamOutput>, ChatError>)
      modifies this
      ensures match PushContent(attempt, old(Snapshot()), index, content)
              case Failure(e) => r == Failure(e)
              case Success((next, outputs)) => r == Success(outputs) && Snapshot() == next
    {
      hide Find, StreamableLen;
      if bufferingToolCall {
        toolBuffer := toolBuffer + content;
        if attempt.tools.maxBytes < |toolBuffer| {
          return Failure(MalformedEvent);
        }
        return Success([]);
      }
      pendingText := pendingText + content;
      var marker := Find(pendingText, TOOL_CALL_START);
      if marker.Some? {
        var text := pendingText[..marker.value];
        toolBuffer := pendingText[marker.value..];
        pendingText := "";
        bufferingToolCall := true;
        if attempt.tools.maxBytes < |toolBuffer| {
          return Failure(MalformedEvent);
        }
        if attempt.suppress || text == "" {
          return Success([]);
        }
        var output := TextFieldChunk(index, text);
        return Success([output]);
      }
      if attempt.suppress {
        if attempt.tools.maxBytes < |pendingText| {
          return Failure(InvalidCall(CorrectionTooLong, pendingText));
        }
        return Success([]);
      }
      var n := FindStreamableLen(pendingText);
      if n == 0 {
        return Success([]);
      }
      var text := pendingText[..n];
      pendingText := pendingText[n..];
      var output := TextFieldChunk(index, text);
      return Success([output]);
    }

    method FullToolCallChunks(index: nat, calls: seq<ValidatedToolCall>) returns (outputs: seq<StreamOutput>)
      modifies this`sentRole
      ensures outputs == CallChunks(old(sentRole), index, calls, 0)
      ensures sentRole == (old(sentRole) || calls != [])
    {
      outputs := [];
      for k := 0 to |calls|
        invariant sentRole == (old(sentRole) || k > 0)
        invariant CallChunks(old(sentRole), index, calls, 0) == outputs + CallChunks(sentRole, index, calls[k..], k)
      {
        var role := RoleIfNeeded();
        outputs := outputs + [Chunk(index, Delta(role, None, None, Some(ToolCallPart(k, calls[k]))), None)];
        assert calls[k..][1..] == calls[k + 1..];
      }
    }

    method FinishBufferedContent(index: nat, reason: string) returns (r: Result<seq<StreamOutput>, ChatError>)
      modifies this
      ensures match FinishContent(attempt, old(Snapshot()), index, reason)
              case Failure(e) => r == Failure(e)
              case Success((next, outputs)) => r == Success(outputs) && Snapshot() == next
    {
      hide ClassifyOutput;
      var outputs: seq<StreamOutput> := [];
      if bufferingToolCall {
        if attempt.tools.maxBytes < |toolBuffer| {
          return Failure(MalformedEvent);
        }
        match ClassifyOutput(attempt.tools, toolBuffer) {
          case ToolCalls(calls) =>
            emittedToolCalls := true;
            outputs := FullToolCallChunks(index, calls);
          case NormalText =>
            var text := toolBuffer;
            toolBuffer := "";
            bufferingToolCall := false;
            if text != "" {
              var output := TextFieldChunk(index, text);
              outputs := [output];
            }
          case InvalidToolCall(error, invalidOutput) =>
            return Failure(InvalidCall(Unusable(error), invalidOutput));
        }
      } else if attempt.suppress {
        return Failure(InvalidCall(NoCorrectedCall, pendingText));
      } else if pendingText != "" {
        var text := pendingText;
        pendingText := "";
        var output := TextFieldChunk(index, text);
        outputs := [output];
      }
      outputs := outputs + [FinishChunk(index, if emittedToolCalls then "tool_calls" else reason)];
      sentFinalFinish := true;
      return Success(outputs);
    }

    method HandleChoiceChunk(event: Event) returns (r: Result<seq<StreamOutput>, ChatError>)
      requires event.Choice?
      modifies this
      ensures match HandleChoice(attempt, old(Snapshot()), event)
              case Failure(e) => r == Failure(e)
              case Success((next, outputs)) => r == Success(outputs) && Snapshot() == next
    {
      hide PushContent, FinishContent;
      var index :- ReadIndex(event.index);
      var finish :- ReadFinish(event.finish);
      if event.content.Malformed? || event.reasoning.Malformed? {
        return Failure(MalformedEvent);
      }
      var output: seq<StreamOutput> := [];
      var reasoning :- Decrypt(event.reasoning);
      if reasoning.Some? && !sentFinalFinish && !attempt.suppress {
        var role := RoleIfNeeded();
        output := [Chunk(index, Delta(role, reasoning, None, None), None)];
      }
      var content :- Decrypt(event.content);
      if content.Some? && !sentFinalFinish {
        var pushed :- PushDecryptedContent(index, content.value);
        output := output + pushed;
      }
      if finish.Some? && !sentFinalFinish {
        var finished :- FinishBufferedContent(index, finish.value);
        output := output + finished;
      }
      assert forall a: seq<StreamOutput> :: a + [] == a;
      return Success(output);
    }

    /** One event: the client's outputs, or the error that ends the attempt. */
    method Handle(event: Event) returns (r: Result<seq<StreamOutput>, ChatError>)
      modifies this
      ensures match HandleEvent(attempt, old(Snapshot()), event)
              case Failure(e) => r == Failure(e)
              case Success((next, outputs)) => r == Success(outputs) && Snapshot() == next
    {
      hide FinishContent, HandleChoice;
      match event {
        case Done =>
          var output: seq<StreamOutput> := [];
          if !sentFinalFinish {
            output :- FinishBufferedContent(0, "stop");
          }
          return Success(output + [DoneMark]);
        case Usage(None) => return Failure(MalformedEvent);
        case Usage(Some(usage)) => return Success(if attempt.includeUsage then [UsageChunk(usage)] else []);
        case Choice(_, _, _, _) => r := HandleChoiceChunk(event);
        case UpstreamError => return Failure(UpstreamFailed);
        case BadEvent => return Failure(MalformedEvent);
      }
    }
  }
}
