/** Plain chat: the buffered completion and the streaming transformer (src/http.rs). */
module PlainStream {
  import opened Wrappers
  import opened Json
  import opened ChatEvents
  import SP = StreamProtocol

  // -------- The buffered completion --------

  /** Metadata (id, timestamp, model) is left out; `reasoning` is all reasoning text so far. */
  datatype Buffered = Buffered(
    choiceIndex: Option<nat>, sawEncrypted: bool, content: string, reasoning: string,
    finish: Option<string>, usage: Option<Json>)

  const EmptyBuffer := Buffered(None, false, "", "", None, None)

  datatype Completion = Completion(index: nat, content: string, reasoning: Option<string>, finish: string,
    usage: Option<Json>)

  /** The buffered `handle_choice_chunk`. */
  function BufferChoice(b: Buffered, event: Event): Result<Buffered, ChatError>
    requires event.Choice?
  {
    var index :- ReadIndex(event.index);
    if b.choiceIndex.Some? && b.choiceIndex.value != index then Failure(MalformedEvent)
    else
      var finish :- ReadFinish(event.finish);
      if event.content.Malformed? || event.reasoning.Malformed? then Failure(MalformedEvent)
      else
        var content :- Decrypt(event.content);
        var reasoning :- Decrypt(event.reasoning);
        Success(Buffered(
          Some(index),
          b.sawEncrypted || event.content.Sealed? || event.reasoning.Sealed?,
          b.content + TextOr(content), b.reasoning + TextOr(reasoning),
          if finish.Some? then finish else b.finish, b.usage))
  }

  /** The buffered `handle_event`; the flag says that `[DONE]` was reached. */
  function BufferEvent(requireEncrypted: bool, b: Buffered, event: Event): Result<(Buffered, bool), ChatError> {
    match event
    case Done =>
      if !b.sawEncrypted && requireEncrypted then Failure(DecryptionFailed)
      else Success((b.(finish := if b.finish.None? then Some("stop") else b.finish), true))
    case Usage(None) => Failure(MalformedEvent)
    case Usage(Some(usage)) => Success((b.(usage := Some(usage)), false))
    case Choice(_, _, _, _) => (
      var next :- BufferChoice(b, event);
      Success((next, false)))
    case UpstreamError => Failure(UpstreamFailed)
    case BadEvent => Failure(MalformedEvent)
  }

  /** `into_response`. */
  function IntoResponse(b: Buffered): Completion {
    Completion(
      if b.choiceIndex.Some? then b.choiceIndex.value else 0, b.content,
      if b.reasoning == "" then None else Some(b.reasoning),
      if b.finish.Some? then b.finish.value else "stop", b.usage)
  }

  /** The event loop of `buffer_openai_chat_completion`; events that end before Done are an error. */
  function BufferEvents(requireEncrypted: bool, b: Buffered, events: seq<Event>): Result<Buffered, ChatError>
    decreases |events|
  {
    if events == [] then Failure(MalformedEvent)
    else match BufferEvent(requireEncrypted, b, events[0])
      case Failure(e) => Failure(e)
      case Success((next, done)) => if done then Success(next) else BufferEvents(requireEncrypted, next, events[1..])
  }

  class OpenAiChatCompletionBuffer {
    const requireEncrypted: bool
    var choiceIndex: Option<nat>
    var sawEncrypted: bool
    var content: string
    var reasoning: string
    var finish: Option<string>
    var usage: Option<Json>

    function Snapshot(): Buffered
      reads this
    {
      Buffered(choiceIndex, sawEncrypted, content, reasoning, finish, usage)
    }

    constructor (requireEncrypted: bool)
      ensures Snapshot() == EmptyBuffer && this.requireEncrypted == requireEncrypted
    {
      this.requireEncrypted := requireEncrypted;
      choiceIndex, sawEncrypted, content, reasoning, finish, usage := None, false, "", "", None, None;
    }

    method HandleChoiceChunk(event: Event) returns (r: Result<(), ChatError>)
      requires event.Choice?
      modifies this
      ensures match BufferChoice(old(Snapshot()), event)
              case Failure(e) => r == Failure(e)
              case Success(next) => r == Success(()) && Snapshot() == next
    {
      var index :- ReadIndex(event.index);
      if choiceIndex.Some? && choiceIndex.value != index {
        return Failure(MalformedEvent);
      }
      choiceIndex := Some(index);
      var finishReason :- ReadFinish(event.finish);
      if event.content.Malformed? || event.reasoning.Malformed? {
        return Failure(MalformedEvent);
      }
      if event.content.Sealed? {
        var text :- Decrypt(event.content);
        sawEncrypted := true;
        content := content + TextOr(text);
      }
      if event.reasoning.Sealed? {
        var text :- Decrypt(event.reasoning);
        sawEncrypted := true;
        reasoning := reasoning + TextOr(text);
      }
      if finishReason.Some? {
        finish := finishReason;
      }
      assert old(content) + "" == old(content) && old(reasoning) + "" == old(reasoning);
      return Success(());
    }

    method HandleEvent(event: Event) returns (r: Result<bool, ChatError>)
      modifies this
      ensures match BufferEvent(requireEncrypted, old(Snapshot()), event)
              case Failure(e) => r == Failure(e)
              case Success((next, done)) => r == Success(done) && Snapshot() == next
    {
      match event {
        case Done =>
          if !sawEncrypted && requireEncrypted {
            return Failure(DecryptionFailed);
          }
          if finish.None? {
            finish := Some("stop");
          }
          return Success(true);
        case Usage(None) => return Failure(MalformedEvent);
        case Usage(Some(value)) =>
          usage := Some(value);
          return Success(false);
        case Choice(_, _, _, _) =>
          var _ :- HandleChoiceChunk(event);
          return Success(false);
        case UpstreamError => return Failure(UpstreamFailed);
        case BadEvent => return Failure(MalformedEvent);
      }
    }
  }

  /** `buffer_openai_chat_completion` over the events of one upstream stream. */
  method BufferCompletion(requireEncrypted: bool, events: seq<Event>) returns (r: Result<Completion, ChatError>)
    ensures r == match BufferEvents(requireEncrypted, EmptyBuffer, events)
                 case Failure(e) => Failure(e)
                 case Success(b) => Success(IntoResponse(b))
  {
    hide BufferEvent;
    var transformer := new OpenAiChatCompletionBuffer(requireEncrypted);
    var i := 0;
    while i < |events|
      invariant 0 <= i <= |events|
      invariant transformer.requireEncrypted == requireEncrypted
      invariant BufferEvents(requireEncrypted, EmptyBuffer, events) ==
                BufferEvents(requireEncrypted, transformer.Snapshot(), events[i..])
    {
      assert events[i..][1..] == events[i + 1..];
      var done :- transformer.HandleEvent(events[i]);
      if done {
        return Success(IntoResponse(transformer.Snapshot()));
      }
      i := i + 1;
    }
    return Failure(MalformedEvent);
  }

  // -------- The streaming transformer --------

  datatype State = State(sentRole: bool, sentFinalFinish: bool)

  const InitialState := State(false, false)

  type Step = Result<(State, seq<StreamOutput>), ChatError>

  /** The streaming `handle_choice_chunk`; the index is read only where a chunk is built. */
  function StreamChoice(st: State, event: Event): Step
    requires event.Choice?
  {
    var finish :- ReadFinish(event.finish);
    if event.content.Malformed? || event.reasoning.Malformed? then Failure(MalformedEvent)
    else if event.content.Absent? && event.reasoning.Absent? then
      if finish.None? then Success((st, []))
      else
        var index :- ReadIndex(event.index);
        Success((st.(sentFinalFinish := true), [FinishChunk(index, finish.value)]))
    else
      var content :- Decrypt(event.content);
      var reasoning :- Decrypt(event.reasoning);
      if content.None? && reasoning.None? then Success((st, []))
      else
        var index :- ReadIndex(event.index);
        var chunk := Chunk(index, Delta(!st.sentRole, reasoning, content, None), None);
        if finish.None? then Success((st.(sentRole := true), [chunk]))
        else Success((State(true, true), [chunk, FinishChunk(index, finish.value)]))
  }

  /** The streaming `handle_event`. */
  function StreamEvent(includeUsage: bool, st: State, event: Event): Step {
    match event
    case Done => Success((st.(sentFinalFinish := true),
      (if st.sentFinalFinish then [] else [FinishChunk(0, "stop")]) + [DoneMark]))
    case Usage(None) => Failure(MalformedEvent)
    case Usage(Some(usage)) => Success((st, if includeUsage then [UsageChunk(usage)] else []))
    case Choice(_, _, _, _) => StreamChoice(st, event)
    case UpstreamError => Failure(UpstreamFailed)
    case BadEvent => Failure(MalformedEvent)
  }

  /** What a client has received when its stream ends, and the error that cut it off. */
  datatype Streamed = Streamed(outputs: seq<StreamOutput>, error: Option<ChatError>)

  /** The loop of `chat_sse_event_stream`; events that end before Done are an error. */
  function StreamEvents(includeUsage: bool, st: State, events: seq<Event>): Streamed
    decreases |events|
  {
    if events == [] then Streamed([], Some(MalformedEvent))
    else match StreamEvent(includeUsage, st, events[0])
      case Failure(e) => Streamed([], Some(e))
      case Success((next, outputs)) =>
        if events[0].Done? then Streamed(outputs, None)
        else
          var rest := StreamEvents(includeUsage, next, events[1..]);
          rest.(outputs := outputs + rest.outputs)
  }

  class OpenAiChatStreamTransformer {
    const includeUsage: bool
    var sentRole: bool
    var sentFinalFinish: bool

    function Snapshot(): State
      reads this
    {
      State(sentRole, sentFinalFinish)
    }

    constructor (includeUsage: bool)
      ensures Snapshot() == InitialState && this.includeUsage == includeUsage
    {
      this.includeUsage := includeUsage;
      sentRole, sentFinalFinish := false, false;
    }

    method HandleChoiceChunk(event: Event) returns (r: Result<seq<StreamOutput>, ChatError>)
      requires event.Choice?
      modifies this
      ensures match StreamChoice(old(Snapshot()), event)
              case Failure(e) => r == Failure(e)
              case Success((next, outputs)) => r == Success(outputs) && Snapshot() == next
    {
      var finish :- ReadFinish(event.finish);
      if event.content.Malformed? || event.reasoning.Malformed? {
        return Failure(MalformedEvent);
      }
      var output: seq<StreamOutput> := [];
      if event.content.Absent? && event.reasoning.Absent? {
        if finish.Some? {
          var index :- ReadIndex(event.index);
          output := [FinishChunk(index, finish.value)];
          sentFinalFinish := true;
        }
        return Success(output);
      }
      var content :- Decrypt(event.content);
      var reasoning :- Decrypt(event.reasoning);
      if content.Some? || reasoning.Some? {
        var role := !sentRole;
        sentRole := true;
        var index :- ReadIndex(event.index);
        var chunk := Chunk(index, Delta(role, reasoning, content, None), None);
        output := [chunk];
        if finish.Some? {
          output := output + [FinishChunk(index, finish.value)];
          assert output == [chunk, FinishChunk(index, finish.value)];
          sentFinalFinish := true;
        }
      }
      return Success(output);
    }

    method HandleEvent(event: Event) returns (r: Result<seq<StreamOutput>, ChatError>)
      modifies this
      ensures match StreamEvent(includeUsage, old(Snapshot()), event)
              case Failure(e) => r == Failure(e)
              case Success((next, outputs)) => r == Success(outputs) && Snapshot() == next
    {
      match event {
        case Done =>
          var output: seq<StreamOutput> := [];
          if !sentFinalFinish {
            output := [FinishChunk(0, "stop")];
            sentFinalFinish := true;
          }
          return Success(output + [DoneMark]);
        case Usage(None) => return Failure(MalformedEvent);
        case Usage(Some(usage)) => return Success(if includeUsage then [UsageChunk(usage)] else []);
        case Choice(_, _, _, _) => r := HandleChoiceChunk(event);
        case UpstreamError => return Failure(UpstreamFailed);
        case BadEvent => return Failure(MalformedEvent);
      }
    }
  }

  // -------- Streaming refines buffering --------

  /** The last usage a client receives. */
  function LastUsage(outputs: seq<StreamOutput>): Option<Json> {
    if outputs == [] then None
    else
      var later := LastUsage(outputs[1..]);
      if later.Some? then later else if outputs[0].UsageChunk? then Some(outputs[0].usage) else None
  }

  lemma {:induction false} LastUsageAppend(a: seq<StreamOutput>, b: seq<StreamOutput>)
    ensures LastUsage(a + b) == if LastUsage(b).Some? then LastUsage(b) else LastUsage(a)
  {
    if a == [] {
      assert a + b == b;
    } else {
      assert (a + b)[1..] == a[1..] + b;
      LastUsageAppend(a[1..], b);
    }
  }

  /** What two outputs at most come to. */
  lemma FewOutputs(outputs: seq<StreamOutput>)
    requires |outputs| <= 2
    ensures LastUsage(outputs) == if |outputs| == 2 && outputs[1].UsageChunk? then Some(outputs[1].usage)
                                  else if outputs != [] && outputs[0].UsageChunk? then Some(outputs[0].usage) else None
    ensures |outputs| == 2 ==>
              && ContentOf(outputs) == ContentOf([outputs[0]]) + ContentOf([outputs[1]])
              && ReasoningOf(outputs) == ReasoningOf([outputs[0]]) + ReasoningOf([outputs[1]])
              && PartsOf(outputs) == PartsOf([outputs[0]]) + PartsOf([outputs[1]])
              && LastFinish(outputs) == Latest(LastFinish([outputs[0]]), LastFinish([outputs[1]]))
  {
    if |outputs| == 2 {
      assert outputs == [outputs[0]] + [outputs[1]] && outputs[1..] == [outputs[1]] && outputs[1..][1..] == [];
      OutputsAppend([outputs[0]], [outputs[1]]);
    } else if |outputs| == 1 {
      assert outputs[1..] == [];
    }
  }

  function Latest<T>(older: Option<T>, newer: Option<T>): Option<T> {
    if newer.Some? then newer else older
  }

  /** What the client receives turns the buffer's old contents into its new ones. */
  ghost predicate Carries(includeUsage: bool, b: Buffered, outputs: seq<StreamOutput>, c: Buffered) {
    && c.content == b.content + ContentOf(outputs)
    && c.reasoning == b.reasoning + ReasoningOf(outputs)
    && c.finish == Latest(b.finish, LastFinish(outputs))
    && (includeUsage ==> c.usage == Latest(b.usage, LastUsage(outputs)))
    && PartsOf(outputs) == []
  }

  ghost predicate InStep(b: Buffered, st: State) {
    b.finish.Some? <==> st.sentFinalFinish
  }

  /** All delta chunks carry this choice index. */
  ghost predicate IndexedBy(outputs: seq<StreamOutput>, index: Option<nat>) {
    forall o <- outputs :: o.Chunk? && o.finish.None? ==> index == Some(o.index)
  }

  lemma SumUp(outputs: seq<StreamOutput>)
    requires |outputs| <= 2
    requires |outputs| == 2 ==> outputs[1].DoneMark? || (outputs[1].Chunk? && outputs[1].delta == EmptyDelta)
    ensures ContentOf(outputs) == if outputs != [] && outputs[0].Chunk? then TextOr(outputs[0].delta.content) else ""
    ensures ReasoningOf(outputs) ==
            if outputs != [] && outputs[0].Chunk? then TextOr(outputs[0].delta.reasoning) else ""
    ensures outputs == [] || !outputs[0].Chunk? || outputs[0].delta.call.None? ==> PartsOf(outputs) == []
    ensures |outputs| == 2 && outputs[1].Chunk? && outputs[1].finish.Some? ==> LastFinish(outputs) == outputs[1].finish
    ensures |outputs| <= 1 || !outputs[1].Chunk? || outputs[1].finish.None? ==>
              LastFinish(outputs) == if outputs != [] && outputs[0].Chunk? then outputs[0].finish else None
    ensures LastUsage(outputs) == if outputs != [] && outputs[0].UsageChunk? then Some(outputs[0].usage) else None
  {
    hide ContentOf, ReasoningOf, PartsOf, LastFinish, LastUsage;
    FewOutputs(outputs);
    NothingSent();
    if outputs != [] {
      OneOutput(outputs[0]);
      if |outputs| == 1 {
        assert outputs == [outputs[0]];
      } else {
        OneOutput(outputs[1]);
        assert ContentOf([outputs[0]]) + "" == ContentOf([outputs[0]]);
        assert ReasoningOf([outputs[0]]) + "" == ReasoningOf([outputs[0]]);
      }
    }
  }

  lemma ChoiceRefines(includeUsage: bool, b: Buffered, st: State, event: Event)
    requires event.Choice? && InStep(b, st) && BufferChoice(b, event).Success?
    ensures StreamChoice(st, event).Success?
    ensures var (next, outputs) := StreamChoice(st, event).value;
            var c := BufferChoice(b, event).value;
            Carries(includeUsage, b, outputs, c) && InStep(c, next) && IndexedBy(outputs, c.choiceIndex)
  {
    hide ContentOf, ReasoningOf, PartsOf, LastFinish, LastUsage;
    var outputs := StreamChoice(st, event).value.1;
    assert b.content + "" == b.content && b.reasoning + "" == b.reasoning;
    SumUp(outputs);
  }

  lemma EventRefines(requireEncrypted: bool, includeUsage: bool, b: Buffered, st: State, event: Event)
    requires InStep(b, st) && BufferEvent(requireEncrypted, b, event).Success?
    ensures StreamEvent(includeUsage, st, event).Success?
    ensures var (next, outputs) := StreamEvent(includeUsage, st, event).value;
            var (c, done) := BufferEvent(requireEncrypted, b, event).value;
            Carries(includeUsage, b, outputs, c) && InStep(c, next) && (done <==> event.Done?)
              && IndexedBy(outputs, c.choiceIndex)
  {
    hide BufferChoice, StreamChoice, ContentOf, ReasoningOf, PartsOf, LastFinish, LastUsage;
    assert b.content + "" == b.content && b.reasoning + "" == b.reasoning;
    match event {
      case Done => SumUp(StreamEvent(includeUsage, st, event).value.1);
      case Usage(Some(usage)) => SumUp(StreamEvent(includeUsage, st, event).value.1);
      case Choice(_, _, _, _) => ChoiceRefines(includeUsage, b, st, event);
    }
  }

  lemma CarriesBoth(includeUsage: bool, b: Buffered, x: seq<StreamOutput>, c: Buffered, y: seq<StreamOutput>,
      d: Buffered)
    requires Carries(includeUsage, b, x, c) && Carries(includeUsage, c, y, d)
    ensures Carries(includeUsage, b, x + y, d)
  {
    OutputsAppend(x, y);
    LastUsageAppend(x, y);
    assert b.content + ContentOf(x) + ContentOf(y) == b.content + (ContentOf(x) + ContentOf(y));
    assert b.reasoning + ReasoningOf(x) + ReasoningOf(y) == b.reasoning + (ReasoningOf(x) + ReasoningOf(y));
  }

  lemma {:induction false} RunRefines(requireEncrypted: bool, includeUsage: bool, b: Buffered, st: State,
      events: seq<Event>)
    requires InStep(b, st) && BufferEvents(requireEncrypted, b, events).Success?
    ensures var streamed := StreamEvents(includeUsage, st, events);
            var c := BufferEvents(requireEncrypted, b, events).value;
            && streamed.error == None && Carries(includeUsage, b, streamed.outputs, c) && c.finish.Some?
            && IndexedBy(streamed.outputs, c.choiceIndex) && (b.choiceIndex.Some? ==> c.choiceIndex == b.choiceIndex)
    decreases |events|
  {
    hide StreamEvent, Carries;
    EventRefines(requireEncrypted, includeUsage, b, st, events[0]);
    var (next, outputs) := StreamEvent(includeUsage, st, events[0]).value;
    var (c, done) := BufferEvent(requireEncrypted, b, events[0]).value;
    if !done {
      RunRefines(requireEncrypted, includeUsage, c, next, events[1..]);
      var rest := StreamEvents(includeUsage, next, events[1..]);
      CarriesBoth(includeUsage, b, outputs, c, rest.outputs, BufferEvents(requireEncrypted, c, events[1..]).value);
      assert c.choiceIndex.None? ==> forall o <- outputs :: !(o.Chunk? && o.finish.None?);
    }
  }

  /**
   Wherever buffering gives a completion, streaming ends in Done too, and its deltas
   add up to that completion: content, reasoning, last finish reason, choice index, usage.
   */
  lemma StreamingRefinesBuffering(requireEncrypted: bool, includeUsage: bool, events: seq<Event>)
    requires BufferEvents(requireEncrypted, EmptyBuffer, events).Success?
    ensures var streamed := StreamEvents(includeUsage, InitialState, events);
            var completion := IntoResponse(BufferEvents(requireEncrypted, EmptyBuffer, events).value);
            && streamed.error == None
            && ContentOf(streamed.outputs) == completion.content
            && ReasoningOf(streamed.outputs) == TextOr(completion.reasoning) && completion.reasoning != Some("")
            && LastFinish(streamed.outputs) == Some(completion.finish)
            && IndexedBy(streamed.outputs, Some(completion.index))
            && (includeUsage ==> LastUsage(streamed.outputs) == completion.usage)
  {
    hide StreamEvents, BufferEvents;
    RunRefines(requireEncrypted, includeUsage, EmptyBuffer, InitialState, events);
    var outputs := StreamEvents(includeUsage, InitialState, events).outputs;
    assert "" + ContentOf(outputs) == ContentOf(outputs) && "" + ReasoningOf(outputs) == ReasoningOf(outputs);
  }

  // -------- Exactly when buffering succeeds --------

  /** Up to Done, every choice has a valid index, and they are all equal. */
  predicate OneIndex(index: Option<nat>, events: seq<Event>)
    decreases |events|
  {
    events == [] || events[0].Done? ||
    if events[0].Choice? then
      && ReadIndex(events[0].index).Success?
      && (index.None? || index.value == ReadIndex(events[0].index).value)
      && OneIndex(Some(ReadIndex(events[0].index).value), events[1..])
    else OneIndex(index, events[1..])
  }

  /** Some choice before Done has an encrypted field. */
  predicate SeesEncrypted(events: seq<Event>)
    decreases |events|
  {
    events != [] && !events[0].Done?
    && ((events[0].Choice? && (events[0].content.Sealed? || events[0].reasoning.Sealed?)) || SeesEncrypted(events[1..]))
  }

  lemma ChoiceSucceeds(b: Buffered, st: State, event: Event)
    requires event.Choice?
    ensures BufferChoice(b, event).Success? <==>
            && StreamChoice(st, event).Success? && ReadIndex(event.index).Success?
            && (b.choiceIndex.None? || b.choiceIndex.value == ReadIndex(event.index).value)
  {
  }

  lemma {:induction false} RunSucceeds(requireEncrypted: bool, includeUsage: bool, b: Buffered, st: State,
      events: seq<Event>)
    ensures BufferEvents(requireEncrypted, b, events).Success? <==>
            && StreamEvents(includeUsage, st, events).error == None
            && OneIndex(b.choiceIndex, events)
            && (requireEncrypted ==> b.sawEncrypted || SeesEncrypted(events))
    decreases |events|
  {
    hide StreamChoice, Decrypt;
    if events != [] && !events[0].Done? {
      var event := events[0];
      if event.Choice? {
        ChoiceSucceeds(b, st, event);
      }
      if BufferEvent(requireEncrypted, b, event).Success? {
        var c := BufferEvent(requireEncrypted, b, event).value.0;
        var next := StreamEvent(includeUsage, st, event).value.0;
        RunSucceeds(requireEncrypted, includeUsage, c, next, events[1..]);
      }
    }
  }

  /**
   Buffering succeeds exactly where streaming does and the choice index never changes, with
   encryption seen if it is required.
   */
  lemma BufferingSucceedsExactly(requireEncrypted: bool, includeUsage: bool, events: seq<Event>)
    ensures BufferEvents(requireEncrypted, EmptyBuffer, events).Success? <==>
            && StreamEvents(includeUsage, InitialState, events).error == None
            && OneIndex(None, events)
            && (requireEncrypted ==> SeesEncrypted(events))
  {
    hide BufferEvents, StreamEvents, OneIndex, SeesEncrypted;
    RunSucceeds(requireEncrypted, includeUsage, EmptyBuffer, InitialState, events);
  }

  /** A choice index that changes is streamed and refused by the buffer. */
  lemma ChangedIndexFailsBuffering(requireEncrypted: bool, includeUsage: bool)
    ensures var events := [Choice(Number(0), NoFinish, Sealed(Some("a")), Absent),
                           Choice(Number(1), NoFinish, Sealed(Some("b")), Absent), Done];
            && StreamEvents(includeUsage, InitialState, events).error == None
            && BufferEvents(requireEncrypted, EmptyBuffer, events) == Failure(MalformedEvent)
  {
    var first := Choice(Number(0), NoFinish, Sealed(Some("a")), Absent);
    var second := Choice(Number(1), NoFinish, Sealed(Some("b")), Absent);
    var events := [first, second, Done];
    assert events[1..] == [second, Done] && events[1..][1..] == [Done];
    assert StreamEvents(includeUsage, State(true, false), [Done]).error == None;
    assert StreamEvents(includeUsage, State(true, false), [second, Done]).error == None;
  }

  // -------- The role --------

  ghost predicate HasDelta(outputs: seq<StreamOutput>) {
    exists i :: 0 <= i < |outputs| && SP.IsDelta(outputs[i])
  }

  lemma RolesJoin(role: bool, a: seq<StreamOutput>, b: seq<StreamOutput>)
    requires SP.RoleOnFirstDelta(role, a) && SP.RoleOnFirstDelta(role || HasDelta(a), b)
    ensures SP.RoleOnFirstDelta(role, a + b)
  {
    var all := a + b;
    forall i | 0 <= i < |all| && SP.IsDelta(all[i])
      ensures all[i].delta.role <==> !role && forall j :: 0 <= j < i ==> !SP.IsDelta(all[j])
    {
      assert forall j :: 0 <= j < |a| ==> all[j] == a[j];
      assert forall j :: |a| <= j < |all| ==> all[j] == b[j - |a|];
      assert forall j :: 0 <= j < |b| ==> b[j] == all[j + |a|];
      if HasDelta(a) {
        var k :| 0 <= k < |a| && SP.IsDelta(a[k]);
        assert SP.IsDelta(all[k]);
      }
    }
  }

  lemma EventRoles(includeUsage: bool, st: State, event: Event)
    requires StreamEvent(includeUsage, st, event).Success?
    ensures var (next, outputs) := StreamEvent(includeUsage, st, event).value;
            SP.RoleOnFirstDelta(st.sentRole, outputs) && (next.sentRole <==> st.sentRole || HasDelta(outputs))
  {
    var (next, outputs) := StreamEvent(includeUsage, st, event).value;
    if outputs != [] && SP.IsDelta(outputs[0]) {
      assert HasDelta(outputs);
    }
  }

  /** A plain stream, whole or cut off, sends the role with its first delta and with no other. */
  lemma {:induction false} RoleIsSentOnce(includeUsage: bool, st: State, events: seq<Event>)
    ensures SP.RoleOnFirstDelta(st.sentRole, StreamEvents(includeUsage, st, events).outputs)
    decreases |events|
  {
    hide StreamEvent, SP.RoleOnFirstDelta, HasDelta;
    if events == [] || StreamEvent(includeUsage, st, events[0]).Failure? {
      NoRoles(st.sentRole);
    } else {
      EventRoles(includeUsage, st, events[0]);
      var (next, outputs) := StreamEvent(includeUsage, st, events[0]).value;
      if !events[0].Done? {
        RoleIsSentOnce(includeUsage, next, events[1..]);
        RolesJoin(st.sentRole, outputs, StreamEvents(includeUsage, next, events[1..]).outputs);
      }
    }
  }

  lemma NoRoles(role: bool)
    ensures SP.RoleOnFirstDelta(role, [])
  {
  }
}
