/** The drivers that ask upstream again with a correction (src/http.rs). */
module Retry {
  import opened Wrappers
  import opened Text
  import opened Json
  import opened Classify
  import opened ChatEvents
  import opened ToolStream
  import PS = PlainStream

  /** Why the last attempt was no use, and what it said; both go into the next request. */
  datatype Correction = Correction(failure: CallFailure, invalidOutput: string)

  /** An upstream answer: refused, too late (a timeout of the buffered driver), or a stream of events. */
  datatype Upstream = Refused | Late | Stream(events: seq<Event>)

  /** Upstream as a function of the number of retries and the correction sent. */
  type Upstreams = (nat, Option<Correction>) -> Upstream

  datatype Outcome =
    | Ended
    | Broken(error: ChatError)
    | RequestFailed
    | Exhausted(lastFailure: CallFailure)

  // -------- The streaming driver --------

  /** One request, what it carried, and what its attempt sent to the client. */
  datatype Sent = Sent(correction: Option<Correction>, outputs: seq<StreamOutput>)

  datatype Report = Report(attempts: seq<Sent>, outcome: Outcome)

  function StreamAttempt(ctx: ToolContext, includeUsage: bool, correction: Option<Correction>): Attempt {
    Attempt(ctx, includeUsage, correction.Some?)
  }

  /** The streaming driver has no timeout; a stream that ends before Done is malformed. */
  function StreamRetries(ctx: ToolContext, includeUsage: bool, upstream: Upstreams, retries: nat,
      correction: Option<Correction>): Report
    requires retries <= ctx.maxRetries
    decreases ctx.maxRetries - retries
  {
    match upstream(retries, correction)
    case Stream(events) => (
      match RunEvents(StreamAttempt(ctx, includeUsage, correction), InitialState, events)
      case Completed(outputs) => Report([Sent(correction, outputs)], Ended)
      case Open(_, outputs) => Report([Sent(correction, outputs)], Broken(MalformedEvent))
      case Failed(outputs, InvalidCall(failure, invalidOutput)) => (
        if retries < ctx.maxRetries then
          var rest := StreamRetries(ctx, includeUsage, upstream, retries + 1, Some(Correction(failure, invalidOutput)));
          rest.(attempts := [Sent(correction, outputs)] + rest.attempts)
        else Report([Sent(correction, outputs)], Exhausted(failure)))
      case Failed(outputs, error) => Report([Sent(correction, outputs)], Broken(error)))
    case _ => Report([Sent(correction, [])], RequestFailed)
  }

  /** The attempt made of one upstream answer; a refused request sends nothing. */
  function AttemptRun(ctx: ToolContext, includeUsage: bool, answer: Upstream, correction: Option<Correction>): Run {
    if answer.Stream? then RunEvents(StreamAttempt(ctx, includeUsage, correction), InitialState, answer.events)
    else Open(InitialState, [])
  }

  /** One turn of the retry loop. */
  lemma RetriesStep(ctx: ToolContext, includeUsage: bool, upstream: Upstreams, retries: nat,
      correction: Option<Correction>)
    requires retries <= ctx.maxRetries
    ensures var report := StreamRetries(ctx, includeUsage, upstream, retries, correction);
            var run := AttemptRun(ctx, includeUsage, upstream(retries, correction), correction);
            if run.Failed? && run.error.InvalidCall? && retries < ctx.maxRetries then
              var next := Some(Correction(run.error.failure, run.error.invalidOutput));
              var rest := StreamRetries(ctx, includeUsage, upstream, retries + 1, next);
              report == Report([Sent(correction, run.outputs)] + rest.attempts, rest.outcome)
            else
              && report.attempts == [Sent(correction, run.outputs)]
              && (report.outcome.Ended? <==> run.Completed?)
              && (run.Failed? && run.error.InvalidCall? ==> report.outcome == Exhausted(run.error.failure))
              && (upstream(retries, correction).Stream? && run.Open? ==> report.outcome == Broken(MalformedEvent))
              && (run.Failed? && !run.error.InvalidCall? ==> report.outcome == Broken(run.error))
              && (!upstream(retries, correction).Stream? ==> report.outcome == RequestFailed)
  {
    hide RunEvents;
  }

  predicate NoEndMark(outputs: seq<StreamOutput>) {
    forall o <- outputs :: !o.DoneMark?
  }

  lemma {:induction false} CallChunksHaveNoEnd(sentRole: bool, index: nat, calls: seq<ValidatedToolCall>, first: nat)
    ensures NoEndMark(CallChunks(sentRole, index, calls, first))
    decreases |calls|
  {
    if calls != [] {
      CallChunksHaveNoEnd(true, index, calls[1..], first + 1);
    }
  }

  lemma FinishHasNoEnd(at: Attempt, st: State, index: nat, finish: Option<string>)
    requires FinishPart(at, st, index, finish).Success?
    ensures NoEndMark(FinishPart(at, st, index, finish).value.1)
  {
    hide ParseToolCalls;
    if st.bufferingToolCall && ClassifyOutput(at.tools, st.toolBuffer).ToolCalls? {
      CallChunksHaveNoEnd(st.sentRole, index, ClassifyOutput(at.tools, st.toolBuffer).calls, 0);
    }
  }

  lemma ContentHasNoEnd(at: Attempt, st: State, index: nat, content: Option<string>)
    requires ContentPart(at, st, index, content).Success?
    ensures NoEndMark(ContentPart(at, st, index, content).value.1)
  {
    hide Find, StreamableLen;
  }

  /** The end mark is sent for Done alone, and last. */
  lemma EndMarkIsLast(at: Attempt, st: State, event: Event)
    requires HandleEvent(at, st, event).Success?
    ensures var outputs := HandleEvent(at, st, event).value.1;
            if event.Done? then outputs != [] && NoEndMark(outputs[..|outputs| - 1]) && outputs[|outputs| - 1].DoneMark?
            else NoEndMark(outputs)
  {
    hide ReasoningPart, ContentPart, FinishPart;
    match event {
      case Done =>
        FinishHasNoEnd(at, st, 0, Some("stop"));
        var flushed := FinishPart(at, st, 0, Some("stop")).value.1;
        assert (flushed + [DoneMark])[..|flushed|] == flushed;
      case Choice(_, _, _, _) =>
        var index, reasoning, content := ReadIndex(event.index).value, Decrypt(event.reasoning).value,
          Decrypt(event.content).value;
        var (st1, out1) := ReasoningPart(at, st, index, reasoning);
        ReasoningHasNoEnd(at, st, index, reasoning);
        var (st2, out2) := ContentPart(at, st1, index, content).value;
        ContentHasNoEnd(at, st1, index, content);
        FinishHasNoEnd(at, st2, index, ReadFinish(event.finish).value);
      case Usage(_) =>
    }
  }

  lemma ReasoningHasNoEnd(at: Attempt, st: State, index: nat, reasoning: Option<string>)
    ensures NoEndMark(ReasoningPart(at, st, index, reasoning).1)
  {
  }

  /** Sends the outputs one by one, up to and including an end mark. */
  method Yield(outputs: seq<StreamOutput>) returns (sent: seq<StreamOutput>, done: bool)
    ensures done <==> !NoEndMark(outputs)
    ensures sent <= outputs
    ensures !done ==> sent == outputs
    ensures done ==> sent != [] && sent[|sent| - 1].DoneMark? && NoEndMark(sent[..|sent| - 1])
  {
    sent, done := [], false;
    for i := 0 to |outputs|
      invariant sent == outputs[..i] && NoEndMark(sent)
    {
      var before := sent;
      sent := sent + [outputs[i]];
      if outputs[i].DoneMark? {
        assert sent[..|sent| - 1] == before;
        assert outputs[i] in outputs;
        return sent, true;
      }
    }
  }

  /** One attempt: every event through a fresh transformer, until Done, an error or the end of the events. */
  method RunAttempt(at: Attempt, events: seq<Event>) returns (run: Run)
    ensures run == RunEvents(at, InitialState, events)
  {
    hide HandleEvent;
    var transformer := new OpenAiToolEmulatedChatStreamTransformer(at);
    var outputs: seq<StreamOutput> := [];
    var i := 0;
    while i < |events|
      invariant 0 <= i <= |events|
      invariant transformer.attempt == at
      invariant RunEvents(at, InitialState, events) == RunEvents(at, transformer.Snapshot(), events[i..]).After(outputs)
    {
      assert events[i..][1..] == events[i + 1..];
      ghost var st := transformer.Snapshot();
      var step := transformer.Handle(events[i]);
      if step.Failure? {
        assert outputs + [] == outputs;
        return Failed(outputs, step.error);
      }
      EndMarkIsLast(at, st, events[i]);
      var sent, done := Yield(step.value);
      if done {
        UpToEndMark(step.value, sent);
        return Completed(outputs + sent);
      }
      ghost var rest := RunEvents(at, transformer.Snapshot(), events[i + 1..]).outputs;
      assert outputs + (sent + rest) == outputs + sent + rest;
      outputs := outputs + sent;
      i := i + 1;
    }
    assert outputs + [] == outputs;
    return Open(transformer.Snapshot(), outputs);
  }

  lemma UpToEndMark(outputs: seq<StreamOutput>, sent: seq<StreamOutput>)
    requires outputs != [] && NoEndMark(outputs[..|outputs| - 1])
    requires sent <= outputs && sent != [] && sent[|sent| - 1].DoneMark?
    ensures sent == outputs
  {
    forall k | 0 <= k < |sent| && k < |outputs| - 1 ensures !sent[k].DoneMark? {
      assert sent[k] == outputs[..|outputs| - 1][k];
    }
  }

  /** `tool_emulated_chat_sse_event_stream_with_retries`. */
  method StreamWithRetries(ctx: ToolContext, includeUsage: bool, upstream: Upstreams) returns (report: Report)
    ensures report == StreamRetries(ctx, includeUsage, upstream, 0, None)
  {
    hide RunEvents, StreamRetries;
    assert forall s: seq<Sent> :: [] + s == s;
    var retries := 0;
    var correction: Option<Correction> := None;
    var attempts: seq<Sent> := [];
    while true
      invariant retries <= ctx.maxRetries
      invariant var rest := StreamRetries(ctx, includeUsage, upstream, retries, correction);
                StreamRetries(ctx, includeUsage, upstream, 0, None) == rest.(attempts := attempts + rest.attempts)
      decreases ctx.maxRetries - retries
    {
      RetriesStep(ctx, includeUsage, upstream, retries, correction);
      var answer := upstream(retries, correction);
      if !answer.Stream? {
        return Report(attempts + [Sent(correction, [])], RequestFailed);
      }
      var run := RunAttempt(StreamAttempt(ctx, includeUsage, correction), answer.events);
      var sent := [Sent(correction, run.outputs)];
      assert forall s: seq<Sent> :: attempts + (sent + s) == attempts + sent + s;
      attempts := attempts + sent;
      match run {
        case Completed(_) => return Report(attempts, Ended);
        case Open(_, _) => return Report(attempts, Broken(MalformedEvent));
        case Failed(_, InvalidCall(failure, invalidOutput)) =>
          if ctx.maxRetries <= retries {
            return Report(attempts, Exhausted(failure));
          }
          retries := retries + 1;
          correction := Some(Correction(failure, invalidOutput));
        case Failed(_, error) => return Report(attempts, Broken(error));
      }
    }
  }

  // -------- The buffered driver --------

  datatype Reply =
    | TextReply(completion: PS.Completion, retries: Option<nat>)
    | CallsReply(index: nat, reasoning: Option<string>, calls: seq<ValidatedToolCall>, usage: Option<Json>,
                 retries: Option<nat>)

  datatype BufferedReport = BufferedReport(requests: seq<Option<Correction>>, result: Result<Reply, Outcome>)

  /** One buffered attempt: an answer, an error that ends the request, or grounds for another attempt. */
  datatype Judgement = Answer(reply: Reply) | Stop(outcome: Outcome) | Again(correction: Correction)

  function RetriesHeader(retries: nat): Option<nat> {
    if 0 < retries then Some(retries) else None
  }

  function ReplyTo(completion: PS.Completion, verdict: Classification, retries: nat): Judgement {
    match verdict
    case NormalText => Answer(TextReply(completion, RetriesHeader(retries)))
    case ToolCalls(calls) =>
      Answer(CallsReply(completion.index, completion.reasoning, calls, completion.usage, RetriesHeader(retries)))
    case InvalidToolCall(error, invalidOutput) => Again(Correction(Unusable(error), invalidOutput))
  }

  function Judge(ctx: ToolContext, requireEncrypted: bool, upstream: Upstream, retries: nat): Judgement {
    match upstream
    case Refused => Stop(RequestFailed)
    case Late => Again(Correction(TimedOut, ""))
    case Stream(events) =>
      match PS.BufferEvents(requireEncrypted, PS.EmptyBuffer, events)
      case Failure(e) => Stop(Broken(e))
      case Success(b) =>
        var completion := PS.IntoResponse(b);
        ReplyTo(completion, ClassifyOutput(ctx, completion.content), retries)
  }

  function BufferedRetries(ctx: ToolContext, requireEncrypted: bool, upstream: Upstreams, retries: nat,
      correction: Option<Correction>): BufferedReport
    requires retries <= ctx.maxRetries
    decreases ctx.maxRetries - retries
  {
    match Judge(ctx, requireEncrypted, upstream(retries, correction), retries)
    case Answer(reply) => BufferedReport([correction], Success(reply))
    case Stop(outcome) => BufferedReport([correction], Failure(outcome))
    case Again(next) =>
      if retries < ctx.maxRetries then
        var rest := BufferedRetries(ctx, requireEncrypted, upstream, retries + 1, Some(next));
        rest.(requests := [correction] + rest.requests)
      else BufferedReport([correction], Failure(Exhausted(next.failure)))
  }

  /** One turn of the buffered loop, with the requests made before it. */
  lemma BufferedStep(ctx: ToolContext, requireEncrypted: bool, upstream: Upstreams, retries: nat,
      correction: Option<Correction>, before: seq<Option<Correction>>)
    requires retries <= ctx.maxRetries
    ensures var report := BufferedRetries(ctx, requireEncrypted, upstream, retries, correction);
            var all := report.(requests := before + report.requests);
            match Judge(ctx, requireEncrypted, upstream(retries, correction), retries)
            case Answer(reply) => all == BufferedReport(before + [correction], Success(reply))
            case Stop(outcome) => all == BufferedReport(before + [correction], Failure(outcome))
            case Again(next) =>
              if retries < ctx.maxRetries then
                var rest := BufferedRetries(ctx, requireEncrypted, upstream, retries + 1, Some(next));
                all == rest.(requests := before + [correction] + rest.requests)
              else all == BufferedReport(before + [correction], Failure(Exhausted(next.failure)))
  {
    hide Judge;
    var judgement := Judge(ctx, requireEncrypted, upstream(retries, correction), retries);
    if judgement.Again? && retries < ctx.maxRetries {
      var rest := BufferedRetries(ctx, requireEncrypted, upstream, retries + 1, Some(judgement.correction)).requests;
      assert before + ([correction] + rest) == before + [correction] + rest;
    }
  }

  /** The buffered loop of `openai_tool_emulated_chat_response`. */
  method BufferWithRetries(ctx: ToolContext, requireEncrypted: bool, upstream: Upstreams)
    returns (report: BufferedReport)
    ensures report == BufferedRetries(ctx, requireEncrypted, upstream, 0, None)
  {
    hide ClassifyOutput, PS.BufferEvents, BufferedRetries;
    var retries := 0;
    var correction: Option<Correction> := None;
    var requests: seq<Option<Correction>> := [];
    assert forall s: seq<Option<Correction>> :: [] + s == s;
    while true
      invariant retries <= ctx.maxRetries
      invariant var rest := BufferedRetries(ctx, requireEncrypted, upstream, retries, correction);
                BufferedRetries(ctx, requireEncrypted, upstream, 0, None) == rest.(requests := requests + rest.requests)
      decreases ctx.maxRetries - retries
    {
      BufferedStep(ctx, requireEncrypted, upstream, retries, correction, requests);
      var answer := upstream(retries, correction);
      requests := requests + [correction];
      if answer.Refused? {
        return BufferedReport(requests, Failure(RequestFailed));
      }
      var next: Correction;
      if answer.Late? {
        next := Correction(TimedOut, "");
      } else {
        var buffered := PS.BufferCompletion(requireEncrypted, answer.events);
        if buffered.Failure? {
          return BufferedReport(requests, Failure(Broken(buffered.error)));
        }
        var completion := buffered.value;
        var header := if 0 < retries then Some(retries) else None;
        match ClassifyOutput(ctx, completion.content) {
          case NormalText => return BufferedReport(requests, Success(TextReply(completion, header)));
          case ToolCalls(calls) =>
            return BufferedReport(requests,
              Success(CallsReply(completion.index, completion.reasoning, calls, completion.usage, header)));
          case InvalidToolCall(error, invalidOutput) => next := Correction(Unusable(error), invalidOutput);
        }
      }
      if ctx.maxRetries <= retries {
        return BufferedReport(requests, Failure(Exhausted(next.failure)));
      }
      retries := retries + 1;
      correction := Some(next);
    }
  }
}
