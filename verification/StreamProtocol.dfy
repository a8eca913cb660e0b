/** The protocol every tool-emulated stream attempt keeps towards the client (src/http.rs). */
module StreamProtocol {
  import opened Wrappers
  import opened Text
  import opened Classify
  import opened ChatEvents
  import opened ToolStream

  // -------- One output at a time --------

  /** What the client has been sent: a role, that many calls, the finish chunk, the end mark. */
  datatype Phase = Phase(role: bool, calls: nat, finished: bool, done: bool)

  const StartPhase := Phase(false, 0, false, false)

  predicate IsDelta(output: StreamOutput) {
    output.Chunk? && output.finish.None?
  }

  predicate IsFinish(output: StreamOutput) {
    output.Chunk? && output.finish.Some?
  }

  /** A delta carries exactly one of reasoning, content and one call. */
  predicate OneField(delta: Delta) {
    || (delta.reasoning.Some? && delta.content.None? && delta.call.None?)
    || (delta.reasoning.None? && delta.content.Some? && delta.call.None?)
    || (delta.reasoning.None? && delta.content.None? && delta.call.Some?)
  }

  predicate Allowed(p: Phase, output: StreamOutput) {
    !p.done &&
    match output
    case DoneMark => p.finished
    case UsageChunk(_) => true
    case Chunk(_, delta, None) =>
      && !p.finished && delta.role == !p.role && OneField(delta)
      && (if delta.call.Some? then delta.call.value.toolIndex == p.calls else p.calls == 0)
    case Chunk(_, delta, Some(reason)) =>
      !p.finished && delta == EmptyDelta && (0 < p.calls ==> reason == "tool_calls")
  }

  function Advance(p: Phase, output: StreamOutput): Phase {
    match output
    case DoneMark => p.(done := true)
    case UsageChunk(_) => p
    case Chunk(_, delta, None) => p.(role := true, calls := if delta.call.Some? then p.calls + 1 else p.calls)
    case Chunk(_, _, Some(_)) => p.(finished := true)
  }

  predicate Conforms(p: Phase, outputs: seq<StreamOutput>)
    decreases |outputs|
  {
    outputs == [] || (Allowed(p, outputs[0]) && Conforms(Advance(p, outputs[0]), outputs[1..]))
  }

  function PhaseAfter(p: Phase, outputs: seq<StreamOutput>): Phase
    decreases |outputs|
  {
    if outputs == [] then p else PhaseAfter(Advance(p, outputs[0]), outputs[1..])
  }

  lemma {:induction false} ConformsAppend(p: Phase, a: seq<StreamOutput>, b: seq<StreamOutput>)
    ensures Conforms(p, a + b) <==> Conforms(p, a) && Conforms(PhaseAfter(p, a), b)
    ensures PhaseAfter(p, a + b) == PhaseAfter(PhaseAfter(p, a), b)
    decreases |a|
  {
    if a == [] {
      assert a + b == b;
    } else {
      assert (a + b)[1..] == a[1..] + b;
      ConformsAppend(Advance(p, a[0]), a[1..], b);
    }
  }

  // -------- Attempts keep the protocol --------

  /** The client's view agrees with the transformer's flags. */
  ghost predicate InStep(st: State, p: Phase) {
    && p.role == st.sentRole && p.finished == st.sentFinalFinish && !p.done
    && (0 < p.calls <==> st.emittedToolCalls) && (0 < p.calls ==> p.finished)
  }

  /** Sending `outputs` brings the client from `p` in step with `st`. */
  ghost predicate Brings(p: Phase, outputs: seq<StreamOutput>, st: State) {
    Conforms(p, outputs) && InStep(st, PhaseAfter(p, outputs))
  }

  lemma OneConforms(p: Phase, output: StreamOutput)
    ensures Conforms(p, [output]) <==> Allowed(p, output)
    ensures PhaseAfter(p, [output]) == Advance(p, output)
  {
    assert [output][1..] == [];
  }

  lemma ContentBrings(at: Attempt, st: State, index: nat, content: Option<string>, p: Phase)
    requires InStep(st, p) && ContentPart(at, st, index, content).Success?
    ensures var (next, outputs) := ContentPart(at, st, index, content).value;
            Brings(p, outputs, next) && next.sentFinalFinish == st.sentFinalFinish
  {
    hide Find, StreamableLen;
    var (next, outputs) := ContentPart(at, st, index, content).value;
    if outputs != [] {
      OneConforms(p, outputs[0]);
      assert outputs == [outputs[0]];
    }
  }

  lemma ReasoningBrings(at: Attempt, st: State, index: nat, reasoning: Option<string>, p: Phase)
    requires InStep(st, p)
    ensures var (next, outputs) := ReasoningPart(at, st, index, reasoning);
            Brings(p, outputs, next) && next.sentFinalFinish == st.sentFinalFinish
  {
    var (next, outputs) := ReasoningPart(at, st, index, reasoning);
    if outputs != [] {
      OneConforms(p, outputs[0]);
    }
  }

  lemma {:induction false} CallsConform(index: nat, calls: seq<ValidatedToolCall>, p: Phase)
    requires !p.finished && !p.done
    ensures var chunks := CallChunks(p.role, index, calls, p.calls);
            Conforms(p, chunks)
              && PhaseAfter(p, chunks) == p.(role := p.role || calls != [], calls := p.calls + |calls|)
    decreases |calls|
  {
    if calls != [] {
      CallsConform(index, calls[1..], p.(role := true, calls := p.calls + 1));
    }
  }

  /** Flushing sends text or calls, and no finish chunk yet. */
  lemma FlushConforms(at: Attempt, st: State, index: nat, p: Phase)
    requires InStep(st, p) && !st.sentFinalFinish && Flush(at, st, index).Success?
    ensures var (next, outputs) := Flush(at, st, index).value;
            var q := PhaseAfter(p, outputs);
            && Conforms(p, outputs) && q.role == next.sentRole && !q.finished && !q.done
            && (0 < q.calls <==> next.emittedToolCalls) && !next.sentFinalFinish
  {
    hide ParseToolCalls;
    var (next, outputs) := Flush(at, st, index).value;
    if st.bufferingToolCall && ClassifyOutput(at.tools, st.toolBuffer).ToolCalls? {
      CallsConform(index, ClassifyOutput(at.tools, st.toolBuffer).calls, p);
    } else if outputs != [] {
      OneConforms(p, outputs[0]);
      assert outputs == [outputs[0]];
    }
  }

  lemma FinishBrings(at: Attempt, st: State, index: nat, finish: Option<string>, p: Phase)
    requires InStep(st, p) && FinishPart(at, st, index, finish).Success?
    ensures var (next, outputs) := FinishPart(at, st, index, finish).value;
            Brings(p, outputs, next) && (finish.Some? ==> next.sentFinalFinish)
  {
    hide Flush;
    if finish.Some? && !st.sentFinalFinish {
      FlushConforms(at, st, index, p);
      var (next, flushed) := Flush(at, st, index).value;
      var last := FinishChunk(index, if next.emittedToolCalls then "tool_calls" else finish.value);
      OneConforms(PhaseAfter(p, flushed), last);
      ConformsAppend(p, flushed, [last]);
    }
  }

  lemma BringsBoth(p: Phase, a: seq<StreamOutput>, mid: State, b: seq<StreamOutput>, st: State)
    requires Brings(p, a, mid) && Brings(PhaseAfter(p, a), b, st)
    ensures Brings(p, a + b, st)
  {
    ConformsAppend(p, a, b);
  }

  lemma ChoiceBrings(at: Attempt, st: State, event: Event, p: Phase)
    requires InStep(st, p) && event.Choice? && HandleChoice(at, st, event).Success?
    ensures var (next, outputs) := HandleChoice(at, st, event).value; Brings(p, outputs, next)
  {
    hide ReasoningPart, ContentPart, FinishPart, InStep, Conforms, PhaseAfter;
    var index, finish := ReadIndex(event.index).value, ReadFinish(event.finish).value;
    var reasoning, content := Decrypt(event.reasoning).value, Decrypt(event.content).value;
    var (st1, out1) := ReasoningPart(at, st, index, reasoning);
    ReasoningBrings(at, st, index, reasoning, p);
    var p1 := PhaseAfter(p, out1);
    var (st2, out2) := ContentPart(at, st1, index, content).value;
    ContentBrings(at, st1, index, content, p1);
    var p2 := PhaseAfter(p1, out2);
    var (st3, out3) := FinishPart(at, st2, index, finish).value;
    FinishBrings(at, st2, index, finish, p2);
    BringsBoth(p1, out2, st2, out3, st3);
    BringsBoth(p, out1, st1, out2 + out3, st3);
    assert out1 + out2 + out3 == out1 + (out2 + out3);
  }

  lemma EventBrings(at: Attempt, st: State, event: Event, p: Phase)
    requires InStep(st, p) && HandleEvent(at, st, event).Success?
    ensures var (next, outputs) := HandleEvent(at, st, event).value;
            && Conforms(p, outputs)
            && (if event.Done? then PhaseAfter(p, outputs).done else Brings(p, outputs, next))
  {
    hide HandleChoice, FinishPart;
    match event {
      case Done =>
        var (next, flushed) := FinishPart(at, st, 0, Some("stop")).value;
        FinishBrings(at, st, 0, Some("stop"), p);
        OneConforms(PhaseAfter(p, flushed), DoneMark);
        ConformsAppend(p, flushed, [DoneMark]);
      case Usage(Some(usage)) => OneConforms(p, UsageChunk(usage));
      case Choice(_, _, _, _) => ChoiceBrings(at, st, event, p);
    }
  }

  lemma {:induction false} RunConforms(at: Attempt, st: State, events: seq<Event>, p: Phase)
    requires InStep(st, p)
    ensures var run := RunEvents(at, st, events);
            && Conforms(p, run.outputs)
            && (run.Completed? <==> PhaseAfter(p, run.outputs).done)
            && (run.Open? ==> InStep(run.state, PhaseAfter(p, run.outputs)))
    decreases |events|
  {
    hide HandleEvent, Allowed, Advance;
    if events != [] && HandleEvent(at, st, events[0]).Success? {
      EventBrings(at, st, events[0], p);
      var (next, outputs) := HandleEvent(at, st, events[0]).value;
      if !events[0].Done? {
        var rest := RunEvents(at, next, events[1..]);
        RunConforms(at, next, events[1..], PhaseAfter(p, outputs));
        ConformsAppend(p, outputs, rest.outputs);
      }
    }
  }

  // -------- What the protocol means --------

  /** From `p` on, an output is a first delta exactly if no delta went before it. */
  ghost predicate RoleOnFirstDelta(role: bool, outputs: seq<StreamOutput>) {
    forall i :: 0 <= i < |outputs| && IsDelta(outputs[i]) ==>
      (outputs[i].delta.role <==> !role && forall j :: 0 <= j < i ==> !IsDelta(outputs[j]))
  }

  lemma {:induction false} RolesFollow(p: Phase, outputs: seq<StreamOutput>)
    requires Conforms(p, outputs)
    ensures RoleOnFirstDelta(p.role, outputs)
    decreases |outputs|
  {
    if outputs != [] {
      var q := Advance(p, outputs[0]);
      RolesFollow(q, outputs[1..]);
      forall i | 1 <= i < |outputs| && IsDelta(outputs[i])
        ensures outputs[i].delta.role <==> !p.role && forall j :: 0 <= j < i ==> !IsDelta(outputs[j])
      {
        assert outputs[i] == outputs[1..][i - 1];
        assert forall j :: 1 <= j < i ==> outputs[j] == outputs[1..][j - 1];
        assert forall j :: 0 <= j < i - 1 ==> outputs[1..][j] == outputs[j + 1];
      }
    }
  }

  lemma {:induction false} CallsAreNumbered(p: Phase, outputs: seq<StreamOutput>)
    requires Conforms(p, outputs)
    ensures forall k :: 0 <= k < |PartsOf(outputs)| ==> PartsOf(outputs)[k].toolIndex == p.calls + k
    ensures PhaseAfter(p, outputs).calls == p.calls + |PartsOf(outputs)|
    decreases |outputs|
  {
    if outputs != [] {
      CallsAreNumbered(Advance(p, outputs[0]), outputs[1..]);
    }
  }

  /** One finish chunk at `f`; after it only usage and, at the very end, the end mark. */
  ghost predicate FinishesAt(outputs: seq<StreamOutput>, f: int) {
    && 0 <= f < |outputs| - 1 && IsFinish(outputs[f]) && outputs[f].delta == EmptyDelta
    && outputs[|outputs| - 1].DoneMark?
    && (forall i :: 0 <= i < f ==> IsDelta(outputs[i]) || outputs[i].UsageChunk?)
    && (forall i :: f < i < |outputs| - 1 ==> outputs[i].UsageChunk?)
  }

  lemma {:induction false} EndsAfterFinish(p: Phase, outputs: seq<StreamOutput>)
    requires Conforms(p, outputs) && p.finished && !p.done && PhaseAfter(p, outputs).done
    ensures outputs != [] && outputs[|outputs| - 1].DoneMark?
    ensures forall i :: 0 <= i < |outputs| - 1 ==> outputs[i].UsageChunk?
    decreases |outputs|
  {
    if outputs[0].DoneMark? {
      assert outputs[1..] == [];
    } else {
      EndsAfterFinish(p, outputs[1..]);
      forall i | 1 <= i < |outputs| - 1 ensures outputs[i].UsageChunk? {
        assert outputs[i] == outputs[1..][i - 1];
      }
    }
  }

  lemma {:induction false} FinishIsUnique(p: Phase, outputs: seq<StreamOutput>) returns (f: nat)
    requires Conforms(p, outputs) && !p.finished && !p.done && PhaseAfter(p, outputs).done
    ensures FinishesAt(outputs, f)
    ensures LastFinish(outputs) == outputs[f].finish
    ensures PhaseAfter(p, outputs).calls > 0 ==> outputs[f].finish == Some("tool_calls")
    decreases |outputs|
  {
    var q, rest := Advance(p, outputs[0]), outputs[1..];
    if q.finished {
      f := 0;
      EndsAfterFinish(q, rest);
      forall i | 0 < i < |outputs| - 1 ensures outputs[i].UsageChunk? {
        assert outputs[i] == rest[i - 1];
      }
      NoLaterFinish(q, rest);
    } else {
      var g := FinishIsUnique(q, rest);
      f := g + 1;
      forall i | 1 <= i < |outputs| ensures outputs[i] == rest[i - 1] {
      }
    }
  }

  lemma {:induction false} NoLaterFinish(p: Phase, outputs: seq<StreamOutput>)
    requires Conforms(p, outputs) && p.finished
    ensures LastFinish(outputs) == None && PhaseAfter(p, outputs).calls == p.calls
    decreases |outputs|
  {
    if outputs != [] {
      NoLaterFinish(Advance(p, outputs[0]), outputs[1..]);
    }
  }

  // -------- The finish reason --------

  /** The first finish reason upstream gave, or "stop". */
  function UpstreamReason(events: seq<Event>): string {
    if events == [] || events[0].Done? then "stop"
    else if events[0].Choice? && events[0].finish.Reason? then events[0].finish.text
    else UpstreamReason(events[1..])
  }

  lemma FinishReasonOf(at: Attempt, st: State, index: nat, reason: string)
    requires !st.sentFinalFinish && !st.emittedToolCalls && FinishContent(at, st, index, reason).Success?
    ensures var (next, outputs) := FinishContent(at, st, index, reason).value;
            && LastFinish(outputs) == Some(if PartsOf(outputs) != [] then "tool_calls" else reason)
            && next.sentFinalFinish
  {
    hide ClassifyOutput;
    var (next, flushed) := Flush(at, st, index).value;
    var last := FinishChunk(index, if next.emittedToolCalls then "tool_calls" else reason);
    OutputsAppend(flushed, [last]);
    FlushedParts(at, st, index);
    assert [last][1..] == [];
  }

  lemma FlushedParts(at: Attempt, st: State, index: nat)
    requires !st.emittedToolCalls && Flush(at, st, index).Success?
    ensures var (next, flushed) := Flush(at, st, index).value;
            next.emittedToolCalls <==> PartsOf(flushed) != []
  {
    hide ParseToolCalls;
    var (next, flushed) := Flush(at, st, index).value;
    if st.bufferingToolCall && ClassifyOutput(at.tools, st.toolBuffer).ToolCalls? {
      var calls := ClassifyOutput(at.tools, st.toolBuffer).calls;
      assert flushed == CallChunks(st.sentRole, index, calls, 0) && flushed[0].delta.call.Some?;
    } else if flushed != [] {
      assert flushed[1..] == [];
    }
  }

  function IndexOf(event: Event): nat
    requires event.Choice?
  {
    if event.index.Number? then event.index.value else 0
  }

  /** A choice that finishes is handled like one that does not, and then finished. */
  lemma FinishComesLast(at: Attempt, st: State, event: Event)
    requires event.Choice? && event.finish.Reason?
    ensures HandleEvent(at, st, event) ==
            match HandleEvent(at, st, event.(finish := NoFinish))
            case Failure(e) => Failure(e)
            case Success((mid, quiet)) =>
              match FinishPart(at, mid, IndexOf(event), Some(event.finish.text))
              case Failure(e) => Failure(e)
              case Success((next, last)) => Success((next, quiet + last))
  {
    hide ReasoningPart, ContentPart, FinishContent;
    var calm := event.(finish := NoFinish);
    assert HandleEvent(at, st, event) == HandleChoice(at, st, event);
    assert HandleEvent(at, st, calm) == HandleChoice(at, st, calm);
    if HandleChoice(at, st, calm).Success? {
      var index := IndexOf(event);
      var (st1, out1) := ReasoningPart(at, st, index, Decrypt(event.reasoning).value);
      var (st2, out2) := ContentPart(at, st1, index, Decrypt(event.content).value).value;
      assert out1 + out2 + [] == out1 + out2;
      assert HandleChoice(at, st, calm) == Success((st2, out1 + out2));
    }
  }

  /** Such a choice, like any event without a finish reason, sends no call and no finish chunk. */
  lemma QuietEvent(at: Attempt, st: State, event: Event)
    requires Continuing(event) && HandleEvent(at, st, event).Success?
    ensures var (next, outputs) := HandleEvent(at, st, event).value;
            && LastFinish(outputs) == None && PartsOf(outputs) == []
            && next.sentFinalFinish == st.sentFinalFinish && next.emittedToolCalls == st.emittedToolCalls
            && (st.sentFinalFinish ==> ContentOf(outputs) == ReasoningOf(outputs) == "")
  {
    hide ReasoningPart, ContentPart, FinishPart, LastFinish, PartsOf, ContentOf, ReasoningOf;
    NothingSent();
    match event {
      case Usage(Some(usage)) => OneOutput(UsageChunk(usage));
      case Choice(_, _, _, _) => QuietChoice(at, st, event);
    }
  }

  lemma QuietChoice(at: Attempt, st: State, event: Event)
    requires event.Choice? && event.finish.NoFinish? && HandleChoice(at, st, event).Success?
    ensures var (next, outputs) := HandleChoice(at, st, event).value;
            && LastFinish(outputs) == None && PartsOf(outputs) == []
            && next.sentFinalFinish == st.sentFinalFinish && next.emittedToolCalls == st.emittedToolCalls
            && (st.sentFinalFinish ==> ContentOf(outputs) == ReasoningOf(outputs) == "")
  {
    hide ReasoningPart, ContentPart, LastFinish, PartsOf, ContentOf, ReasoningOf;
    var index := ReadIndex(event.index).value;
    var reasoning, content := Decrypt(event.reasoning).value, Decrypt(event.content).value;
    var (st1, out1) := ReasoningPart(at, st, index, reasoning);
    var (st2, out2) := ContentPart(at, st1, index, content).value;
    assert HandleChoice(at, st, event) == Success((st2, out1 + out2 + []));
    assert out1 + out2 + [] == out1 + out2;
    QuietReasoning(at, st, index, reasoning);
    QuietContent(at, st1, index, content);
    OutputsAppend(out1, out2);
    assert "" + "" == "";
  }

  lemma QuietReasoning(at: Attempt, st: State, index: nat, reasoning: Option<string>)
    ensures var (next, outputs) := ReasoningPart(at, st, index, reasoning);
            && LastFinish(outputs) == None && PartsOf(outputs) == []
            && next.sentFinalFinish == st.sentFinalFinish && next.emittedToolCalls == st.emittedToolCalls
            && (st.sentFinalFinish ==> ContentOf(outputs) == ReasoningOf(outputs) == "")
  {
    var outputs := ReasoningPart(at, st, index, reasoning).1;
    if outputs != [] {
      OneOutput(outputs[0]);
    }
  }

  lemma QuietContent(at: Attempt, st: State, index: nat, content: Option<string>)
    requires ContentPart(at, st, index, content).Success?
    ensures var (next, outputs) := ContentPart(at, st, index, content).value;
            && LastFinish(outputs) == None && PartsOf(outputs) == []
            && next.sentFinalFinish == st.sentFinalFinish && next.emittedToolCalls == st.emittedToolCalls
            && (st.sentFinalFinish ==> ContentOf(outputs) == ReasoningOf(outputs) == "")
  {
    hide Find, StreamableLen;
    var outputs := ContentPart(at, st, index, content).value.1;
    if outputs != [] {
      OneOutput(outputs[0]);
      assert outputs == [outputs[0]];
    }
  }

  lemma AcceptedFinish(at: Attempt, st: State, event: Event)
    requires event.Choice? && HandleEvent(at, st, event).Success?
    ensures !event.finish.BadFinish?
  {
  }

  lemma FinishedStays(at: Attempt, st: State, event: Event)
    requires HandleEvent(at, st, event).Success? && !Continuing(event)
    ensures HandleEvent(at, st, event).value.0.sentFinalFinish
  {
    hide Find, StreamableLen, Flush, PushContent;
  }

  lemma DoneAfterFinish(at: Attempt, st: State)
    requires st.sentFinalFinish
    ensures HandleEvent(at, st, Done) == Success((st, [DoneMark]))
  {
    assert [] + [DoneMark] == [DoneMark];
  }

  /** Once finished, an attempt sends usage and the end mark only. */
  lemma FinishedEvent(at: Attempt, st: State, event: Event)
    requires st.sentFinalFinish && HandleEvent(at, st, event).Success?
    ensures var (next, outputs) := HandleEvent(at, st, event).value;
            && LastFinish(outputs) == None && PartsOf(outputs) == [] && next.sentFinalFinish
            && ContentOf(outputs) == ReasoningOf(outputs) == ""
  {
    hide HandleEvent, LastFinish, PartsOf, ContentOf, ReasoningOf;
    if Continuing(event) {
      QuietEvent(at, st, event);
    } else if event.Done? {
      DoneAfterFinish(at, st);
      OneOutput(DoneMark);
    } else {
      AcceptedFinish(at, st, event);
      FinishComesLast(at, st, event);
      QuietEvent(at, st, event.(finish := NoFinish));
      assert forall a: seq<StreamOutput> :: a + [] == a;
    }
  }

  lemma {:induction false} FinishedRun(at: Attempt, st: State, events: seq<Event>)
    requires st.sentFinalFinish
    ensures var run := RunEvents(at, st, events);
            && LastFinish(run.outputs) == None && PartsOf(run.outputs) == []
            && ContentOf(run.outputs) == ReasoningOf(run.outputs) == ""
            && (run.Failed? ==> !run.error.InvalidCall?)
    decreases |events|
  {
    hide HandleEvent;
    if events != [] {
      if HandleEvent(at, st, events[0]).Success? {
        FinishedEvent(at, st, events[0]);
        var (next, outputs) := HandleEvent(at, st, events[0]).value;
        FinishedRun(at, next, events[1..]);
        OutputsAppend(outputs, RunEvents(at, next, events[1..]).outputs);
      } else {
        FinishedFailure(at, st, events[0]);
      }
    }
  }

  lemma FinishedFailure(at: Attempt, st: State, event: Event)
    requires st.sentFinalFinish && HandleEvent(at, st, event).Failure?
    ensures !HandleEvent(at, st, event).error.InvalidCall?
  {
  }

  /** The finish reason sent is "tool_calls" with calls, and otherwise upstream's, or "stop". */
  lemma {:induction false} FinishReasonIsUpstreams(at: Attempt, st: State, events: seq<Event>)
    requires !st.sentFinalFinish && !st.emittedToolCalls && RunEvents(at, st, events).Completed?
    ensures var outputs := RunEvents(at, st, events).outputs;
            LastFinish(outputs) == Some(if PartsOf(outputs) != [] then "tool_calls" else UpstreamReason(events))
    decreases |events|
  {
    hide HandleEvent, FinishContent, LastFinish, PartsOf;
    var event := events[0];
    if Continuing(event) {
      QuietEvent(at, st, event);
      var (next, outputs) := HandleEvent(at, st, event).value;
      FinishReasonIsUpstreams(at, next, events[1..]);
      OutputsAppend(outputs, RunEvents(at, next, events[1..]).outputs);
    } else if event.Done? {
      OneOutput(DoneMark);
      NothingSent();
      DoneFinishes(at, st);
      ClosingReason(at, st, 0, "stop", [], [DoneMark]);
    } else {
      AcceptedFinish(at, st, event);
      FinishComesLast(at, st, event);
      QuietEvent(at, st, event.(finish := NoFinish));
      var (mid, quiet) := HandleEvent(at, st, event.(finish := NoFinish)).value;
      var (next, last) := FinishContent(at, mid, IndexOf(event), event.finish.text).value;
      FinishReasonOf(at, mid, IndexOf(event), event.finish.text);
      FinishedRun(at, next, events[1..]);
      ClosingReason(at, mid, IndexOf(event), event.finish.text, quiet, RunEvents(at, next, events[1..]).outputs);
    }
  }

  lemma DoneFinishes(at: Attempt, st: State)
    requires !st.sentFinalFinish
    ensures HandleEvent(at, st, Done) ==
            match FinishContent(at, st, 0, "stop")
            case Failure(e) => Failure(e)
            case Success((next, last)) => Success((next, [] + last + [DoneMark]))
  {
    hide FinishContent;
    if FinishContent(at, st, 0, "stop").Success? {
      var last := FinishContent(at, st, 0, "stop").value.1;
      assert [] + last == last;
    }
  }

  lemma ClosingReason(at: Attempt, st: State, index: nat, reason: string, quiet: seq<StreamOutput>,
      later: seq<StreamOutput>)
    requires !st.sentFinalFinish && !st.emittedToolCalls && FinishContent(at, st, index, reason).Success?
    requires LastFinish(quiet) == LastFinish(later) == None && PartsOf(quiet) == PartsOf(later) == []
    ensures var all := quiet + FinishContent(at, st, index, reason).value.1 + later;
            LastFinish(all) == Some(if PartsOf(all) != [] then "tool_calls" else reason)
  {
    hide FinishContent, LastFinish, PartsOf;
    FinishReasonOf(at, st, index, reason);
    var last := FinishContent(at, st, index, reason).value.1;
    OutputsAppend(quiet, last);
    OutputsAppend(quiet + last, later);
  }

  // -------- The main result --------

  /**
   An attempt that ends in Done sends one finish chunk, only usage between it and the
   closing end mark, the role in exactly its first delta, and calls numbered from 0.
   The finish reason is "tool_calls" with calls, and otherwise upstream's first, or "stop".
   */
  lemma CompletedAttemptsFinishOnce(at: Attempt, events: seq<Event>, outputs: seq<StreamOutput>) returns (f: nat)
    requires RunEvents(at, InitialState, events) == Completed(outputs)
    ensures FinishesAt(outputs, f)
    ensures RoleOnFirstDelta(false, outputs)
    ensures forall k :: 0 <= k < |PartsOf(outputs)| ==> PartsOf(outputs)[k].toolIndex == k
    ensures outputs[f].finish == Some(if PartsOf(outputs) != [] then "tool_calls" else UpstreamReason(events))
  {
    hide RunEvents;
    RunConforms(at, InitialState, events, StartPhase);
    f := FinishIsUnique(StartPhase, outputs);
    RolesFollow(StartPhase, outputs);
    CallsAreNumbered(StartPhase, outputs);
    FinishReasonIsUpstreams(at, InitialState, events);
  }
}
