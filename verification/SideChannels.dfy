/** Reasoning, usage and choice indices in a tool-emulated stream (src/http.rs). */
module SideChannels {
  import opened Wrappers
  import opened Text
  import opened Json
  import opened Classify
  import opened ChatEvents
  import opened ToolStream
  import SP = StreamProtocol

  // -------- Choice indices --------

  /** Chunks of one choice, and nothing else. */
  ghost predicate Indexed(outputs: seq<StreamOutput>, index: nat) {
    forall o <- outputs :: o.Chunk? && o.index == index
  }

  lemma {:induction false} CallChunksIndexed(sentRole: bool, index: nat, calls: seq<ValidatedToolCall>, first: nat)
    ensures Indexed(CallChunks(sentRole, index, calls, first), index)
    decreases |calls|
  {
    if calls != [] {
      CallChunksIndexed(true, index, calls[1..], first + 1);
    }
  }

  lemma FinishIndexed(at: Attempt, st: State, index: nat, finish: Option<string>)
    requires FinishPart(at, st, index, finish).Success?
    ensures Indexed(FinishPart(at, st, index, finish).value.1, index)
  {
    hide ParseToolCalls;
    if st.bufferingToolCall && ClassifyOutput(at.tools, st.toolBuffer).ToolCalls? {
      CallChunksIndexed(st.sentRole, index, ClassifyOutput(at.tools, st.toolBuffer).calls, 0);
    }
  }

  lemma ContentIndexed(at: Attempt, st: State, index: nat, content: Option<string>)
    requires ContentPart(at, st, index, content).Success?
    ensures Indexed(ContentPart(at, st, index, content).value.1, index)
  {
    hide Find, StreamableLen;
  }

  /** A choice is answered by chunks of its own index only; a finish made up at Done has index 0. */
  lemma ChunksCarryTheirIndex(at: Attempt, st: State, event: Event)
    requires HandleEvent(at, st, event).Success?
    ensures var outputs := HandleEvent(at, st, event).value.1;
            && (event.Choice? ==> Indexed(outputs, SP.IndexOf(event)))
            && (event.Done? ==> outputs != [] && Indexed(outputs[..|outputs| - 1], 0))
  {
    hide ContentPart, FinishPart;
    if event.Done? {
      FinishIndexed(at, st, 0, Some("stop"));
      var flushed := FinishPart(at, st, 0, Some("stop")).value.1;
      assert (flushed + [DoneMark])[..|flushed|] == flushed;
    } else if event.Choice? {
      var index, reasoning, content := SP.IndexOf(event), Decrypt(event.reasoning).value, Decrypt(event.content).value;
      var (st1, out1) := ReasoningPart(at, st, index, reasoning);
      ContentIndexed(at, st1, index, content);
      var (st2, out2) := ContentPart(at, st1, index, content).value;
      FinishIndexed(at, st2, index, ReadFinish(event.finish).value);
    }
  }

  // -------- Usage --------

  /** The usage a client receives. */
  function UsageOf(outputs: seq<StreamOutput>): seq<Json> {
    if outputs == [] then [] else (if outputs[0].UsageChunk? then [outputs[0].usage] else []) + UsageOf(outputs[1..])
  }

  /** The usage upstream sends before Done. */
  function UsageHeard(events: seq<Event>): seq<Json> {
    if events == [] || events[0].Done? then []
    else (if events[0].Usage? && events[0].usage.Some? then [events[0].usage.value] else []) + UsageHeard(events[1..])
  }

  lemma UsageStep(outputs: seq<StreamOutput>)
    ensures outputs == [] ==> UsageOf(outputs) == []
    ensures outputs != [] ==>
              UsageOf(outputs) == (if outputs[0].UsageChunk? then [outputs[0].usage] else []) + UsageOf(outputs[1..])
  {
  }

  lemma {:induction false} UsageAppend(a: seq<StreamOutput>, b: seq<StreamOutput>)
    ensures UsageOf(a + b) == UsageOf(a) + UsageOf(b)
  {
    hide UsageOf;
    UsageStep(a);
    if a == [] {
      assert a + b == b && [] + UsageOf(b) == UsageOf(b);
    } else {
      UsageStep(a + b);
      assert (a + b)[0] == a[0] && (a + b)[1..] == a[1..] + b;
      UsageAppend(a[1..], b);
      var first := if a[0].UsageChunk? then [a[0].usage] else [];
      assert first + (UsageOf(a[1..]) + UsageOf(b)) == first + UsageOf(a[1..]) + UsageOf(b);
    }
  }

  lemma {:induction false} ChunksAreNotUsage(outputs: seq<StreamOutput>, index: nat)
    requires Indexed(outputs, index)
    ensures UsageOf(outputs) == []
  {
    if outputs != [] {
      assert outputs[0] in outputs;
      ChunksAreNotUsage(outputs[1..], index);
    }
  }

  lemma EventUsage(at: Attempt, st: State, event: Event)
    requires HandleEvent(at, st, event).Success?
    ensures UsageOf(HandleEvent(at, st, event).value.1) ==
            if event.Usage? && event.usage.Some? && at.includeUsage then [event.usage.value] else []
  {
    hide HandleChoice, FinishPart;
    var outputs := HandleEvent(at, st, event).value.1;
    match event {
      case Usage(Some(usage)) =>
        assert [UsageChunk(usage)][1..] == [];
      case Choice(_, _, _, _) =>
        ChunksCarryTheirIndex(at, st, event);
        ChunksAreNotUsage(outputs, SP.IndexOf(event));
      case Done =>
        ChunksCarryTheirIndex(at, st, event);
        ChunksAreNotUsage(outputs[..|outputs| - 1], 0);
        UsageAppend(outputs[..|outputs| - 1], [DoneMark]);
        assert [DoneMark][1..] == [];
    }
  }

  /**
   A run that did not fail has sent on all of upstream's usage, in order, if the client asked for
   it, and none if not.
   */
  lemma {:induction false} UsageIsForwarded(at: Attempt, st: State, events: seq<Event>)
    requires !RunEvents(at, st, events).Failed?
    ensures UsageOf(RunEvents(at, st, events).outputs) == if at.includeUsage then UsageHeard(events) else []
    decreases |events|
  {
    hide HandleEvent, UsageOf;
    if events == [] {
      NoUsage();
    } else {
      EventUsage(at, st, events[0]);
      var (next, outputs) := HandleEvent(at, st, events[0]).value;
      if !events[0].Done? {
        UsageIsForwarded(at, next, events[1..]);
        UsageAppend(outputs, RunEvents(at, next, events[1..]).outputs);
      }
    }
  }

  lemma NoUsage()
    ensures UsageOf([]) == []
  {
  }

  // -------- Reasoning --------

  function Thought(event: Event): string {
    if event.Choice? && event.reasoning.Sealed? then TextOr(event.reasoning.plain) else ""
  }

  /** All reasoning text up to the event that finishes the choice. */
  function ThoughtsHeard(events: seq<Event>): string {
    if events == [] || events[0].Done? then ""
    else Thought(events[0]) + if Continuing(events[0]) then ThoughtsHeard(events[1..]) else ""
  }

  lemma {:induction false} CallChunksAreThoughtless(sentRole: bool, index: nat, calls: seq<ValidatedToolCall>,
      first: nat)
    ensures ReasoningOf(CallChunks(sentRole, index, calls, first)) == ""
    decreases |calls|
  {
    if calls != [] {
      CallChunksAreThoughtless(true, index, calls[1..], first + 1);
    }
  }

  lemma FinishIsThoughtless(at: Attempt, st: State, index: nat, reason: string)
    requires FinishContent(at, st, index, reason).Success?
    ensures ReasoningOf(FinishContent(at, st, index, reason).value.1) == ""
  {
    hide ParseToolCalls, ContentOf, ReasoningOf, PartsOf, LastFinish;
    var flushed := Flush(at, st, index).value.1;
    var finish := FinishContent(at, st, index, reason).value.1[|flushed|];
    OneOutput(finish);
    OutputsAppend(flushed, [finish]);
    NothingSent();
    if st.bufferingToolCall && ClassifyOutput(at.tools, st.toolBuffer).ToolCalls? {
      CallChunksAreThoughtless(st.sentRole, index, ClassifyOutput(at.tools, st.toolBuffer).calls, 0);
    } else if flushed != [] {
      assert flushed == [flushed[0]];
      OneOutput(flushed[0]);
    }
  }

  lemma ContentIsThoughtless(at: Attempt, st: State, index: nat, content: Option<string>)
    requires ContentPart(at, st, index, content).Success?
    ensures ReasoningOf(ContentPart(at, st, index, content).value.1) == ""
  {
    hide Find, StreamableLen, ContentOf, ReasoningOf, PartsOf, LastFinish;
    NothingSent();
    var outputs := ContentPart(at, st, index, content).value.1;
    if outputs != [] {
      assert outputs == [outputs[0]];
      OneOutput(outputs[0]);
    }
  }

  lemma QuietThought(at: Attempt, st: State, event: Event)
    requires !at.suppress && !st.sentFinalFinish && Continuing(event) && HandleEvent(at, st, event).Success?
    ensures ReasoningOf(HandleEvent(at, st, event).value.1) == Thought(event)
  {
    hide ContentPart, ContentOf, ReasoningOf, PartsOf, LastFinish;
    NothingSent();
    match event {
      case Usage(Some(usage)) => OneOutput(UsageChunk(usage));
      case Choice(_, _, _, _) =>
        var index, reasoning, content := ReadIndex(event.index).value, Decrypt(event.reasoning).value,
          Decrypt(event.content).value;
        var (st1, out1) := ReasoningPart(at, st, index, reasoning);
        var (st2, out2) := ContentPart(at, st1, index, content).value;
        ContentIsThoughtless(at, st1, index, content);
        if out1 != [] {
          OneOutput(out1[0]);
        }
        OutputsAppend(out1, out2);
        assert HandleChoice(at, st, event) == Success((st2, out1 + out2 + []));
        assert out1 + out2 + [] == out1 + out2 && ReasoningOf(out1) + "" == ReasoningOf(out1);
    }
  }

  /** A first attempt that did not fail has sent on exactly the reasoning up to the finish. */
  lemma {:induction false} ReasoningIsForwarded(at: Attempt, st: State, events: seq<Event>)
    requires !at.suppress && !st.sentFinalFinish && !RunEvents(at, st, events).Failed?
    ensures ReasoningOf(RunEvents(at, st, events).outputs) == ThoughtsHeard(events)
    decreases |events|
  {
    hide HandleEvent, FinishContent, ContentOf, ReasoningOf, PartsOf, LastFinish, Thought;
    NothingSent();
    if events != [] {
      var event := events[0];
      var (next, outputs) := HandleEvent(at, st, event).value;
      if Continuing(event) {
        QuietThought(at, st, event);
        SP.QuietEvent(at, st, event);
        ReasoningIsForwarded(at, next, events[1..]);
        OutputsAppend(outputs, RunEvents(at, next, events[1..]).outputs);
      } else if event.Done? {
        SP.DoneFinishes(at, st);
        FinishIsThoughtless(at, st, 0, "stop");
        OneOutput(DoneMark);
        var last := FinishContent(at, st, 0, "stop").value.1;
        OutputsAppend([] + last, [DoneMark]);
        assert [] + last == last;
      } else {
        ClosingThought(at, st, event);
        SP.FinishedRun(at, next, events[1..]);
        OutputsAppend(outputs, RunEvents(at, next, events[1..]).outputs);
      }
    }
  }

  lemma ClosingThought(at: Attempt, st: State, event: Event)
    requires !at.suppress && !st.sentFinalFinish && !Continuing(event) && event.Choice?
             && HandleEvent(at, st, event).Success?
    ensures ReasoningOf(HandleEvent(at, st, event).value.1) == Thought(event) + ""
    ensures HandleEvent(at, st, event).value.0.sentFinalFinish
  {
    hide HandleEvent, FinishContent, ContentOf, ReasoningOf, PartsOf, LastFinish;
    var calm := event.(finish := NoFinish);
    SP.AcceptedFinish(at, st, event);
    SP.FinishComesLast(at, st, event);
    SP.QuietEvent(at, st, calm);
    QuietThought(at, st, calm);
    var (mid, quiet) := HandleEvent(at, st, calm).value;
    FinishIsThoughtless(at, mid, SP.IndexOf(event), event.finish.text);
    SP.FinishedStays(at, st, event);
    assert ReasoningOf(quiet) + "" == ReasoningOf(quiet);
    OutputsAppend(quiet, FinishContent(at, mid, SP.IndexOf(event), event.finish.text).value.1);
  }
}
