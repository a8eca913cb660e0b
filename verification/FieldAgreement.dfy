/** Finish reason, reasoning and usage of a streamed answer, beside the buffered completion's (src/http.rs). */
module FieldAgreement {
  import opened Wrappers
  import opened Text
  import opened Json
  import opened Classify
  import opened ChatEvents
  import opened ToolStream
  import SP = StreamProtocol
  import PS = PlainStream
  import SC = SideChannels
  import LT = LeadingText
  import opened Agreement

  // -------- What the buffer keeps --------

  /** The last finish reason upstream gives before Done. */
  function LastReason(events: seq<Event>): Option<string> {
    if events == [] || events[0].Done? then None
    else
      var later := LastReason(events[1..]);
      if later.Some? then later
      else if events[0].Choice? && events[0].finish.Reason? then Some(events[0].finish.text) else None
  }

  function Or(text: Option<string>, otherwise: string): string {
    if text.Some? then text.value else otherwise
  }

  /** All reasoning text before Done. */
  function AllThoughts(events: seq<Event>): string {
    if events == [] || events[0].Done? then "" else SC.Thought(events[0]) + AllThoughts(events[1..])
  }

  function Last(items: seq<Json>): Option<Json> {
    if items == [] then None else Some(items[|items| - 1])
  }

  /** One event brings what it carries into the buffer. */
  lemma EventIsKept(requireEncrypted: bool, b: PS.Buffered, event: Event)
    requires !event.Done? && PS.BufferEvent(requireEncrypted, b, event).Success?
    ensures var next := PS.BufferEvent(requireEncrypted, b, event).value.0;
            && !PS.BufferEvent(requireEncrypted, b, event).value.1
            && next.reasoning == b.reasoning + SC.Thought(event)
            && next.finish == (if event.Choice? && event.finish.Reason? then Some(event.finish.text) else b.finish)
            && next.usage == (if event.Usage? && event.usage.Some? then event.usage else b.usage)
  {
    assert b.reasoning + "" == b.reasoning;
  }

  lemma {:induction false} BufferKeeps(requireEncrypted: bool, b: PS.Buffered, events: seq<Event>)
    requires PS.BufferEvents(requireEncrypted, b, events).Success?
    ensures var end := PS.BufferEvents(requireEncrypted, b, events).value;
            && end.reasoning == b.reasoning + AllThoughts(events)
            && end.finish == Some(Or(LastReason(events), Or(b.finish, "stop")))
            && end.usage == (if SC.UsageHeard(events) == [] then b.usage else Last(SC.UsageHeard(events)))
    decreases |events|
  {
    hide PS.BufferEvent, SC.Thought;
    if events[0].Done? {
      DoneIsKept(requireEncrypted, b);
    } else {
      EventIsKept(requireEncrypted, b, events[0]);
      var next, rest := PS.BufferEvent(requireEncrypted, b, events[0]).value.0, events[1..];
      BufferKeeps(requireEncrypted, next, rest);
      assert b.reasoning + SC.Thought(events[0]) + AllThoughts(rest) ==
        b.reasoning + (SC.Thought(events[0]) + AllThoughts(rest));
    }
  }

  lemma DoneIsKept(requireEncrypted: bool, b: PS.Buffered)
    requires PS.BufferEvent(requireEncrypted, b, Done).Success?
    ensures var (next, done) := PS.BufferEvent(requireEncrypted, b, Done).value;
            done && next == b.(finish := Some(Or(b.finish, "stop"))) && b.reasoning + "" == b.reasoning
  {
  }

  // -------- Both answers --------

  /** Reasoning that comes after the event that finished the choice. */
  function LateThoughts(closing: Event, tail: seq<Event>): string {
    if closing.Done? then "" else AllThoughts(tail)
  }

  lemma ThoughtsStep(events: seq<Event>)
    requires events != [] && !events[0].Done?
    ensures AllThoughts(events) == SC.Thought(events[0]) + AllThoughts(events[1..])
    ensures SC.ThoughtsHeard(events) ==
            SC.Thought(events[0]) + if Continuing(events[0]) then SC.ThoughtsHeard(events[1..]) else ""
  {
  }

  lemma DoneHasNoThoughts(events: seq<Event>)
    requires events != [] && events[0].Done?
    ensures AllThoughts(events) == SC.ThoughtsHeard(events) == ""
  {
  }

  lemma {:induction false} ThoughtsByClosing(lead: seq<Event>, closing: Event, tail: seq<Event>)
    requires Closing(closing) && forall e <- lead :: Continuing(e)
    ensures var events := lead + [closing] + tail;
            AllThoughts(events) == SC.ThoughtsHeard(events) + LateThoughts(closing, tail)
    decreases |lead|
  {
    hide SC.Thought, SC.ThoughtsHeard, AllThoughts;
    var events, late := lead + [closing] + tail, LateThoughts(closing, tail);
    assert "" + late == late;
    if lead != [] {
      assert lead[0] in lead;
      assert events[0] == lead[0] && events[1..] == lead[1..] + [closing] + tail;
      ThoughtsByClosing(lead[1..], closing, tail);
      ThoughtsStep(events);
      var thought, heard := SC.Thought(lead[0]), SC.ThoughtsHeard(events[1..]);
      assert thought + (heard + late) == thought + heard + late;
    } else {
      assert events[0] == closing && events[1..] == tail;
      if closing.Done? {
        DoneHasNoThoughts(events);
      } else {
        ThoughtsStep(events);
        assert SC.Thought(closing) + "" == SC.Thought(closing);
      }
    }
  }

  /** The stream sends calls exactly where it delivers a verdict of calls. */
  lemma DeliversCalls(tools: ToolContext, run: Run, text: string)
    requires run.Completed? && Delivers(run, ClassifyOutput(tools, text), text)
    ensures PartsOf(run.outputs) != [] <==> ClassifyOutput(tools, text).ToolCalls?
  {
    hide ClassifyOutput, PartsOf, ContentOf;
    if ClassifyOutput(tools, text).ToolCalls? {
      ClassifiedCallsAreSanctioned(tools, text);
    }
  }

  /**
   Where a stream completes with the answer the buffer classifies, it also has the completion's
   finish reason, reasoning and usage, each exactly if: calls were sent, or upstream's first and
   last reasons are one; no reasoning came after the closing event; the client asked for usage, or
   upstream sent none.
   */
  lemma FieldsAgreeExactly(at: Attempt, requireEncrypted: bool, lead: seq<Event>, closing: Event, tail: seq<Event>,
      events: seq<Event>, run: Run, completion: PS.Completion)
    requires !at.suppress && Comparable(requireEncrypted, lead, closing, tail) && events == lead + [closing] + tail
    requires completion == PS.IntoResponse(PS.BufferEvents(requireEncrypted, PS.EmptyBuffer, events).value)
    requires run == RunEvents(at, InitialState, events) && run.Completed?
    requires Delivers(run, ClassifyOutput(at.tools, completion.content), completion.content)
    ensures var calls := ClassifyOutput(at.tools, completion.content).ToolCalls?;
            LastFinish(run.outputs) == Some(if calls then "tool_calls" else completion.finish) <==>
            calls || SP.UpstreamReason(events) == Or(LastReason(events), "stop")
    ensures ReasoningOf(run.outputs) == TextOr(completion.reasoning) <==> LateThoughts(closing, tail) == ""
    ensures Last(SC.UsageOf(run.outputs)) == completion.usage <==> at.includeUsage || SC.UsageHeard(events) == []
  {
    hide RunEvents, PS.BufferEvents, ClassifyOutput, Delivers, PartsOf, LastFinish, ReasoningOf, AllThoughts,
      SC.ThoughtsHeard, SC.UsageOf, SC.UsageHeard, LastReason, SP.UpstreamReason;
    BufferKeeps(requireEncrypted, PS.EmptyBuffer, events);
    DeliversCalls(at.tools, run, completion.content);
    SP.FinishReasonIsUpstreams(at, InitialState, events);
    SC.ReasoningIsForwarded(at, InitialState, events);
    SC.UsageIsForwarded(at, InitialState, events);
    ThoughtsByClosing(lead, closing, tail);
    assert "" + AllThoughts(events) == AllThoughts(events);
  }

  // -------- Where they do not agree --------

  /** Upstream goes on after its finish, with another reason and with reasoning. */
  function GoesOn(): seq<Event> {
    [Choice(NoIndex, Reason("stop"), Absent, Sealed(Some("b"))), Done]
  }

  lemma GoesOnIsComparable(closing: Event)
    requires closing == TextEvent("a", Reason("length"))
    ensures Comparable(false, [], closing, GoesOn())
    ensures HeardText([], closing) == "a" && LateText(closing, GoesOn()) == "" && LateThoughts(closing, GoesOn()) == "b"
  {
    var events, tail := [] + [closing] + GoesOn(), GoesOn();
    assert events[0] == closing && events[1..] == tail && tail[1..] == [Done] && [closing][1..] == [];
    var b1 := PS.BufferEvent(false, PS.EmptyBuffer, closing).value.0;
    var b2 := PS.BufferEvent(false, b1, tail[0]).value.0;
    assert PS.BufferEvents(false, b2, [Done]).Success?;
    assert PS.BufferEvents(false, b1, tail).Success?;
    assert BeforeDone(tail) == [tail[0]] + BeforeDone([Done]) == [tail[0]] && [tail[0]][1..] == [];
    assert AllThoughts(tail) == "b" + AllThoughts([Done]) == "b";
    assert Plaintext([closing]) == "a" + Plaintext([]) == "a";
  }

  lemma GoesOnReasons(closing: Event)
    requires closing == TextEvent("a", Reason("length"))
    ensures var events := [] + [closing] + GoesOn();
            && SP.UpstreamReason(events) == "length" && LastReason(events) == Some("stop")
            && SC.ThoughtsHeard(events) == ""
  {
    var events, tail := [] + [closing] + GoesOn(), GoesOn();
    assert events[0] == closing && events[1..] == tail && tail[1..] == [Done];
    assert LastReason(tail) == Some("stop");
    assert SC.Thought(closing) == "";
  }

  /** There the stream delivers the classified text with the first reason and no reasoning, and the buffer has both. */
  lemma LateFieldsDisagree(at: Attempt)
    requires !at.suppress && 1 <= at.tools.maxBytes && !at.tools.requireToolCall
    ensures var closing := TextEvent("a", Reason("length"));
            && Comparable(false, [], closing, GoesOn())
            && var run := RunEvents(at, InitialState, [] + [closing] + GoesOn());
            && var buffered := PS.BufferEvents(false, PS.EmptyBuffer, [] + [closing] + GoesOn()).value;
            && run.Completed? && Delivers(run, ClassifyOutput(at.tools, buffered.content), buffered.content)
            && LastFinish(run.outputs) == Some("length") && buffered.finish == Some("stop")
            && ReasoningOf(run.outputs) == "" && buffered.reasoning == "b"
  {
    hide RunEvents, PS.BufferEvents, ClassifyOutput, PartsOf, ContentOf, LastFinish, ReasoningOf, Comparable, HeardText,
      LateText, LateThoughts, AllThoughts, SC.ThoughtsHeard, LastReason, SP.UpstreamReason, Find;
    var closing := TextEvent("a", Reason("length"));
    var events := [] + [closing] + GoesOn();
    GoesOnIsComparable(closing);
    GoesOnReasons(closing);
    BufferedText(false, [], closing, GoesOn());
    StreamAgreesWithBuffer(at, false, [], closing, GoesOn());
    NoMarkerInLetter();
    LT.UnmarkedIsNormalText(at.tools, "a");
    assert "a" + "" == "a";
    DeliversCalls(at.tools, RunEvents(at, InitialState, events), "a");
    SP.FinishReasonIsUpstreams(at, InitialState, events);
    SC.ReasoningIsForwarded(at, InitialState, events);
    BufferKeeps(false, PS.EmptyBuffer, events);
    ThoughtsByClosing([], closing, GoesOn());
    assert "" + ("" + "b") == "b";
  }
}
