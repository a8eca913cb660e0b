/** What a repeated attempt, which sends no text in front of a marker, delivers (src/http.rs). */
module Corrections {
  import opened Wrappers
  import opened Text
  import opened Classify
  import opened ChatEvents
  import opened ToolStream
  import MS = MarkerSplit
  import SP = StreamProtocol
  import opened Agreement

  // -------- The text heard is the state --------

  /** A suppressed attempt that has heard `text` and not been stopped. */
  function Held(text: string): State {
    match Find(text, TOOL_CALL_START)
    case None => InitialState.(pendingText := text)
    case Some(i) => InitialState.(toolBuffer := text[i..], bufferingToolCall := true)
  }

  /** Why a push that makes the text heard `text` is refused: too long without a marker, or too long from it on. */
  function Refusal(tools: ToolContext, text: string): Option<ChatError> {
    if Find(text, TOOL_CALL_START).None? then
      if tools.maxBytes < |text| then Some(InvalidCall(CorrectionTooLong, text)) else None
    else if Fits(tools, text) then None
    else Some(MalformedEvent)
  }

  lemma PushHeard(at: Attempt, index: nat, content: string, text: string)
    requires at.suppress
    ensures PushContent(at, Held(text), index, content) ==
            match Refusal(at.tools, text + content)
            case Some(error) => Failure(error)
            case None => Success((Held(text + content), []))
  {
    hide Find, StreamableLen;
    FromMarkerGrows(text, content);
  }

  /** What an event that carries no text sends. */
  function Passed(at: Attempt, event: Event): seq<StreamOutput> {
    if at.includeUsage && event.Usage? && event.usage.Some? then [UsageChunk(event.usage.value)] else []
  }

  function AllPassed(at: Attempt, events: seq<Event>): seq<StreamOutput> {
    if events == [] then [] else Passed(at, events[0]) + AllPassed(at, events[1..])
  }

  lemma EventHeard(at: Attempt, event: Event, text: string)
    requires at.suppress && Continuing(event) && Readable(event) && Refusal(at.tools, text).None?
    ensures HandleEvent(at, Held(text), event) ==
            match Refusal(at.tools, text + Plaintext([event]))
            case Some(error) => Failure(error)
            case None => Success((Held(text + Plaintext([event])), Passed(at, event)))
  {
    hide PushContent, Find, Refusal;
    assert [event][1..] == [] && text + "" == text;
    if event.Choice? {
      var none: seq<StreamOutput> := [];
      assert none + none + none == none;
      if event.content.Sealed? {
        assert Plaintext([event]) == event.content.plain.value;
        PushHeard(at, ReadIndex(event.index).value, event.content.plain.value, text);
      }
    }
  }

  // -------- The first refusal --------

  /** The first refusal of a text that grows event by event. */
  function FirstRefusal(tools: ToolContext, text: string, events: seq<Event>): Option<ChatError>
    decreases |events|
  {
    if Refusal(tools, text).Some? then Refusal(tools, text)
    else if events == [] then None
    else FirstRefusal(tools, text + Plaintext([events[0]]), events[1..])
  }

  /** It is the refusal of the shortest refused part, counted in events. */
  lemma {:induction false} FirstRefusalMeaning(tools: ToolContext, text: string, events: seq<Event>)
    returns (k: nat)
    ensures k <= |events| && FirstRefusal(tools, text, events) == Refusal(tools, text + Plaintext(events[..k]))
    ensures forall j :: 0 <= j < k ==> Refusal(tools, text + Plaintext(events[..j])).None?
    ensures FirstRefusal(tools, text, events).None? ==> k == |events|
    decreases |events|
  {
    hide Refusal, Plaintext;
    NothingSaid();
    assert events[..0] == [] && text + "" == text;
    if Refusal(tools, text).Some? || events == [] {
      k := 0;
    } else {
      var first, rest := Plaintext([events[0]]), events[1..];
      var m := FirstRefusalMeaning(tools, text + first, rest);
      k := m + 1;
      forall j | 1 <= j <= k ensures text + Plaintext(events[..j]) == text + first + Plaintext(rest[..j - 1]) {
        assert events[..j] == [events[0]] + rest[..j - 1];
        PlaintextAppend([events[0]], rest[..j - 1]);
        assert text + first + Plaintext(rest[..j - 1]) == text + (first + Plaintext(rest[..j - 1]));
      }
    }
  }

  lemma NothingSaid()
    ensures Plaintext([]) == ""
  {
  }

  /** A run before its finish: stopped by the first refusal, or open on the whole text. */
  lemma {:induction false} RunHeard(at: Attempt, text: string, events: seq<Event>)
    requires at.suppress && Refusal(at.tools, text).None? && forall e <- events :: Continuing(e) && Readable(e)
    ensures var run := RunEvents(at, Held(text), events);
            match FirstRefusal(at.tools, text, events)
            case Some(error) => run.Failed? && run.error == error && run.outputs <= AllPassed(at, events)
            case None => run == Open(Held(text + Plaintext(events)), AllPassed(at, events))
    decreases |events|
  {
    hide HandleEvent, Refusal, Held, Passed, Continuing, Readable, Plaintext;
    NothingSaid();
    if events == [] {
      assert text + "" == text;
    } else {
      var first, rest := Plaintext([events[0]]), events[1..];
      assert !events[0].Done? by { ContinuingIsNotDone(events[0]); }
      EventHeard(at, events[0], text);
      assert events == [events[0]] + rest;
      PlaintextAppend([events[0]], rest);
      assert text + first + Plaintext(rest) == text + (first + Plaintext(rest));
      if Refusal(at.tools, text + first).None? {
        RunHeard(at, text + first, rest);
      } else {
        RefusedAtOnce(at.tools, text + first, rest);
      }
    }
  }

  lemma RefusedAtOnce(tools: ToolContext, text: string, events: seq<Event>)
    requires Refusal(tools, text).Some?
    ensures FirstRefusal(tools, text, events) == Refusal(tools, text)
  {
  }

  lemma {:induction false} FirstRefusalAppend(tools: ToolContext, text: string, a: seq<Event>, b: seq<Event>)
    ensures FirstRefusal(tools, text, a + b) ==
            if FirstRefusal(tools, text, a).Some? then FirstRefusal(tools, text, a)
            else FirstRefusal(tools, text + Plaintext(a), b)
    decreases |a|
  {
    hide Refusal, Plaintext;
    NothingSaid();
    if a == [] {
      assert a + b == b && text + "" == text;
    } else {
      var first, rest := Plaintext([a[0]]), a[1..];
      assert (a + b)[1..] == rest + b && a == [a[0]] + rest;
      FirstRefusalAppend(tools, text + first, rest, b);
      PlaintextAppend([a[0]], rest);
      assert text + first + Plaintext(rest) == text + (first + Plaintext(rest));
    }
  }

  // -------- The finish --------

  /** The closing event is refused with its own text, or finishes on the whole of it. */
  lemma ClosingHeard(at: Attempt, closing: Event, text: string) returns (index: nat, reason: string)
    requires at.suppress && Closing(closing) && Readable(closing) && Refusal(at.tools, text).None?
    ensures var whole := text + Plaintext([closing]);
            HandleEvent(at, Held(text), closing) ==
            if Refusal(at.tools, whole).Some? then Failure(Refusal(at.tools, whole).value)
            else Framed([], FinishContent(at, Held(whole), index, reason), if closing.Done? then [DoneMark] else [])
  {
    hide HandleEvent, FinishContent, Refusal, Plaintext, Find;
    if closing.Done? {
      SP.DoneFinishes(at, Held(text));
      DoneIsSilent();
      assert text + "" == text;
      index, reason := 0, "stop";
    } else {
      var calm := closing.(finish := NoFinish);
      SamePlaintext(closing, calm);
      EventHeard(at, calm, text);
      SP.FinishComesLast(at, Held(text), closing);
      index, reason := SP.IndexOf(closing), closing.finish.text;
      assert forall a: seq<StreamOutput> :: a + [] == a;
    }
  }

  /** What an attempt that has heard `text` flushes. */
  lemma FlushHeard(at: Attempt, index: nat, text: string)
    requires at.suppress && Refusal(at.tools, text).None?
    ensures var flushed := Flush(at, Held(text), index);
            if Find(text, TOOL_CALL_START).None? then flushed == Failure(InvalidCall(NoCorrectedCall, text))
            else
              match ClassifyOutput(at.tools, FromMarker(text))
              case NormalText =>
                flushed.Success? && ContentOf(flushed.value.1) == FromMarker(text) && PartsOf(flushed.value.1) == []
              case ToolCalls(calls) =>
                flushed.Success? && ContentOf(flushed.value.1) == "" && PartsOf(flushed.value.1) == Numbered(calls, 0)
              case InvalidToolCall(error, output) => flushed == Failure(InvalidCall(Unusable(error), output))
  {
    hide Find, ParseToolCalls, ContentOf, PartsOf;
    if Find(text, TOOL_CALL_START).Some? {
      var st := Held(text);
      match ClassifyOutput(at.tools, FromMarker(text)) {
        case ToolCalls(calls) => CallChunksCarry(st.sentRole, index, calls, 0);
        case NormalText =>
          MS.EmittedText(st.(toolBuffer := "", bufferingToolCall := false), index, FromMarker(text));
          NothingSent();
          if FromMarker(text) != "" {
            OneOutput(Flush(at, st, index).value.1[0]);
          }
        case _ =>
      }
    }
  }

  // -------- The whole attempt --------

  /** The client is given what the verdict on the part from the marker on says, and nothing from in front of it. */
  ghost predicate Retells(run: Run, verdict: Classification, marked: string) {
    match verdict
    case NormalText => run.Completed? && ContentOf(run.outputs) == marked && PartsOf(run.outputs) == []
    case ToolCalls(calls) =>
      run.Completed? && ContentOf(run.outputs) == "" && PartsOf(run.outputs) == Numbered(calls, 0)
    case InvalidToolCall(error, output) => run.Failed? && run.error == InvalidCall(Unusable(error), output)
  }

  /** What an attempt that was not refused comes to. */
  ghost predicate Corrects(tools: ToolContext, run: Run, text: string) {
    if Find(text, TOOL_CALL_START).None? then run.Failed? && run.error == InvalidCall(NoCorrectedCall, text)
    else Retells(run, ClassifyOutput(tools, FromMarker(text)), FromMarker(text))
  }

  lemma {:induction false} AllPassedIsSilent(at: Attempt, events: seq<Event>)
    ensures ContentOf(AllPassed(at, events)) == "" && PartsOf(AllPassed(at, events)) == []
  {
    hide ContentOf, PartsOf, LastFinish, ReasoningOf;
    NothingSent();
    if events != [] {
      var first := Passed(at, events[0]);
      if first != [] {
        OneOutput(first[0]);
      }
      AllPassedIsSilent(at, events[1..]);
      OutputsAppend(first, AllPassed(at, events[1..]));
    }
  }

  /** From the closing event on. */
  lemma ClosingCorrects(at: Attempt, before: seq<StreamOutput>, closing: Event, tail: seq<Event>, text: string)
    requires at.suppress && Closing(closing) && Readable(closing) && Refusal(at.tools, text).None?
    requires !closing.Done? ==> ReadsToDone(tail)
    requires ContentOf(before) == "" && PartsOf(before) == []
    ensures var whole, run := text + Plaintext([closing]), RunEvents(at, Held(text), [closing] + tail).After(before);
            match Refusal(at.tools, whole)
            case Some(error) => run.Failed? && run.error == error
            case None => Corrects(at.tools, run, whole)
  {
    hide HandleEvent, Flush, Find, Plaintext, ContentOf, PartsOf, LastFinish, ReasoningOf, ClassifyOutput, Refusal,
      Held, Readable, BeforeDone, FromMarker;
    var st, whole := Held(text), text + Plaintext([closing]);
    var index, reason := ClosingHeard(at, closing, text);
    if Refusal(at.tools, whole).None? {
      FlushHeard(at, index, whole);
      if Flush(at, Held(whole), index).Success? {
        FinishCarries(at, Held(whole), index, reason);
        var (next, last) := FinishContent(at, Held(whole), index, reason).value;
        var later := ClosedRunOutputs(at, st, closing, tail, next, [], last);
        NothingSent();
        SumOfParts(before, [], last, later);
        assert "" + "" + ContentOf(last) == ContentOf(last);
      }
    }
  }

  /**
   The whole outcome of a repeated attempt: the refusal of the shortest part of its text that is
   refused; if none is, a failure for want of a call without a marker, and otherwise the verdict
   on the part from the first marker on, with the text in front dropped.
   */
  lemma CorrectionDelivers(at: Attempt, lead: seq<Event>, closing: Event, tail: seq<Event>)
    requires at.suppress && Answerable(lead, closing, tail)
    ensures var run := RunEvents(at, InitialState, lead + [closing] + tail);
            match FirstRefusal(at.tools, "", lead + [closing])
            case Some(error) => run.Failed? && run.error == error
            case None => Corrects(at.tools, run, HeardText(lead, closing))
  {
    hide RunEvents, Refusal, Held, Corrects, Find, Plaintext, ContentOf, PartsOf, Readable, Continuing, ReadsToDone,
      FirstRefusal;
    HeardEvents(lead, closing, tail);
    NothingIsHeld(at.tools);
    var text := Plaintext(lead);
    assert "" + text == text;
    RunHeard(at, "", lead);
    NoDoneIn(lead);
    RunAppend(at, InitialState, lead, [closing] + tail);
    assert lead + ([closing] + tail) == lead + [closing] + tail;
    FirstRefusalAppend(at.tools, "", lead, [closing]);
    if FirstRefusal(at.tools, "", lead).None? {
      AllPassedIsSilent(at, lead);
      NotRefused(at.tools, "", lead);
      LastRefusal(at.tools, text, closing);
      ClosingCorrects(at, AllPassed(at, lead), closing, tail, text);
    }
  }

  lemma NothingIsHeld(tools: ToolContext)
    ensures Held("") == InitialState && Refusal(tools, "").None?
  {
    NoMarkerInNothing();
  }

  lemma NotRefused(tools: ToolContext, text: string, events: seq<Event>)
    requires FirstRefusal(tools, text, events).None?
    ensures Refusal(tools, text + Plaintext(events)).None?
  {
    hide FirstRefusal, Refusal;
    var k := FirstRefusalMeaning(tools, text, events);
    assert events[..k] == events;
  }

  lemma LastRefusal(tools: ToolContext, text: string, event: Event)
    requires Refusal(tools, text).None?
    ensures FirstRefusal(tools, text, [event]) == Refusal(tools, text + Plaintext([event]))
  {
    hide Refusal, Plaintext;
    var whole, none := text + Plaintext([event]), [event][1..];
    assert none == [];
    assert FirstRefusal(tools, whole, none) == Refusal(tools, whole);
  }

  /** Within the limit no part is refused. */
  lemma {:induction false} ShortIsNotRefused(tools: ToolContext, text: string, events: seq<Event>)
    requires |text + Plaintext(events)| <= tools.maxBytes
    ensures FirstRefusal(tools, text, events).None?
    decreases |events|
  {
    hide Find, Plaintext;
    FromMarkerIsShorter(text);
    if events != [] {
      PlaintextAppend([events[0]], events[1..]);
      assert events == [events[0]] + events[1..];
      ShortIsNotRefused(tools, text + Plaintext([events[0]]), events[1..]);
    }
  }

  /** Over any chunking of a text within the limit, a repeated attempt delivers the verdict on its marked part. */
  lemma ShortCorrectionDelivers(at: Attempt, lead: seq<Event>, closing: Event, tail: seq<Event>)
    requires at.suppress && Answerable(lead, closing, tail) && |HeardText(lead, closing)| <= at.tools.maxBytes
    ensures Corrects(at.tools, RunEvents(at, InitialState, lead + [closing] + tail), HeardText(lead, closing))
  {
    hide RunEvents, Corrects, Answerable, Plaintext, FirstRefusal;
    PlaintextAppend(lead, [closing]);
    assert "" + Plaintext(lead + [closing]) == HeardText(lead, closing);
    ShortIsNotRefused(at.tools, "", lead + [closing]);
    CorrectionDelivers(at, lead, closing, tail);
  }

  // -------- Where the chunks matter --------

  /** One event for each chunk of text. */
  function Pushes(chunks: seq<string>): seq<Event> {
    if chunks == [] then [] else [TextEvent(chunks[0], NoFinish)] + Pushes(chunks[1..])
  }

  lemma {:induction false} PushesSay(at: Attempt, chunks: seq<string>)
    ensures Plaintext(Pushes(chunks)) == Concat(chunks) && AllPassed(at, Pushes(chunks)) == []
    ensures forall e <- Pushes(chunks) :: Continuing(e) && Readable(e)
  {
    if chunks != [] {
      var rest := Pushes(chunks[1..]);
      PushesSay(at, chunks[1..]);
      assert Pushes(chunks)[1..] == rest;
    }
  }

  /** A repeated attempt over the chunks. */
  function Answer(at: Attempt, chunks: seq<string>): Run {
    RunEvents(at, InitialState, Pushes(chunks) + [Done])
  }

  lemma AnswerIs(at: Attempt, chunks: seq<string>)
    requires at.suppress
    ensures Answer(at, chunks) ==
            match FirstRefusal(at.tools, "", Pushes(chunks))
            case Some(error) => Failed([], error)
            case None => RunEvents(at, Held(Concat(chunks)), [Done])
  {
    hide RunEvents, Held, Refusal, FirstRefusal, Continuing, Readable, Plaintext, Pushes, AllPassed;
    var events := Pushes(chunks);
    PushesSay(at, chunks);
    NothingIsHeld(at.tools);
    assert "" + Plaintext(events) == Concat(chunks);
    RunHeard(at, "", events);
    NoDoneIn(events);
    RunAppend(at, InitialState, events, [Done]);
    var last := RunEvents(at, Held(Concat(chunks)), [Done]);
    assert [] + last.outputs == last.outputs;
  }

  ghost predicate AnsweredAlike(at: Attempt, text: string) {
    forall a, b :: Concat(a) == text && Concat(b) == text ==> Answer(at, a) == Answer(at, b)
  }

  /** Length of the longest part without a marker, from the start on. */
  function UnmarkedLen(text: string): (n: nat)
    ensures n <= |text|
  {
    match Find(text, TOOL_CALL_START) case None => |text| case Some(i) => i + |TOOL_CALL_START| - 1
  }

  lemma UnmarkedParts(text: string, n: nat)
    requires n <= |text|
    ensures Find(text[..n], TOOL_CALL_START).None? <==> n <= UnmarkedLen(text)
  {
    hide FindFrom;
    var found := Find(text, TOOL_CALL_START);
    assert text == text[..n] + text[n..];
    if n <= UnmarkedLen(text) {
      if j :| Occurs(text[..n], TOOL_CALL_START, j) {
        OccursInPrefix(text[..n], text[n..], TOOL_CALL_START, j);
      }
    } else {
      OccursInPrefix(text[..n], text[n..], TOOL_CALL_START, found.value);
    }
  }

  /** Where every part without a marker is within the limit, only what follows the marker can be refused. */
  lemma {:induction false} RefusedFromMarker(tools: ToolContext, text: string, seen: string, events: seq<Event>)
    requires text == seen + Plaintext(events) && UnmarkedLen(text) <= tools.maxBytes
    ensures FirstRefusal(tools, seen, events) == if Fits(tools, text) then None else Some(MalformedEvent)
    decreases |events|
  {
    hide Find, Plaintext, UnmarkedLen;
    NothingSaid();
    assert text[..|seen|] == seen;
    UnmarkedParts(text, |seen|);
    FromMarkerGrows(seen, Plaintext(events));
    assert FromMarker(seen) == "" || |FromMarker(seen)| <= |FromMarker(text)|;
    if events == [] {
      assert seen + "" == seen;
    } else {
      PlaintextAppend([events[0]], events[1..]);
      assert events == [events[0]] + events[1..];
      assert text == seen + Plaintext([events[0]]) + Plaintext(events[1..]);
      if Refusal(tools, seen).None? {
        RefusedFromMarker(tools, text, seen + Plaintext([events[0]]), events[1..]);
      }
    }
  }

  /** A text without a marker that is over the limit by one unit is refused whole. */
  lemma {:induction false} RefusedWhole(tools: ToolContext, text: string, seen: string, events: seq<Event>)
    requires text == seen + Plaintext(events) && Find(text, TOOL_CALL_START).None? && |text| == tools.maxBytes + 1
    ensures FirstRefusal(tools, seen, events) == Some(InvalidCall(CorrectionTooLong, text))
    decreases |events|
  {
    hide Find, Plaintext;
    NothingSaid();
    assert text[..|seen|] == seen;
    UnmarkedParts(text, |seen|);
    if Refusal(tools, seen).Some? {
      assert seen == text;
    } else {
      assert events == [] ==> text == seen;
      PlaintextAppend([events[0]], events[1..]);
      assert events == [events[0]] + events[1..];
      assert text == seen + Plaintext([events[0]]) + Plaintext(events[1..]);
      RefusedWhole(tools, text, seen + Plaintext([events[0]]), events[1..]);
    }
  }

  /**
   All chunkings of a text are answered alike exactly if its longest part without a marker is
   within the limit, or it has no marker and is over the limit by one unit.
   */
  lemma ChunkingMattersExactly(at: Attempt, text: string)
    requires at.suppress
    ensures AnsweredAlike(at, text) <==>
            || UnmarkedLen(text) <= at.tools.maxBytes
            || (Find(text, TOOL_CALL_START).None? && |text| == at.tools.maxBytes + 1)
  {
    hide Answer, Find, Held, FirstRefusal, RunEvents;
    var max := at.tools.maxBytes;
    if UnmarkedLen(text) <= max {
      forall a | Concat(a) == text
        ensures Answer(at, a) == if Fits(at.tools, text) then RunEvents(at, Held(text), [Done])
                                 else Failed([], MalformedEvent) {
        AnswerIs(at, a);
        PushesSay(at, a);
        assert "" + text == text;
        RefusedFromMarker(at.tools, text, "", Pushes(a));
      }
    } else if Find(text, TOOL_CALL_START).None? && |text| == max + 1 {
      forall a | Concat(a) == text ensures Answer(at, a) == Failed([], InvalidCall(CorrectionTooLong, text)) {
        AnswerIs(at, a);
        PushesSay(at, a);
        assert "" + text == text;
        RefusedWhole(at.tools, text, "", Pushes(a));
      }
    } else {
      CutIsRefusedEarly(at, text);
      WholeIsNotRefusedEarly(at, text);
    }
  }

  /** Cut one unit over the limit, the text is refused there. */
  lemma CutIsRefusedEarly(at: Attempt, text: string)
    requires at.suppress && at.tools.maxBytes < UnmarkedLen(text)
    ensures var n := at.tools.maxBytes + 1;
            && Concat([text[..n], text[n..]]) == text
            && Answer(at, [text[..n], text[n..]]) == Failed([], InvalidCall(CorrectionTooLong, text[..n]))
  {
    hide Find, RunEvents, Answer, Plaintext;
    var n := at.tools.maxBytes + 1;
    var chunks := [text[..n], text[n..]];
    assert chunks[1..] == [text[n..]] && [text[n..]][1..] == [];
    ConcatStep(chunks);
    ConcatStep(chunks[1..]);
    ConcatStep([]);
    assert text[n..] + "" == text[n..] && text[..n] + text[n..] == text;
    UnmarkedParts(text, n);
    AnswerIs(at, chunks);
    NothingIsHeld(at.tools);
    var first := TextEvent(text[..n], NoFinish);
    assert Pushes(chunks)[0] == first && "" + Plaintext([first]) == text[..n] by {
      OneText(text[..n]);
    }
    RefusedAtOnce(at.tools, text[..n], Pushes(chunks)[1..]);
    assert FirstRefusal(at.tools, "", Pushes(chunks)) == FirstRefusal(at.tools, text[..n], Pushes(chunks)[1..]);
  }

  lemma OneText(text: string)
    ensures Plaintext([TextEvent(text, NoFinish)]) == text
  {
    assert [TextEvent(text, NoFinish)][1..] == [] && text + "" == text;
  }

  /** Whole, it is refused with all of its text, or for another reason, or not at all. */
  lemma WholeIsNotRefusedEarly(at: Attempt, text: string)
    requires at.suppress && at.tools.maxBytes < UnmarkedLen(text)
    requires Find(text, TOOL_CALL_START).None? ==> |text| != at.tools.maxBytes + 1
    ensures Concat([text]) == text
    ensures var n := at.tools.maxBytes + 1; Answer(at, [text]) != Failed([], InvalidCall(CorrectionTooLong, text[..n]))
  {
    hide Find, Answer, Plaintext, FromMarker, ClassifyOutput, Held;
    assert [text][1..] == [] && text + "" == text && "" + text == text;
    OneText(text);
    AnswerIs(at, [text]);
    NothingIsHeld(at.tools);
    assert Pushes([text]) == [TextEvent(text, NoFinish)];
    LastRefusal(at.tools, "", TextEvent(text, NoFinish));
    if Refusal(at.tools, text).None? {
      hide RunEvents, Corrects;
      NothingSent();
      DoneIsSilent();
      DoneReads();
      ClosingCorrects(at, [], Done, [], text);
      var last := RunEvents(at, Held(text), [Done]);
      assert [Done] + [] == [Done] && last.After([]) == last by { assert [] + last.outputs == last.outputs; }
      CorrectsOtherwise(at.tools, last, text);
    }
  }

  lemma CorrectsOtherwise(tools: ToolContext, run: Run, text: string)
    requires Find(text, TOOL_CALL_START).Some? && Corrects(tools, run, text)
    ensures run.Failed? && run.error.InvalidCall? ==> !run.error.failure.CorrectionTooLong?
  {
    hide Find, ClassifyOutput;
  }

  lemma MarkerStarts(text: string, i: nat)
    requires Occurs(text, TOOL_CALL_START, i)
    ensures text[i] == '<'
  {
    assert text[i..i + |TOOL_CALL_START|][0] == text[i];
  }

  /** At every limit: letters and then the marker, refused where they are cut in front of it. */
  lemma LettersLoseTheCall(at: Attempt) returns (text: string)
    requires at.suppress
    ensures Find(text, TOOL_CALL_START) == Some(at.tools.maxBytes + 1) && FromMarker(text) == TOOL_CALL_START
    ensures !AnsweredAlike(at, text)
  {
    var n := at.tools.maxBytes + 1;
    var letters := seq(n, i => 'x');
    text := letters + TOOL_CALL_START;
    assert text[n..n + |TOOL_CALL_START|] == TOOL_CALL_START;
    forall j | 0 <= j < n ensures !Occurs(text, TOOL_CALL_START, j) {
      if Occurs(text, TOOL_CALL_START, j) {
        MarkerStarts(text, j);
      }
    }
    FindIsFirst(text, TOOL_CALL_START, n);
    assert text[n..] == TOOL_CALL_START;
    hide AnsweredAlike, Find;
    ChunkingMattersExactly(at, text);
  }
}
