/** Streamed and buffered tool emulation give the same answer (src/http.rs, src/tools.rs). */
module Agreement {
  import opened Wrappers
  import opened Text
  import opened Output
  import opened Classify
  import LT = LeadingText
  import opened ChatEvents
  import opened ToolStream
  import MS = MarkerSplit
  import SP = StreamProtocol
  import PS = PlainStream

  // -------- What the buffer has read --------

  /** The events in front of the first Done. */
  function BeforeDone(events: seq<Event>): seq<Event> {
    if events == [] || events[0].Done? then [] else [events[0]] + BeforeDone(events[1..])
  }

  /** Everything up to a Done is readable. */
  ghost predicate ReadsToDone(events: seq<Event>) {
    var heard := BeforeDone(events);
    |heard| < |events| && events[|heard|].Done? && forall e <- heard :: Readable(e)
  }

  lemma {:induction false} BufferReads(requireEncrypted: bool, b: PS.Buffered, events: seq<Event>)
    requires PS.BufferEvents(requireEncrypted, b, events).Success?
    ensures PS.BufferEvents(requireEncrypted, b, events).value.content == b.content + Plaintext(BeforeDone(events))
    ensures ReadsToDone(events)
    decreases |events|
  {
    hide Readable, Plaintext, PS.BufferEvent;
    if events[0].Done? {
      DoneIsBuffered(requireEncrypted, b);
    } else {
      var c := PS.BufferEvent(requireEncrypted, b, events[0]).value.0;
      EventIsRead(requireEncrypted, b, events[0]);
      BufferReads(requireEncrypted, c, events[1..]);
      var rest := BeforeDone(events[1..]);
      PlaintextAppend([events[0]], rest);
      assert b.content + Plaintext([events[0]]) + Plaintext(rest) ==
        b.content + (Plaintext([events[0]]) + Plaintext(rest));
    }
  }

  lemma DoneIsBuffered(requireEncrypted: bool, b: PS.Buffered)
    requires PS.BufferEvent(requireEncrypted, b, Done).Success?
    ensures var (next, done) := PS.BufferEvent(requireEncrypted, b, Done).value;
            done && next.content == b.content + Plaintext([])
  {
    assert b.content + "" == b.content;
  }

  lemma EventIsRead(requireEncrypted: bool, b: PS.Buffered, event: Event)
    requires !event.Done? && PS.BufferEvent(requireEncrypted, b, event).Success?
    ensures Readable(event)
    ensures PS.BufferEvent(requireEncrypted, b, event).value.0.content == b.content + Plaintext([event])
    ensures !PS.BufferEvent(requireEncrypted, b, event).value.1
  {
    assert [event][1..] == [];
    assert b.content + "" == b.content;
  }

  lemma {:induction false} BeforeDoneAppend(a: seq<Event>, b: seq<Event>)
    requires forall e <- a :: !e.Done?
    ensures BeforeDone(a + b) == a + BeforeDone(b)
  {
    if a == [] {
      assert a + b == b;
    } else {
      assert (a + b)[1..] == a[1..] + b;
      BeforeDoneAppend(a[1..], b);
      assert [a[0]] + (a[1..] + BeforeDone(b)) == a + BeforeDone(b);
    }
  }

  // -------- The stream up to the finish --------

  lemma {:induction false} RunAppend(at: Attempt, st: State, a: seq<Event>, b: seq<Event>)
    requires forall e <- a :: !e.Done?
    ensures RunEvents(at, st, a + b) ==
            match RunEvents(at, st, a)
            case Open(next, outputs) => RunEvents(at, next, b).After(outputs)
            case stopped => stopped
    decreases |a|
  {
    hide HandleEvent;
    if a == [] {
      assert a + b == b;
      var run := RunEvents(at, st, b);
      assert [] + run.outputs == run.outputs;
    } else {
      assert (a + b)[1..] == a[1..] + b;
      if HandleEvent(at, st, a[0]).Success? {
        var (next, outputs) := HandleEvent(at, st, a[0]).value;
        RunAppend(at, next, a[1..], b);
        var run := RunEvents(at, next, a[1..]);
        if run.Open? {
          var rest := RunEvents(at, run.state, b).outputs;
          assert outputs + (run.outputs + rest) == outputs + run.outputs + rest;
        }
      }
    }
  }

  // -------- The size limit --------

  function FromMarker(text: string): string {
    match Find(text, TOOL_CALL_START) case None => "" case Some(i) => text[i..]
  }

  /** What the stream has to buffer of `text` is within the size limit. */
  predicate Fits(tools: ToolContext, text: string) {
    |FromMarker(text)| <= tools.maxBytes
  }

  lemma FromMarkerGrows(text: string, more: string)
    ensures Find(text, TOOL_CALL_START).Some? ==>
              Find(text + more, TOOL_CALL_START).Some? && FromMarker(text + more) == FromMarker(text) + more
  {
    hide Find;
    if Find(text, TOOL_CALL_START).Some? {
      FindExtends(text, more, TOOL_CALL_START);
    }
  }

  lemma FitsBefore(tools: ToolContext, text: string, more: string)
    requires Fits(tools, text + more)
    ensures Fits(tools, text)
  {
    hide Find;
    FromMarkerGrows(text, more);
  }

  /** A push fails, as malformed, exactly where what has to be buffered outgrows the limit. */
  lemma PushOutcome(at: Attempt, st: State, index: nat, content: string, emitted: string, text: string)
    requires !at.suppress && MS.Splits(st, emitted, text)
    ensures Fits(at.tools, text + content) <==> PushContent(at, st, index, content).Success?
    ensures !Fits(at.tools, text + content) ==> PushContent(at, st, index, content) == Failure(MalformedEvent)
  {
    hide Find, StreamableLen, MS.ShortCharacters;
    if st.bufferingToolCall {
      FromMarkerGrows(text, content);
      assert FromMarker(text) == st.toolBuffer;
    } else {
      MS.FindBeyondEmitted(emitted, st.pendingText, content);
      var pending := st.pendingText + content;
      assert text + content == emitted + pending;
      match Find(pending, TOOL_CALL_START) {
        case Some(i) => assert (text + content)[|emitted| + i..] == pending[i..];
        case None =>
      }
    }
  }

  lemma ReadableEventOutcome(at: Attempt, st: State, event: Event, emitted: string, text: string)
    requires !at.suppress && MS.Splits(st, emitted, text) && Continuing(event) && Readable(event)
             && Fits(at.tools, text)
    ensures Fits(at.tools, text + Plaintext([event])) <==> HandleEvent(at, st, event).Success?
    ensures !Fits(at.tools, text + Plaintext([event])) ==> HandleEvent(at, st, event) == Failure(MalformedEvent)
  {
    hide PushContent, MS.Splits, Fits;
    assert [event][1..] == [] && text + "" == text;
    if event.Choice? && event.content.Sealed? {
      var index := ReadIndex(event.index).value;
      var st1 := ReasoningPart(at, st, index, Decrypt(event.reasoning).value).0;
      MS.ReasoningSplits(at, st, index, Decrypt(event.reasoning).value, emitted, text);
      PushOutcome(at, st1, index, event.content.plain.value, emitted, text);
      assert Plaintext([event]) == event.content.plain.value;
    }
  }

  /**
   Readable text stops the stream before its finish, as malformed, exactly where it outgrows the
   limit from its marker on.
   */
  lemma {:induction false} ReadableStaysOpen(at: Attempt, st: State, events: seq<Event>, emitted: string, text: string)
    requires !at.suppress && MS.Splits(st, emitted, text) && Fits(at.tools, text)
    requires forall e <- events :: Continuing(e) && Readable(e)
    ensures Fits(at.tools, text + Plaintext(events)) <==> RunEvents(at, st, events).Open?
    ensures var run := RunEvents(at, st, events);
            !Fits(at.tools, text + Plaintext(events)) ==> run.Failed? && run.error == MalformedEvent
    decreases |events|
  {
    hide HandleEvent, MS.Splits, Find, Readable, Continuing, Fits;
    if events == [] {
      assert text + "" == text;
    } else {
      var event := events[0];
      PlaintextAppend([event], events[1..]);
      assert events == [event] + events[1..];
      assert text + Plaintext([event]) + Plaintext(events[1..]) == text + Plaintext(events);
      ReadableEventOutcome(at, st, event, emitted, text);
      assert !event.Done? by { ContinuingIsNotDone(event); }
      if Fits(at.tools, text + Plaintext([event])) {
        MS.EventSplits(at, st, event, emitted, text);
        var (next, outputs) := HandleEvent(at, st, event).value;
        ReadableStaysOpen(at, next, events[1..], emitted + ContentOf(outputs), text + Plaintext([event]));
      } else if Fits(at.tools, text + Plaintext(events)) {
        FitsBefore(at.tools, text + Plaintext([event]), Plaintext(events[1..]));
      }
    }
  }

  /**
   Before its finish, a first attempt over readable events is cut off as malformed exactly where a
   call is overlong.
   */
  lemma OverlongCallsAreMalformed(at: Attempt, events: seq<Event>)
    requires !at.suppress && forall e <- events :: Continuing(e) && Readable(e)
    ensures var run := RunEvents(at, InitialState, events);
            if |FromMarker(Plaintext(events))| <= at.tools.maxBytes then run.Open?
            else run.Failed? && run.error == MalformedEvent
  {
    hide RunEvents, Find, MS.Splits, Readable, Continuing, Plaintext;
    MS.InitiallySplit();
    assert "" + Plaintext(events) == Plaintext(events);
    assert FromMarker("") == "" by { NoMarkerInNothing(); }
    ReadableStaysOpen(at, InitialState, events, "", "");
  }

  lemma NoMarkerInNothing()
    ensures Find("", TOOL_CALL_START) == None
  {
  }

  lemma ContinuingIsNotDone(event: Event)
    requires Continuing(event)
    ensures !event.Done?
  {
  }

  // -------- The finish itself --------

  function Numbered(calls: seq<ValidatedToolCall>, first: nat): seq<ToolCallPart>
    decreases |calls|
  {
    if calls == [] then [] else [ToolCallPart(first, calls[0])] + Numbered(calls[1..], first + 1)
  }

  lemma {:induction false} CallChunksCarry(sentRole: bool, index: nat, calls: seq<ValidatedToolCall>, first: nat)
    ensures PartsOf(CallChunks(sentRole, index, calls, first)) == Numbered(calls, first)
    ensures ContentOf(CallChunks(sentRole, index, calls, first)) == ""
    decreases |calls|
  {
    if calls != [] {
      CallChunksCarry(true, index, calls[1..], first + 1);
    }
  }

  /** What a flush adds to the text streamed so far answers the verdict on the whole text. */
  ghost predicate Answers(flushed: Step, verdict: Classification, emitted: string, text: string) {
    match verdict
    case NormalText =>
      flushed.Success? && emitted + ContentOf(flushed.value.1) == text && PartsOf(flushed.value.1) == []
    case ToolCalls(calls) =>
      && flushed.Success? && PartsOf(flushed.value.1) == Numbered(calls, 0)
      && ContentOf(flushed.value.1) == "" && emitted + FromMarker(text) == text
    case InvalidToolCall(error, _) =>
      flushed == Failure(InvalidCall(Unusable(error), FromMarker(text)))
  }

  lemma UnmarkedFlush(at: Attempt, st: State, index: nat, emitted: string, text: string)
    requires !at.suppress && MS.Splits(st, emitted, text) && !st.bufferingToolCall
    ensures Answers(Flush(at, st, index), NormalText, emitted, text)
  {
    hide Find, MS.ShortCharacters;
    MS.EmittedText(st, index, st.pendingText);
    if st.pendingText == "" {
      NothingSent();
      assert emitted + "" == emitted;
    } else {
      OneOutput(EmitText(st, index, st.pendingText).1[0]);
    }
  }

  /** The stream classifies only what it has buffered from a marker on. */
  function StreamVerdict(tools: ToolContext, text: string): Classification {
    if Find(text, TOOL_CALL_START).Some? then ClassifyOutput(tools, FromMarker(text)) else NormalText
  }

  lemma MarkedFlush(at: Attempt, st: State, index: nat, emitted: string, text: string)
    requires !at.suppress && MS.Splits(st, emitted, text) && st.bufferingToolCall && Fits(at.tools, text)
    ensures Answers(Flush(at, st, index), StreamVerdict(at.tools, text), emitted, text)
  {
    hide Find, ParseToolCalls, MS.ShortCharacters;
    assert FromMarker(text) == st.toolBuffer;
    match ClassifyOutput(at.tools, st.toolBuffer) {
      case NormalText =>
        OneOutput(EmitText(st, index, st.toolBuffer).1[0]);
        BufferIsMarked(st, emitted, text);
      case ToolCalls(calls) => CallChunksCarry(st.sentRole, index, calls, 0);
      case InvalidToolCall(_, output) => assert output == st.toolBuffer;
    }
  }

  lemma BufferIsMarked(st: State, emitted: string, text: string)
    requires MS.Splits(st, emitted, text) && st.bufferingToolCall
    ensures LT.Leads(emitted, st.toolBuffer) && st.toolBuffer != ""
  {
    hide FindFrom, MS.ShortCharacters;
    assert text[|emitted|..|emitted| + |TOOL_CALL_START|] == st.toolBuffer[..|TOOL_CALL_START|];
  }

  /** The finish gives the client what the verdict on the whole text says. */
  lemma FlushAnswers(at: Attempt, st: State, index: nat, emitted: string, text: string)
    requires !at.suppress && MS.Splits(st, emitted, text) && Fits(at.tools, text)
    ensures Answers(Flush(at, st, index), StreamVerdict(at.tools, text), emitted, text)
  {
    hide Find, Flush, ClassifyOutput, Answers, MS.ShortCharacters;
    if st.bufferingToolCall {
      MarkedFlush(at, st, index, emitted, text);
    } else {
      UnmarkedFlush(at, st, index, emitted, text);
    }
  }

  // -------- After the finish --------

  lemma FinishedEventSucceeds(at: Attempt, st: State, event: Event)
    requires st.sentFinalFinish && Readable(event)
    ensures HandleEvent(at, st, event).Success? && HandleEvent(at, st, event).value.0.sentFinalFinish
  {
  }

  lemma {:induction false} FinishedRunCompletes(at: Attempt, st: State, events: seq<Event>)
    requires st.sentFinalFinish && ReadsToDone(events)
    ensures RunEvents(at, st, events).Completed?
    decreases |events|
  {
    hide HandleEvent, Readable;
    FinishedEventSucceeds(at, st, events[0]) by { FirstIsReadable(events); }
    if !events[0].Done? {
      FinishedRunCompletes(at, HandleEvent(at, st, events[0]).value.0, events[1..]);
    }
  }

  lemma FirstIsReadable(events: seq<Event>)
    requires ReadsToDone(events)
    ensures Readable(events[0])
  {
    if !events[0].Done? {
      assert BeforeDone(events)[0] == events[0];
    }
  }

  // -------- The agreement --------

  /** A completed or failed stream that gives the client what the verdict says. */
  ghost predicate Delivers(run: Run, verdict: Classification, text: string) {
    match verdict
    case NormalText => run.Completed? && ContentOf(run.outputs) == text && PartsOf(run.outputs) == []
    case ToolCalls(calls) =>
      run.Completed? && PartsOf(run.outputs) == Numbered(calls, 0) && ContentOf(run.outputs) + FromMarker(text) == text
    case InvalidToolCall(error, _) =>
      run.Failed? && run.error == InvalidCall(Unusable(error), FromMarker(text)) && PartsOf(run.outputs) == []
  }

  predicate Closing(event: Event) {
    event.Done? || (event.Choice? && event.finish.Reason?)
  }

  /** The finish, with what is sent before and after it. */
  function Framed(quiet: seq<StreamOutput>, finish: Step, after: seq<StreamOutput>): Step {
    var (next, last) :- finish;
    Success((next, quiet + last + after))
  }

  /** A closing event is a quiet part, the finish, and after Done the end mark. */
  lemma ClosingStep(at: Attempt, st: State, closing: Event, emitted: string, text: string)
    returns (mid: State, quiet: seq<StreamOutput>, index: nat, reason: string)
    requires !at.suppress && MS.Splits(st, emitted, text) && Closing(closing) && Readable(closing)
    requires Fits(at.tools, text + Plaintext([closing]))
    ensures MS.Splits(mid, emitted + ContentOf(quiet), text + Plaintext([closing])) && PartsOf(quiet) == []
    ensures !mid.sentFinalFinish
    ensures HandleEvent(at, st, closing) ==
            Framed(quiet, FinishContent(at, mid, index, reason), if closing.Done? then [DoneMark] else [])
  {
    hide HandleEvent, FinishContent, MS.Splits, Find, Plaintext, ContentOf, PartsOf, Fits;
    Unfinished(st, emitted, text);
    if closing.Done? {
      SP.DoneFinishes(at, st);
      mid, quiet, index, reason := st, [], 0, "stop";
      NothingSent();
      DoneIsSilent();
      assert emitted + "" == emitted && text + "" == text;
    } else {
      var calm := closing.(finish := NoFinish);
      SamePlaintext(closing, calm);
      FitsBefore(at.tools, text, Plaintext([closing]));
      ReadableEventOutcome(at, st, calm, emitted, text);
      MS.EventSplits(at, st, calm, emitted, text);
      SP.QuietEvent(at, st, calm);
      SP.FinishComesLast(at, st, closing);
      var (next, outputs) := HandleEvent(at, st, calm).value;
      mid, quiet := next, outputs;
      index, reason := SP.IndexOf(closing), closing.finish.text;
      assert forall a: seq<StreamOutput> :: a + [] == a;
    }
  }

  lemma Unfinished(st: State, emitted: string, text: string)
    requires MS.Splits(st, emitted, text)
    ensures !st.sentFinalFinish
  {
  }

  lemma DoneIsSilent()
    ensures Plaintext([Done]) == ""
  {
    assert [Done][1..] == [];
  }

  lemma SamePlaintext(a: Event, b: Event)
    requires a.Choice? && b.Choice? && a.content == b.content
    ensures Plaintext([a]) == Plaintext([b])
  {
    assert [a][1..] == [] && [b][1..] == [];
  }

  /** The finish chunk adds neither text nor calls to what was flushed. */
  lemma FinishCarries(at: Attempt, st: State, index: nat, reason: string)
    requires Flush(at, st, index).Success?
    ensures var flushed := Flush(at, st, index).value.1;
            && FinishContent(at, st, index, reason).Success?
            && var (next, last) := FinishContent(at, st, index, reason).value;
            ContentOf(last) == ContentOf(flushed) && PartsOf(last) == PartsOf(flushed) && next.sentFinalFinish
  {
    hide Flush, ContentOf, PartsOf;
    var flushed := Flush(at, st, index).value.1;
    var (next, last) := FinishContent(at, st, index, reason).value;
    var finish := last[|flushed|];
    OneOutput(finish);
    OutputsAppend(flushed, [finish]);
    assert ContentOf(flushed) + "" == ContentOf(flushed);
  }

  /** What follows a successful closing event adds neither text nor calls either. */
  lemma ClosedRunOutputs(at: Attempt, st: State, closing: Event, tail: seq<Event>, next: State,
      quiet: seq<StreamOutput>, last: seq<StreamOutput>) returns (later: seq<StreamOutput>)
    requires Closing(closing) && next.sentFinalFinish
    requires HandleEvent(at, st, closing) == Success((next, quiet + last + if closing.Done? then [DoneMark] else []))
    requires !closing.Done? ==> ReadsToDone(tail)
    ensures RunEvents(at, st, [closing] + tail) == Completed(quiet + last + later)
    ensures ContentOf(later) == "" && PartsOf(later) == []
  {
    hide HandleEvent, Readable, ContentOf, PartsOf, LastFinish, ReasoningOf, BeforeDone;
    assert ([closing] + tail)[1..] == tail;
    if closing.Done? {
      OneOutput(DoneMark);
      later := [DoneMark];
    } else {
      SP.FinishedRun(at, next, tail);
      FinishedRunCompletes(at, next, tail);
      later := RunEvents(at, next, tail).outputs;
      assert quiet + last + [] == quiet + last;
    }
  }

  lemma SumOfParts(before: seq<StreamOutput>, quiet: seq<StreamOutput>, last: seq<StreamOutput>,
      later: seq<StreamOutput>)
    requires PartsOf(before) == PartsOf(quiet) == PartsOf(later) == [] && ContentOf(later) == ""
    ensures var all := before + (quiet + last + later);
            ContentOf(all) == ContentOf(before) + ContentOf(quiet) + ContentOf(last) && PartsOf(all) == PartsOf(last)
  {
    hide ContentOf, PartsOf, LastFinish, ReasoningOf;
    OutputsAppend(before, quiet);
    OutputsAppend(before + quiet, last);
    OutputsAppend(before + quiet + last, later);
    assert before + (quiet + last + later) == before + quiet + last + later;
    assert ContentOf(before + quiet + last) + "" == ContentOf(before + quiet + last);
  }

  /** Everything sent from the closing event on, whatever comes after it. */
  lemma ClosedRunDelivers(at: Attempt, st: State, before: seq<StreamOutput>, closing: Event, tail: seq<Event>,
      text: string)
    requires !at.suppress && MS.Splits(st, ContentOf(before), text) && PartsOf(before) == []
    requires Closing(closing) && Readable(closing)
    requires !closing.Done? ==> ReadsToDone(tail)
    requires Fits(at.tools, text + Plaintext([closing]))
    ensures var whole := text + Plaintext([closing]);
            Delivers(RunEvents(at, st, [closing] + tail).After(before), StreamVerdict(at.tools, whole), whole)
  {
    hide HandleEvent, Flush, MS.Splits, Find, Plaintext, ContentOf, PartsOf, StreamVerdict, BeforeDone, FromMarker,
      Readable;
    var whole := text + Plaintext([closing]);
    var mid, quiet, index, reason := ClosingStep(at, st, closing, ContentOf(before), text);
    FlushAnswers(at, mid, index, ContentOf(before) + ContentOf(quiet), whole);
    if Flush(at, mid, index).Success? {
      FinishCarries(at, mid, index, reason);
      var (next, last) := FinishContent(at, mid, index, reason).value;
      var later := ClosedRunOutputs(at, st, closing, tail, next, quiet, last);
      SumOfParts(before, quiet, last, later);
    } else {
      assert before + [] == before;
    }
  }

  /** A closing event whose own text outgrows the limit fails as malformed. */
  lemma ClosingFails(at: Attempt, st: State, closing: Event, emitted: string, text: string)
    requires !at.suppress && MS.Splits(st, emitted, text) && Closing(closing) && Readable(closing)
    requires Fits(at.tools, text) && !Fits(at.tools, text + Plaintext([closing]))
    ensures HandleEvent(at, st, closing) == Failure(MalformedEvent)
  {
    hide HandleEvent, MS.Splits, Plaintext, Fits;
    assert text + "" == text;
    DoneIsSilent();
    if !closing.Done? {
      var calm := closing.(finish := NoFinish);
      SamePlaintext(closing, calm);
      ReadableEventOutcome(at, st, calm, emitted, text);
      SP.FinishComesLast(at, st, closing);
    }
  }

  /** A choice that is answered up to its closing event, in a stream readable up to Done. */
  ghost predicate Answerable(lead: seq<Event>, closing: Event, tail: seq<Event>) {
    Closing(closing) && (forall e <- lead :: Continuing(e)) && ReadsToDone(lead + [closing] + tail)
  }

  /** The text the stream hears: what comes by the closing event. */
  function HeardText(lead: seq<Event>, closing: Event): string {
    Plaintext(lead) + Plaintext([closing])
  }

  /**
   The whole answer of a first attempt: the verdict on the text up to the closing event if what
   has to be buffered of it fits the limit, and otherwise a malformed stream.
   */
  lemma StreamDelivers(at: Attempt, lead: seq<Event>, closing: Event, tail: seq<Event>)
    requires !at.suppress && Answerable(lead, closing, tail)
    ensures var run, text := RunEvents(at, InitialState, lead + [closing] + tail), HeardText(lead, closing);
            if Fits(at.tools, text) then Delivers(run, StreamVerdict(at.tools, text), text)
            else run.Failed? && run.error == MalformedEvent
  {
    hide RunEvents, StreamVerdict, Delivers, Find, MS.Splits, Plaintext, ContentOf, PartsOf, Readable, Continuing,
      Fits, ReadsToDone;
    var events := lead + [closing] + tail;
    HeardEvents(lead, closing, tail);
    MS.InitiallySplit();
    NothingFits(at.tools);
    assert "" + Plaintext(lead) == Plaintext(lead);
    ReadableStaysOpen(at, InitialState, lead, "", "");
    NoDoneIn(lead);
    RunAppend(at, InitialState, lead, [closing] + tail);
    assert lead + ([closing] + tail) == events;
    if Fits(at.tools, Plaintext(lead)) {
      MS.RunSplits(at, InitialState, lead, "", "");
      QuietRun(at, InitialState, lead);
      var Open(st, before) := RunEvents(at, InitialState, lead);
      assert "" + ContentOf(before) == ContentOf(before);
      if Fits(at.tools, HeardText(lead, closing)) {
        ClosedRunDelivers(at, st, before, closing, tail, Plaintext(lead));
      } else {
        ClosingFails(at, st, closing, ContentOf(before), Plaintext(lead));
        FailsAtOnce(at, st, closing, tail);
      }
    } else if Fits(at.tools, HeardText(lead, closing)) {
      FitsBefore(at.tools, Plaintext(lead), Plaintext([closing]));
    }
  }

  lemma NothingFits(tools: ToolContext)
    ensures Fits(tools, "")
  {
    NoMarkerInNothing();
  }

  lemma FailsAtOnce(at: Attempt, st: State, event: Event, tail: seq<Event>)
    requires HandleEvent(at, st, event).Failure?
    ensures RunEvents(at, st, [event] + tail) == Failed([], HandleEvent(at, st, event).error)
  {
    hide HandleEvent;
  }

  /** Buffering turns such a stream into a completion; text after the closing event is in it too. */
  ghost predicate Comparable(requireEncrypted: bool, lead: seq<Event>, closing: Event, tail: seq<Event>) {
    && Closing(closing) && (forall e <- lead :: Continuing(e))
    && PS.BufferEvents(requireEncrypted, PS.EmptyBuffer, lead + [closing] + tail).Success?
  }

  /** Text that comes after the event that finished the choice. */
  function LateText(closing: Event, tail: seq<Event>): string {
    if closing.Done? then "" else Plaintext(BeforeDone(tail))
  }

  lemma BufferedText(requireEncrypted: bool, lead: seq<Event>, closing: Event, tail: seq<Event>)
    requires Comparable(requireEncrypted, lead, closing, tail)
    ensures Answerable(lead, closing, tail)
    ensures PS.BufferEvents(requireEncrypted, PS.EmptyBuffer, lead + [closing] + tail).value.content ==
            HeardText(lead, closing) + LateText(closing, tail)
  {
    hide PS.BufferEvents, ReadsToDone, Continuing, Plaintext, BeforeDone;
    BufferReads(requireEncrypted, PS.EmptyBuffer, lead + [closing] + tail);
    HeardEvents(lead, closing, tail);
  }

  lemma {:induction false} NumberedInjective(a: seq<ValidatedToolCall>, b: seq<ValidatedToolCall>, first: nat)
    requires Numbered(a, first) == Numbered(b, first)
    ensures a == b
    decreases |a|
  {
    if a != [] && b != [] {
      assert Numbered(a, first)[1..] == Numbered(a[1..], first + 1);
      assert Numbered(b, first)[1..] == Numbered(b[1..], first + 1);
      NumberedInjective(a[1..], b[1..], first + 1);
      assert a[0] == Numbered(a, first)[0].call == b[0];
      assert a == [a[0]] + a[1..] && b == [b[0]] + b[1..];
    }
  }

  /** A stream that answers one text answers a longer one only by the same calls. */
  lemma LateVerdict(tools: ToolContext, run: Run, heard: string, late: string)
    requires late != "" && Delivers(run, StreamVerdict(tools, heard), heard)
    ensures Delivers(run, ClassifyOutput(tools, heard + late), heard + late) <==>
            StreamVerdict(tools, heard).ToolCalls? && ClassifyOutput(tools, heard + late) == StreamVerdict(tools, heard)
  {
    hide Find, ParseToolCalls, ContentOf, PartsOf;
    var text := heard + late;
    FromMarkerGrows(heard, late);
    match (StreamVerdict(tools, heard), ClassifyOutput(tools, text)) {
      case (ToolCalls(a), ToolCalls(b)) =>
        if Numbered(a, 0) == Numbered(b, 0) {
          NumberedInjective(a, b, 0);
        }
        assert ContentOf(run.outputs) + FromMarker(heard) + late == ContentOf(run.outputs) + (FromMarker(heard) + late);
      case _ =>
    }
  }

  /**
   Where buffering gives a completion, the stream gives the client exactly what classifying that
   completion's text would, if and only if: the text fits the limit and has a marker or no call
   is required, where all of it came by the closing event; and where some came after, both read
   the same calls.
   */
  lemma StreamAgreesWithBuffer(at: Attempt, requireEncrypted: bool, lead: seq<Event>, closing: Event, tail: seq<Event>)
    requires !at.suppress && Comparable(requireEncrypted, lead, closing, tail)
    ensures var text := PS.BufferEvents(requireEncrypted, PS.EmptyBuffer, lead + [closing] + tail).value.content;
            var heard := HeardText(lead, closing);
            Delivers(RunEvents(at, InitialState, lead + [closing] + tail), ClassifyOutput(at.tools, text), text) <==>
            if LateText(closing, tail) == "" then
              |text| <= at.tools.maxBytes && (Find(text, TOOL_CALL_START).Some? || !at.tools.requireToolCall)
            else
              StreamVerdict(at.tools, heard).ToolCalls?
                && ClassifyOutput(at.tools, text) == StreamVerdict(at.tools, heard)
  {
    hide RunEvents, Find, FromMarker, Delivers, StreamVerdict, ParseToolCalls, PS.BufferEvents, HeardText, LateText;
    var heard, late := HeardText(lead, closing), LateText(closing, tail);
    var run := RunEvents(at, InitialState, lead + [closing] + tail);
    BufferedText(requireEncrypted, lead, closing, tail);
    StreamDelivers(at, lead, closing, tail);
    NeverTooLong(at, InitialState, lead + [closing] + tail);
    FromMarkerIsShorter(heard);
    assert heard + "" == heard;
    if late == "" {
      WholeVerdict(at.tools, run, heard);
    } else if Fits(at.tools, heard) {
      LateVerdict(at.tools, run, heard, late);
    } else {
      MalformedDelivers(run, ClassifyOutput(at.tools, heard + late), heard + late);
    }
  }

  lemma FromMarkerIsShorter(text: string)
    ensures |FromMarker(text)| <= |text|
  {
  }

  lemma MalformedDelivers(run: Run, verdict: Classification, text: string)
    requires run.Failed? && run.error == MalformedEvent
    ensures !Delivers(run, verdict, text)
  {
  }

  /** The stream's answer to a whole text, against the verdict on that text. */
  lemma WholeVerdict(tools: ToolContext, run: Run, text: string)
    requires if Fits(tools, text) then Delivers(run, StreamVerdict(tools, text), text)
             else run.Failed? && run.error == MalformedEvent
    requires run.Failed? && run.error.InvalidCall? ==> run.error.failure != Unusable(OutputTooLong)
    ensures Delivers(run, ClassifyOutput(tools, text), text) <==>
            |text| <= tools.maxBytes && (Find(text, TOOL_CALL_START).Some? || !tools.requireToolCall)
  {
    hide Find, ParseToolCalls, ContentOf, PartsOf;
    FromMarkerIsShorter(text);
    if |text| <= tools.maxBytes {
      if Find(text, TOOL_CALL_START).Some? {
        VerdictFromMarker(tools, text);
      } else {
        LT.UnmarkedIsNormalText(tools, text);
      }
    }
  }

  lemma VerdictFromMarker(tools: ToolContext, text: string)
    requires |text| <= tools.maxBytes && Find(text, TOOL_CALL_START).Some?
    ensures LT.SameVerdict(ClassifyOutput(tools, text), ClassifyOutput(tools, FromMarker(text)))
  {
    hide FindFrom, ClassifyOutput;
    var i := Find(text, TOOL_CALL_START).value;
    assert text == text[..i] + text[i..];
    assert text[i..i + |TOOL_CALL_START|] == text[i..][..|TOOL_CALL_START|];
    LT.ClassificationIgnoresLead(tools, text[..i], text[i..]);
  }

  // -------- Where they do not agree --------

  function TextEvent(text: string, finish: FinishReason): Event {
    Choice(NoIndex, finish, Sealed(Some(text)), Absent)
  }

  lemma TextThenDone(text: string)
    ensures Comparable(false, [TextEvent(text, NoFinish)], Done, [])
    ensures HeardText([TextEvent(text, NoFinish)], Done) == text && LateText(Done, []) == ""
  {
    var event := TextEvent(text, NoFinish);
    var events := [event] + [Done] + [];
    assert events[0] == event && events[1..] == [Done] && [event][1..] == [];
    DoneIsSilent();
    assert "" + text == text && text + "" == text;
  }

  /** Every limit is passed by some plain text, which the stream delivers and the buffer refuses. */
  lemma OverlongTextDisagrees(at: Attempt) returns (text: string)
    requires !at.suppress
    ensures var lead := [TextEvent(text, NoFinish)];
            && Comparable(false, lead, Done, [])
            && var content := PS.BufferEvents(false, PS.EmptyBuffer, lead + [Done] + []).value.content;
            && content == text && at.tools.maxBytes < |text|
            && !Delivers(RunEvents(at, InitialState, lead + [Done] + []), ClassifyOutput(at.tools, content), content)
  {
    hide RunEvents, PS.BufferEvents, Delivers, ClassifyOutput, HeardText, LateText, Find;
    text := seq(at.tools.maxBytes + 1, i => 'x');
    TextThenDone(text);
    BufferedText(false, [TextEvent(text, NoFinish)], Done, []);
    assert text + "" == text;
    StreamAgreesWithBuffer(at, false, [TextEvent(text, NoFinish)], Done, []);
  }

  /** Where a call is required, an empty answer without one is streamed and refused by the buffer. */
  lemma MissingCallDisagrees(at: Attempt)
    requires !at.suppress && at.tools.requireToolCall
    ensures var lead := [TextEvent("", NoFinish)];
            && Comparable(false, lead, Done, [])
            && var content := PS.BufferEvents(false, PS.EmptyBuffer, lead + [Done] + []).value.content;
            content == ""
              && !Delivers(RunEvents(at, InitialState, lead + [Done] + []), ClassifyOutput(at.tools, content), content)
  {
    hide RunEvents, PS.BufferEvents, Delivers, ClassifyOutput, HeardText, LateText, Find;
    TextThenDone("");
    BufferedText(false, [TextEvent("", NoFinish)], Done, []);
    assert "" + "" == "";
    NoMarkerInNothing();
    StreamAgreesWithBuffer(at, false, [TextEvent("", NoFinish)], Done, []);
  }

  /** Text after the finish is dropped by the stream and kept by the buffer. */
  lemma LateTextDisagrees(at: Attempt)
    requires !at.suppress
    ensures var closing, tail := TextEvent("a", Reason("stop")), [TextEvent("b", NoFinish), Done];
            && Comparable(false, [], closing, tail)
            && var content := PS.BufferEvents(false, PS.EmptyBuffer, [] + [closing] + tail).value.content;
            && content == "ab"
            && !Delivers(RunEvents(at, InitialState, [] + [closing] + tail), ClassifyOutput(at.tools, content), content)
  {
    hide RunEvents, Delivers, ClassifyOutput, Find, PS.BufferEvents, Comparable;
    var closing, late := TextEvent("a", Reason("stop")), TextEvent("b", NoFinish);
    LateIsComparable(closing, late);
    BufferedText(false, [], closing, [late, Done]);
    LateIsHeardLate(closing, late);
    NoMarkerInLetter();
    StreamAgreesWithBuffer(at, false, [], closing, [late, Done]);
  }

  lemma LateIsComparable(closing: Event, late: Event)
    requires closing == TextEvent("a", Reason("stop")) && late == TextEvent("b", NoFinish)
    ensures Comparable(false, [], closing, [late, Done])
  {
    var events := [] + [closing] + [late, Done];
    assert events[0] == closing && events[1..] == [late, Done] && [late, Done][1..] == [Done];
    var b1 := PS.BufferEvent(false, PS.EmptyBuffer, closing).value.0;
    var b2 := PS.BufferEvent(false, b1, late).value.0;
    assert PS.BufferEvents(false, b2, [Done]).Success?;
    assert PS.BufferEvents(false, b1, [late, Done]).Success?;
  }

  lemma LateIsHeardLate(closing: Event, late: Event)
    requires closing == TextEvent("a", Reason("stop")) && late == TextEvent("b", NoFinish)
    ensures HeardText([], closing) == "a" && LateText(closing, [late, Done]) == "b" && "a" + "b" == "ab"
  {
    assert [closing][1..] == [] && [late][1..] == [] && [late, Done][1..] == [Done];
    assert Plaintext([closing]) == "a" + Plaintext([closing][1..]) == "a";
    assert Plaintext([late]) == "b" + Plaintext([late][1..]) == "b";
    assert BeforeDone([late, Done]) == [late] + BeforeDone([Done]) == [late];
  }

  lemma NoMarkerInLetter()
    ensures Find("a", TOOL_CALL_START) == None
  {
  }

  lemma ClassifiedWithinLimit(tools: ToolContext, text: string)
    requires |text| <= tools.maxBytes && ClassifyOutput(tools, text).InvalidToolCall?
    ensures !ClassifyOutput(tools, text).error.OutputTooLong?
  {
    hide ParseWith, Find;
    forall calls | ValidateAll(tools, calls).Failure? ensures !ValidateAll(tools, calls).error.OutputTooLong? {
      ValidationIsNeverTooLong(tools, calls);
    }
  }

  lemma {:induction false} ValidationIsNeverTooLong(tools: ToolContext, calls: seq<ToolCallDelta>)
    requires ValidateAll(tools, calls).Failure?
    ensures !ValidateAll(tools, calls).error.OutputTooLong?
  {
    if calls != [] && ValidateToolCall(tools, calls[0]).Success? {
      ValidationIsNeverTooLong(tools, calls[1..]);
    }
  }

  /**
   No attempt reports overlong output as an unusable call, and only a suppressed one reports
   overlong text in front of a call as an invalid call.
   */
  lemma {:induction false} NeverTooLong(at: Attempt, st: State, events: seq<Event>)
    ensures var run := RunEvents(at, st, events);
            run.Failed? && run.error.InvalidCall? ==>
              run.error.failure != Unusable(OutputTooLong) && (run.error.failure.CorrectionTooLong? ==> at.suppress)
    decreases |events|
  {
    hide HandleEvent;
    if events != [] {
      EventNeverTooLong(at, st, events[0]);
      if HandleEvent(at, st, events[0]).Success? {
        NeverTooLong(at, HandleEvent(at, st, events[0]).value.0, events[1..]);
      }
    }
  }

  ghost predicate TooLongOutput(at: Attempt, error: ChatError) {
    error.InvalidCall?
      && (error.failure == Unusable(OutputTooLong) || (error.failure.CorrectionTooLong? && !at.suppress))
  }

  lemma FinishNeverTooLong(at: Attempt, st: State, index: nat, finish: Option<string>)
    ensures var step := FinishPart(at, st, index, finish); step.Failure? ==> !TooLongOutput(at, step.error)
  {
    hide ClassifyOutput;
    if |st.toolBuffer| <= at.tools.maxBytes && ClassifyOutput(at.tools, st.toolBuffer).InvalidToolCall? {
      ClassifiedWithinLimit(at.tools, st.toolBuffer);
    }
  }

  lemma ContentNeverTooLong(at: Attempt, st: State, index: nat, content: Option<string>)
    ensures var step := ContentPart(at, st, index, content); step.Failure? ==> !TooLongOutput(at, step.error)
  {
    hide Find, StreamableLen;
  }

  lemma EventNeverTooLong(at: Attempt, st: State, event: Event)
    ensures var step := HandleEvent(at, st, event); step.Failure? ==> !TooLongOutput(at, step.error)
  {
    hide FinishPart, ContentPart, ReasoningPart;
    FinishNeverTooLong(at, st, 0, Some("stop"));
    if event.Choice? && HandleEvent(at, st, event).Failure?
      && ReadIndex(event.index).Success? && ReadFinish(event.finish).Success?
      && !event.content.Malformed? && !event.reasoning.Malformed?
      && Decrypt(event.reasoning).Success? && Decrypt(event.content).Success?
    {
      var index := ReadIndex(event.index).value;
      var st1 := ReasoningPart(at, st, index, Decrypt(event.reasoning).value).0;
      ContentNeverTooLong(at, st1, index, Decrypt(event.content).value);
      if ContentPart(at, st1, index, Decrypt(event.content).value).Success? {
        var st2 := ContentPart(at, st1, index, Decrypt(event.content).value).value.0;
        FinishNeverTooLong(at, st2, index, ReadFinish(event.finish).value);
      }
    }
  }

  lemma NoDoneIn(lead: seq<Event>)
    requires forall e <- lead :: Continuing(e)
    ensures forall e <- lead :: !e.Done?
  {
    hide Continuing;
    forall e <- lead ensures !e.Done? {
      ContinuingIsNotDone(e);
    }
  }

  /** The events read are the lead, the closing choice, and the rest up to Done. */
  lemma HeardEvents(lead: seq<Event>, closing: Event, tail: seq<Event>)
    requires Closing(closing) && forall e <- lead :: Continuing(e)
    requires ReadsToDone(lead + [closing] + tail)
    ensures forall e <- lead :: Readable(e)
    ensures Readable(closing)
    ensures Plaintext(BeforeDone(lead + [closing] + tail)) ==
            Plaintext(lead) + Plaintext([closing]) + if closing.Done? then "" else Plaintext(BeforeDone(tail))
    ensures !closing.Done? ==> ReadsToDone(tail)
  {
    hide Readable, Continuing, Plaintext, BeforeDone, ReadsToDone;
    NoDoneIn(lead);
    assert lead + [closing] + tail == lead + ([closing] + tail);
    BeforeDoneAppend(lead, [closing] + tail);
    ClosedHeard(closing, tail);
    if closing.Done? {
      DoneIsSilent();
      DoneReads();
      assert Plaintext(lead) + "" + "" == Plaintext(lead);
      assert BeforeDone(lead + [closing] + tail) == lead + [];
      AllRead(lead + [closing] + tail);
      assert lead + [] == lead;
    } else {
      var later := BeforeDone(tail);
      assert BeforeDone(lead + [closing] + tail) == lead + [closing] + later;
      PlaintextAppend(lead + [closing], later);
      PlaintextAppend(lead, [closing]);
      LaterReads(lead + [closing], tail);
      FrontAndLast(lead, closing);
    }
  }

  lemma FrontAndLast(lead: seq<Event>, closing: Event)
    requires forall e <- lead + [closing] :: Readable(e)
    ensures Readable(closing) && forall e <- lead :: Readable(e)
  {
    hide Readable;
    assert (lead + [closing])[|lead|] == closing;
    forall e <- lead ensures Readable(e) {
      assert e in lead + [closing];
    }
  }

  lemma AllRead(events: seq<Event>)
    requires ReadsToDone(events)
    ensures forall e <- BeforeDone(events) :: Readable(e)
  {
  }

  lemma ClosedHeard(closing: Event, tail: seq<Event>)
    ensures BeforeDone([closing] + tail) == if closing.Done? then [] else [closing] + BeforeDone(tail)
  {
    assert ([closing] + tail)[1..] == tail;
  }

  lemma LaterReads(front: seq<Event>, tail: seq<Event>)
    requires ReadsToDone(front + tail) && BeforeDone(front + tail) == front + BeforeDone(tail)
    ensures ReadsToDone(tail)
    ensures forall e <- front :: Readable(e)
  {
    hide Readable, BeforeDone;
    var heard, later := BeforeDone(front + tail), BeforeDone(tail);
    assert (front + tail)[|heard|] == tail[|later|];
    forall e <- later ensures Readable(e) {
      assert e in heard;
    }
    forall e <- front ensures Readable(e) {
      assert e in heard;
    }
  }

  lemma DoneReads()
    ensures Readable(Done)
  {
  }

  lemma {:induction false} QuietRun(at: Attempt, st: State, events: seq<Event>)
    requires RunEvents(at, st, events).Open? && forall e <- events :: Continuing(e)
    ensures PartsOf(RunEvents(at, st, events).outputs) == []
    decreases |events|
  {
    hide HandleEvent, Continuing, PartsOf, ContentOf, LastFinish, ReasoningOf;
    if events == [] {
      NothingSent();
    } else {
      SP.QuietEvent(at, st, events[0]);
      var (next, outputs) := HandleEvent(at, st, events[0]).value;
      QuietRun(at, next, events[1..]);
      OutputsAppend(outputs, RunEvents(at, next, events[1..]).outputs);
    }
  }
}
