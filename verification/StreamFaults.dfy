/** Which upstream events end an answer with which error (src/http.rs). */
module StreamFaults {
  import opened Wrappers
  import opened ChatEvents
  import TS = ToolStream
  import PS = PlainStream
  import AG = Agreement

  // -------- What is wrong with an event --------

  predicate Undecrypted(field: DeltaField) {
    field == Sealed(None)
  }

  /** A field of the choice has the wrong type. */
  predicate Misshapen(event: Event) {
    event.Choice? && (event.finish.BadFinish? || event.content.Malformed? || event.reasoning.Malformed?)
  }

  /** The error of an event for the tool transformer: its shape first, then its encryption. */
  function Fault(event: Event): Option<ChatError> {
    if event.UpstreamError? then Some(UpstreamFailed)
    else if event.BadEvent? || event == Usage(None) || Misshapen(event) || (event.Choice? && event.index.BadIndex?) then
      Some(MalformedEvent)
    else if event.Choice? && (Undecrypted(event.content) || Undecrypted(event.reasoning)) then Some(DecryptionFailed)
    else None
  }

  /** Nothing of the choice reaches the client, so its index is never read. */
  predicate Silent(event: Event) {
    event.Choice? && event.finish.NoFinish? && event.content.Absent? && event.reasoning.Absent?
  }

  /** The error of an event for the plain transformer, which reads the index last and only to build a chunk. */
  function PlainFault(event: Event): Option<ChatError> {
    if event.UpstreamError? then Some(UpstreamFailed)
    else if event.BadEvent? || event == Usage(None) || Misshapen(event) then Some(MalformedEvent)
    else if event.Choice? && (Undecrypted(event.content) || Undecrypted(event.reasoning)) then Some(DecryptionFailed)
    else if event.Choice? && event.index.BadIndex? && !Silent(event) then Some(MalformedEvent)
    else None
  }

  /** The error of an event for the buffer, which holds on to the first index it has read. */
  function BufferFault(requireEncrypted: bool, b: PS.Buffered, event: Event): Option<ChatError> {
    if event.Choice? && event.index.BadIndex? then Some(MalformedEvent)
    else if event.Choice? && b.choiceIndex.Some?
         && b.choiceIndex.value != (if event.index.Number? then event.index.value else 0) then Some(MalformedEvent)
    else if event.Done? && requireEncrypted && !b.sawEncrypted then Some(DecryptionFailed)
    else Fault(event)
  }

  /** An event is readable exactly if the tool transformer finds no fault with it. */
  lemma ReadableIsFaultless(event: Event)
    ensures Readable(event) <==> Fault(event).None?
  {
  }

  // -------- One event --------

  /** A faulty event is refused for its fault, whatever went before it. */
  lemma FaultsAreRefused(at: TS.Attempt, st: TS.State, event: Event)
    requires Fault(event).Some?
    ensures TS.HandleEvent(at, st, event) == Failure(Fault(event).value)
  {
    hide TS.PushContent, TS.FinishContent, TS.ReasoningPart, TS.ContentPart, TS.FinishPart;
  }

  /** Any other event is refused, before the finish only, for overlong text or an invalid call. */
  lemma OtherRefusals(at: TS.Attempt, st: TS.State, event: Event)
    requires Fault(event).None? && TS.HandleEvent(at, st, event).Failure?
    ensures !st.sentFinalFinish
    ensures var error := TS.HandleEvent(at, st, event).error; error == MalformedEvent || error.InvalidCall?
  {
    hide TS.PushContent, TS.FinishContent;
    if event.Done? {
      FinishFaults(at, st, 0, "stop");
    } else {
      var index, reasoning, content := ReadIndex(event.index).value, Decrypt(event.reasoning).value,
        Decrypt(event.content).value;
      var st1 := TS.ReasoningPart(at, st, index, reasoning).0;
      var pushed := TS.ContentPart(at, st1, index, content);
      if pushed.Failure? {
        PushFaults(at, st1, index, content.value);
      } else if event.finish.Reason? {
        FinishFaults(at, pushed.value.0, index, event.finish.text);
      }
      PushKeepsFinish(at, st1, index, content);
    }
  }

  lemma PushKeepsFinish(at: TS.Attempt, st: TS.State, index: nat, content: Option<string>)
    ensures var pushed := TS.ContentPart(at, st, index, content);
            if pushed.Success? then pushed.value.0.sentFinalFinish == st.sentFinalFinish else !st.sentFinalFinish
  {
  }

  lemma PushFaults(at: TS.Attempt, st: TS.State, index: nat, content: string)
    requires TS.PushContent(at, st, index, content).Failure?
    ensures var error := TS.PushContent(at, st, index, content).error; error == MalformedEvent || error.InvalidCall?
  {
  }

  lemma FinishFaults(at: TS.Attempt, st: TS.State, index: nat, reason: string)
    requires TS.FinishContent(at, st, index, reason).Failure?
    ensures var error := TS.FinishContent(at, st, index, reason).error; error == MalformedEvent || error.InvalidCall?
  {
  }

  /** The plain transformer refuses exactly the faulty events, each for its fault. */
  lemma PlainFaultsAreExact(includeUsage: bool, st: PS.State, event: Event)
    ensures match PlainFault(event)
            case Some(error) => PS.StreamEvent(includeUsage, st, event) == Failure(error)
            case None => PS.StreamEvent(includeUsage, st, event).Success?
  {
  }

  /** So does the buffer. */
  lemma BufferFaultsAreExact(requireEncrypted: bool, b: PS.Buffered, event: Event)
    ensures match BufferFault(requireEncrypted, b, event)
            case Some(error) => PS.BufferEvent(requireEncrypted, b, event) == Failure(error)
            case None => PS.BufferEvent(requireEncrypted, b, event).Success?
  {
  }

  // -------- Whole answers --------

  /** A tool stream that is open when a faulty event comes ends there, with what was sent before. */
  lemma ToolStreamsEndAtFaults(at: TS.Attempt, st: TS.State, lead: seq<Event>, event: Event, tail: seq<Event>)
    requires (forall e <- lead :: !e.Done?) && TS.RunEvents(at, st, lead).Open? && Fault(event).Some?
    ensures TS.RunEvents(at, st, lead + ([event] + tail)) ==
            TS.Failed(TS.RunEvents(at, st, lead).outputs, Fault(event).value)
  {
    hide TS.HandleEvent, Fault, TS.RunEvents;
    var open := TS.RunEvents(at, st, lead);
    var mid, outputs := open.state, open.outputs;
    AG.RunAppend(at, st, lead, [event] + tail);
    FaultsAreRefused(at, mid, event);
    AG.FailsAtOnce(at, mid, event, tail);
    assert outputs + [] == outputs;
  }

  /** The first fault before Done; a stream without Done ends with a fault of its own. */
  function FirstFault(events: seq<Event>): Option<ChatError> {
    if events == [] then Some(MalformedEvent)
    else if PlainFault(events[0]).Some? then PlainFault(events[0])
    else if events[0].Done? then None
    else FirstFault(events[1..])
  }

  /** A plain stream ends with the first fault, and without an error exactly if there is none. */
  lemma {:induction false} PlainStreamsEndAtFaults(includeUsage: bool, st: PS.State, events: seq<Event>)
    ensures PS.StreamEvents(includeUsage, st, events).error == FirstFault(events)
    decreases |events|
  {
    hide PS.StreamEvent, PlainFault;
    if events != [] {
      PlainFaultsAreExact(includeUsage, st, events[0]);
      if PlainFault(events[0]).None? && !events[0].Done? {
        PlainStreamsEndAtFaults(includeUsage, PS.StreamEvent(includeUsage, st, events[0]).value.0, events[1..]);
      }
    }
  }
}
