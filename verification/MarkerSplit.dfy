/** Where the stream cuts decrypted text: at the first tool-call marker (src/http.rs). */
module MarkerSplit {
  import opened Wrappers
  import opened Text
  import opened ChatEvents
  import opened ToolStream

  // -------- The hold-back --------

  /** No four continuation units in a row, as in all UTF-8 text. */
  ghost predicate ShortCharacters(s: string) {
    forall i :: 0 <= i && i + 4 <= |s| ==>
      !(Continuation(s[i]) && Continuation(s[i + 1]) && Continuation(s[i + 2]) && Continuation(s[i + 3]))
  }

  /** Beyond ten pending bytes, ten to thirteen are kept, from a character boundary on. */
  lemma HoldBackIsShort(pending: string)
    requires 10 < |pending| && ShortCharacters(pending)
    ensures var n := StreamableLen(pending);
            CharBoundary(pending, n) && 10 <= |pending| - n <= 13
  {
    var n, m := StreamableLen(pending), |pending| - PROTECTED_SUFFIX_LEN;
    assert n + 4 <= m ==>
      !(Continuation(pending[n + 1]) && Continuation(pending[n + 2]) && Continuation(pending[n + 3])
        && Continuation(pending[n + 4]));
    assert n == BoundaryBefore(pending, m);
    forall j | n < j <= m ensures Continuation(pending[j]) {
      assert !CharBoundary(pending, j);
    }
  }

  // -------- The invariant --------

  /** The stream has released `emitted` of `text`, and holds the rest where it belongs. */
  ghost predicate Splits(st: State, emitted: string, text: string) {
    && !st.sentFinalFinish && !st.emittedToolCalls
    && CharBoundary(text, |emitted|)
    && if st.bufferingToolCall then
         st.pendingText == "" && Find(text, TOOL_CALL_START) == Some(|emitted|) && text == emitted + st.toolBuffer
       else
         && st.toolBuffer == "" && Find(text, TOOL_CALL_START) == None && text == emitted + st.pendingText
         && (emitted == "" || PROTECTED_SUFFIX_LEN <= |st.pendingText|)
         && (ShortCharacters(text) ==> |st.pendingText| <= PROTECTED_SUFFIX_LEN + 3)
  }

  /** Released text is too far from the end of `text` for a marker to start in it. */
  lemma FindBeyondEmitted(emitted: string, pending: string, content: string)
    requires Find(emitted + pending, TOOL_CALL_START) == None
    requires emitted == "" || PROTECTED_SUFFIX_LEN <= |pending|
    ensures Find(emitted + pending + content, TOOL_CALL_START) ==
            match Find(pending + content, TOOL_CALL_START) case None => None case Some(i) => Some(|emitted| + i)
  {
    hide Find;
    var text := emitted + pending;
    assert text + content == emitted + (pending + content);
    forall j | 0 <= j < |emitted| ensures !Occurs(emitted + (pending + content), TOOL_CALL_START, j) {
      OccursInPrefix(text, content, TOOL_CALL_START, j);
    }
    FindAfter(emitted, pending + content, TOOL_CALL_START);
  }

  lemma ShortTail(front: string, s: string)
    requires ShortCharacters(front + s)
    ensures ShortCharacters(s)
  {
    forall i | 0 <= i && i + 4 <= |s|
      ensures !(Continuation(s[i]) && Continuation(s[i + 1]) && Continuation(s[i + 2]) && Continuation(s[i + 3]))
    {
      var t, k := front + s, |front| + i;
      assert t[k] == s[i] && t[k + 1] == s[i + 1] && t[k + 2] == s[i + 2] && t[k + 3] == s[i + 3];
    }
  }

  lemma MarkerIsAtCharacter(text: string, i: nat)
    requires Occurs(text, TOOL_CALL_START, i)
    ensures CharBoundary(text, i)
  {
    assert text[i..i + |TOOL_CALL_START|][0] == text[i];
  }

  /** Text that arrives once the marker has been seen is only buffered. */
  lemma BufferedPushSplits(at: Attempt, st: State, index: nat, content: string, emitted: string, text: string)
    requires Splits(st, emitted, text) && st.bufferingToolCall && PushContent(at, st, index, content).Success?
    ensures var (next, outputs) := PushContent(at, st, index, content).value;
            outputs == [] && Splits(next, emitted, text + content)
  {
    hide Find;
    FindExtends(text, content, TOOL_CALL_START);
    MarkerIsAtCharacter(text + content, |emitted|);
    assert text + content == emitted + (st.toolBuffer + content);
  }

  lemma HoldBackSplits(st: State, emitted: string, pending: string, n: nat)
    requires !st.sentFinalFinish && !st.emittedToolCalls && !st.bufferingToolCall && st.toolBuffer == ""
    requires n == StreamableLen(pending) && st.pendingText == pending[n..]
    requires Find(emitted + pending, TOOL_CALL_START) == None
    requires CharBoundary(emitted + pending, |emitted|)
    requires emitted == "" || PROTECTED_SUFFIX_LEN <= |pending|
    ensures Splits(st, emitted + pending[..n], emitted + pending)
  {
    hide Find;
    var text := emitted + pending;
    assert text == emitted + pending[..n] + pending[n..];
    if 0 < n {
      assert text[|emitted| + n] == pending[n];
    } else {
      assert emitted + pending[..n] == emitted;
    }
    if ShortCharacters(text) && PROTECTED_SUFFIX_LEN < |pending| {
      ShortTail(emitted, pending);
      HoldBackIsShort(pending);
    }
  }

  lemma BoundaryStays(emitted: string, pending: string, content: string)
    requires CharBoundary(emitted + pending, |emitted|) && (emitted == "" || pending != "")
    ensures CharBoundary(emitted + (pending + content), |emitted|)
  {
    if emitted != "" {
      assert (emitted + (pending + content))[|emitted|] == (emitted + pending)[|emitted|];
    }
  }

  lemma MarkerPushSplits(at: Attempt, st: State, index: nat, content: string, emitted: string, text: string, i: nat)
    requires !at.suppress && Splits(st, emitted, text) && !st.bufferingToolCall
             && PushContent(at, st, index, content).Success?
    requires Find(st.pendingText + content, TOOL_CALL_START) == Some(i)
    ensures var (next, outputs) := PushContent(at, st, index, content).value;
            Splits(next, emitted + ContentOf(outputs), text + content)
  {
    hide Find, StreamableLen, ContentOf, ShortCharacters;
    var pending := st.pendingText + content;
    assert text + content == emitted + pending;
    FindBeyondEmitted(emitted, st.pendingText, content);
    var (next, outputs) := PushContent(at, st, index, content).value;
    EmittedText(st, index, pending[..i]);
    assert ContentOf(outputs) == pending[..i] && next.toolBuffer == pending[i..];
    hide Splits, PushContent;
    MarkedSplits(next, emitted, pending, i);
  }

  lemma MarkedSplits(st: State, emitted: string, pending: string, i: nat)
    requires i <= |pending| && Find(emitted + pending, TOOL_CALL_START) == Some(|emitted| + i)
    requires !st.sentFinalFinish && !st.emittedToolCalls && st.bufferingToolCall
    requires st.pendingText == "" && st.toolBuffer == pending[i..]
    ensures Splits(st, emitted + pending[..i], emitted + pending)
  {
    hide Find;
    MarkerIsAtCharacter(emitted + pending, |emitted| + i);
    assert emitted + pending == emitted + pending[..i] + pending[i..];
  }

  lemma EmittedText(st: State, index: nat, text: string)
    ensures ContentOf(EmitTextIfAny(st, index, text).1) == ContentOf(EmitText(st, index, text).1) == text
  {
    OneOutput(EmitText(st, index, text).1[0]);
    assert ContentOf([]) == "";
  }

  lemma HeldPushSplits(at: Attempt, st: State, index: nat, content: string, emitted: string, text: string)
    requires !at.suppress && Splits(st, emitted, text) && !st.bufferingToolCall
             && PushContent(at, st, index, content).Success?
    requires Find(st.pendingText + content, TOOL_CALL_START) == None
    ensures var (next, outputs) := PushContent(at, st, index, content).value;
            Splits(next, emitted + ContentOf(outputs), text + content)
  {
    hide Find, StreamableLen, ContentOf, ShortCharacters;
    var pending := st.pendingText + content;
    assert text + content == emitted + pending;
    FindBeyondEmitted(emitted, st.pendingText, content);
    BoundaryStays(emitted, st.pendingText, content);
    var (next, outputs) := PushContent(at, st, index, content).value;
    var n := StreamableLen(pending);
    EmittedText(st, index, pending[..n]);
    assert ContentOf([]) == "" by { EmittedText(st, index, ""); }
    assert pending[0..] == pending && ContentOf(outputs) == pending[..n];
    hide Splits;
    HoldBackSplits(next, emitted, pending, n);
  }

  /** Every push keeps the split, whatever the chunk. */
  lemma PushSplits(at: Attempt, st: State, index: nat, content: string, emitted: string, text: string)
    requires !at.suppress && Splits(st, emitted, text) && PushContent(at, st, index, content).Success?
    ensures var (next, outputs) := PushContent(at, st, index, content).value;
            Splits(next, emitted + ContentOf(outputs), text + content)
  {
    hide Find, PushContent, Splits;
    if st.bufferingToolCall {
      BufferedPushSplits(at, st, index, content, emitted, text);
      assert emitted + ContentOf([]) == emitted;
    } else {
      match Find(st.pendingText + content, TOOL_CALL_START) {
        case Some(i) => MarkerPushSplits(at, st, index, content, emitted, text, i);
        case None => HeldPushSplits(at, st, index, content, emitted, text);
      }
    }
  }

  // -------- Runs --------

  lemma EventSplits(at: Attempt, st: State, event: Event, emitted: string, text: string)
    requires !at.suppress && Splits(st, emitted, text) && Continuing(event) && HandleEvent(at, st, event).Success?
    ensures var (next, outputs) := HandleEvent(at, st, event).value;
            Splits(next, emitted + ContentOf(outputs), text + Plaintext([event]))
  {
    hide Find, PushContent, Splits;
    assert Plaintext([event]) == if event.Choice? && event.content.Sealed? then TextOr(event.content.plain) else "";
    assert emitted + "" == emitted && text + "" == text;
    match event {
      case Usage(Some(usage)) =>
        if at.includeUsage {
          OneOutput(UsageChunk(usage));
        }
      case Choice(_, _, _, _) => ChoiceSplits(at, st, event, emitted, text);
    }
  }

  lemma ReasoningSplits(at: Attempt, st: State, index: nat, reasoning: Option<string>, emitted: string, text: string)
    requires Splits(st, emitted, text)
    ensures var (next, outputs) := ReasoningPart(at, st, index, reasoning);
            Splits(next, emitted, text) && !next.sentFinalFinish && ContentOf(outputs) == ""
  {
    hide Find;
    var outputs := ReasoningPart(at, st, index, reasoning).1;
    if outputs != [] {
      OneOutput(outputs[0]);
    }
  }

  lemma ChoiceSplits(at: Attempt, st: State, event: Event, emitted: string, text: string)
    requires !at.suppress && Splits(st, emitted, text) && event.Choice? && event.finish.NoFinish?
    requires HandleChoice(at, st, event).Success?
    ensures var (next, outputs) := HandleChoice(at, st, event).value;
            var content := if event.content.Sealed? then TextOr(event.content.plain) else "";
            Splits(next, emitted + ContentOf(outputs), text + content)
  {
    hide Find, PushContent, Splits, ContentOf;
    var index := ReadIndex(event.index).value;
    var reasoning, content := Decrypt(event.reasoning).value, Decrypt(event.content).value;
    var (st1, out1) := ReasoningPart(at, st, index, reasoning);
    var (st2, out2) := ContentPart(at, st1, index, content).value;
    ReasoningSplits(at, st, index, reasoning, emitted, text);
    assert HandleChoice(at, st, event) == Success((st2, out1 + out2 + []));
    assert out1 + out2 + [] == out1 + out2;
    OutputsAppend(out1, out2);
    assert "" + ContentOf(out2) == ContentOf(out2);
    assert ContentOf([]) == "" by { EmittedText(st, index, ""); }
    assert emitted + "" == emitted && text + "" == text;
    if content.Some? {
      PushSplits(at, st1, index, content.value, emitted, text);
    }
  }

  lemma {:induction false} RunSplits(at: Attempt, st: State, events: seq<Event>, emitted: string, text: string)
    requires !at.suppress && Splits(st, emitted, text) && RunEvents(at, st, events).Open?
    requires forall e <- events :: Continuing(e)
    ensures var run := RunEvents(at, st, events);
            Splits(run.state, emitted + ContentOf(run.outputs), text + Plaintext(events))
    decreases |events|
  {
    hide Find, HandleEvent, Splits, ContentOf, ReasoningOf, PartsOf, LastFinish, Continuing;
    if events == [] {
      NothingSent();
      assert emitted + "" == emitted && text + "" == text;
    } else {
      EventSplits(at, st, events[0], emitted, text);
      var (next, outputs) := HandleEvent(at, st, events[0]).value;
      var rest := RunEvents(at, next, events[1..]);
      RunSplits(at, next, events[1..], emitted + ContentOf(outputs), text + Plaintext([events[0]]));
      OutputsAppend(outputs, rest.outputs);
      PlaintextAppend([events[0]], events[1..]);
      assert events == [events[0]] + events[1..];
      assert emitted + ContentOf(outputs) + ContentOf(rest.outputs) ==
        emitted + (ContentOf(outputs) + ContentOf(rest.outputs));
      assert text + Plaintext([events[0]]) + Plaintext(events[1..]) ==
        text + (Plaintext([events[0]]) + Plaintext(events[1..]));
    }
  }

  lemma InitiallySplit()
    ensures Splits(InitialState, "", "")
  {
  }

  /**
   However the decrypted text was chunked: without a marker, all of it but ten to
   thirteen bytes has been streamed; with one, exactly the text in front of it has
   been, and the rest is in the tool buffer.
   */
  lemma StreamedTextStopsAtMarker(at: Attempt, events: seq<Event>, st: State, outputs: seq<StreamOutput>,
      streamed: string, text: string)
    requires !at.suppress && RunEvents(at, InitialState, events) == Open(st, outputs)
    requires forall e <- events :: Continuing(e)
    requires streamed == ContentOf(outputs) && text == Plaintext(events)
    ensures st.bufferingToolCall <==> Find(text, TOOL_CALL_START).Some?
    ensures st.bufferingToolCall ==> Find(text, TOOL_CALL_START) == Some(|streamed|)
    ensures text == streamed + if st.bufferingToolCall then st.toolBuffer else st.pendingText
    ensures CharBoundary(text, |streamed|)
    ensures !st.bufferingToolCall && streamed != "" ==> 10 <= |st.pendingText|
    ensures !st.bufferingToolCall && ShortCharacters(text) ==> |st.pendingText| <= 13
  {
    hide Find, RunEvents, ShortCharacters, ContentOf, Plaintext;
    InitiallySplit();
    RunSplits(at, InitialState, events, "", "");
    assert "" + streamed == streamed && "" + text == text;
  }
}
