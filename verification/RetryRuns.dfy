/** What whole runs with retries guarantee (src/http.rs). */
module RetryRuns {
  import opened Wrappers
  import opened Text
  import opened Classify
  import opened ChatEvents
  import opened ToolStream
  import SP = StreamProtocol
  import PS = PlainStream
  import AG = Agreement
  import SC = SideChannels
  import opened Retry

  // -------- Attempts that failed on a tool call --------

  /** Nothing has been sent that could not be followed by another attempt. */
  ghost predicate Retractable(outputs: seq<StreamOutput>) {
    forall o <- outputs :: !o.DoneMark? && (o.Chunk? ==> o.finish.None? && o.delta.call.None?)
  }

  ghost predicate OnlyUsage(outputs: seq<StreamOutput>) {
    forall o <- outputs :: o.UsageChunk?
  }

  /** A suppressed attempt has sent no text, and buffers from a marker on. */
  ghost predicate Hushed(at: Attempt, st: State) {
    at.suppress ==> !st.sentFinalFinish ==> st.bufferingToolCall ==> TOOL_CALL_START <= st.toolBuffer
  }

  lemma QuietContentIsRetractable(at: Attempt, st: State, index: nat, content: Option<string>)
    requires ContentPart(at, st, index, content).Success?
    ensures var outputs := ContentPart(at, st, index, content).value.1;
            Retractable(outputs) && (at.suppress ==> OnlyUsage(outputs))
  {
    hide Find, StreamableLen;
  }

  lemma QuietEventIsRetractable(at: Attempt, st: State, event: Event)
    requires Continuing(event) && HandleEvent(at, st, event).Success?
    ensures var outputs := HandleEvent(at, st, event).value.1;
            Retractable(outputs) && (at.suppress ==> OnlyUsage(outputs))
  {
    hide ContentPart;
    if event.Choice? {
      var index, content := ReadIndex(event.index).value, Decrypt(event.content).value;
      QuietContentIsRetractable(at, ReasoningPart(at, st, index, Decrypt(event.reasoning).value).0, index, content);
    }
  }

  /** An event that fails on its tool call has come before the finish. */
  lemma InvalidCallIsUnfinished(at: Attempt, st: State, event: Event)
    requires HandleEvent(at, st, event).Failure? && HandleEvent(at, st, event).error.InvalidCall?
    ensures !st.sentFinalFinish
  {
    hide Find, StreamableLen, FinishContent, PushContent;
  }

  /**
   An attempt that ends in an invalid call has sent no call, no finish chunk and no end mark; a
   suppressed one, usage only.
   */
  lemma {:induction false} FailedCallIsRetractable(at: Attempt, st: State, events: seq<Event>)
    requires RunEvents(at, st, events).Failed? && RunEvents(at, st, events).error.InvalidCall?
    ensures var outputs := RunEvents(at, st, events).outputs;
            !st.sentFinalFinish && Retractable(outputs) && (at.suppress ==> OnlyUsage(outputs))
    decreases |events|
  {
    hide HandleEvent, Retractable, OnlyUsage;
    if HandleEvent(at, st, events[0]).Failure? {
      InvalidCallIsUnfinished(at, st, events[0]);
      NothingIsRetractable();
    } else {
      var (next, outputs) := HandleEvent(at, st, events[0]).value;
      FailedCallIsRetractable(at, next, events[1..]);
      if Continuing(events[0]) {
        QuietEventIsRetractable(at, st, events[0]);
        SP.QuietEvent(at, st, events[0]);
        BothRetractable(outputs, RunEvents(at, next, events[1..]).outputs);
      } else {
        SP.FinishedStays(at, st, events[0]);
        assert false;
      }
    }
  }

  lemma NothingIsRetractable()
    ensures Retractable([]) && OnlyUsage([])
  {
  }

  lemma BothRetractable(a: seq<StreamOutput>, b: seq<StreamOutput>)
    ensures Retractable(a) && Retractable(b) ==> Retractable(a + b)
    ensures OnlyUsage(a) && OnlyUsage(b) ==> OnlyUsage(a + b)
  {
  }

  // -------- Suppressed attempts --------

  /** Whatever text a suppressed attempt sends starts with a marker. */
  ghost predicate MarkedText(outputs: seq<StreamOutput>) {
    ReasoningOf(outputs) == "" && (ContentOf(outputs) == "" || TOOL_CALL_START <= ContentOf(outputs))
  }

  lemma SuppressedQuiet(at: Attempt, st: State, event: Event)
    requires at.suppress && Hushed(at, st) && Continuing(event) && HandleEvent(at, st, event).Success?
    ensures var (next, outputs) := HandleEvent(at, st, event).value;
            Hushed(at, next) && ContentOf(outputs) == ReasoningOf(outputs) == ""
  {
    hide Find, FindFrom, StreamableLen, ContentOf, ReasoningOf, PartsOf, LastFinish;
    QuietEventIsRetractable(at, st, event);
    UsageIsSilent(HandleEvent(at, st, event).value.1);
    if event.Choice? && event.content.Sealed? && !st.sentFinalFinish {
      var index := ReadIndex(event.index).value;
      SuppressedPush(at, st, index, event.content.plain.value);
    }
  }

  lemma SuppressedPush(at: Attempt, st: State, index: nat, content: string)
    requires at.suppress && Hushed(at, st) && PushContent(at, st, index, content).Success?
    ensures Hushed(at, PushContent(at, st, index, content).value.0)
  {
    hide FindFrom, StreamableLen;
  }

  lemma {:induction false} UsageIsSilent(outputs: seq<StreamOutput>)
    requires OnlyUsage(outputs)
    ensures ContentOf(outputs) == ReasoningOf(outputs) == "" && PartsOf(outputs) == []
  {
    if outputs != [] {
      assert outputs[0] in outputs;
      UsageIsSilent(outputs[1..]);
    }
  }

  lemma SuppressedFinish(at: Attempt, st: State, index: nat, reason: string)
    requires at.suppress && Hushed(at, st) && !st.sentFinalFinish && FinishContent(at, st, index, reason).Success?
    ensures MarkedText(FinishContent(at, st, index, reason).value.1)
  {
    hide ParseToolCalls, ContentOf, ReasoningOf, PartsOf, LastFinish;
    var (next, flushed) := Flush(at, st, index).value;
    var finish := FinishContent(at, st, index, reason).value.1[|flushed|];
    OneOutput(finish);
    OutputsAppend(flushed, [finish]);
    NothingSent();
    match ClassifyOutput(at.tools, st.toolBuffer) {
      case ToolCalls(calls) =>
        AG.CallChunksCarry(st.sentRole, index, calls, 0);
        SC.CallChunksAreThoughtless(st.sentRole, index, calls, 0);
      case NormalText => OneOutput(EmitText(st.(toolBuffer := "", bufferingToolCall := false), index,
        st.toolBuffer).1[0]);
      case InvalidToolCall(_, _) =>
    }
    assert ContentOf(flushed) + "" == ContentOf(flushed);
  }

  /** The text a suppressed attempt sends is its buffer, from the marker on, and nothing else. */
  lemma {:induction false} SuppressedRunIsMarked(at: Attempt, st: State, events: seq<Event>)
    requires at.suppress && Hushed(at, st) && !st.sentFinalFinish
    ensures MarkedText(RunEvents(at, st, events).outputs)
    decreases |events|
  {
    hide HandleEvent, FinishContent, ContentOf, ReasoningOf, PartsOf, LastFinish, Hushed;
    NothingSent();
    if events != [] && HandleEvent(at, st, events[0]).Success? {
      var event := events[0];
      var (next, outputs) := HandleEvent(at, st, event).value;
      if Continuing(event) {
        SuppressedQuiet(at, st, event);
        SP.QuietEvent(at, st, event);
        SuppressedRunIsMarked(at, next, events[1..]);
        SilentFirst(outputs, RunEvents(at, next, events[1..]).outputs);
      } else if event.Done? {
        SP.DoneFinishes(at, st);
        SuppressedFinish(at, st, 0, "stop");
        OneOutput(DoneMark);
        SilentAround([], FinishContent(at, st, 0, "stop").value.1, [DoneMark]);
      } else {
        var calm := event.(finish := NoFinish);
        SP.AcceptedFinish(at, st, event);
        SP.FinishComesLast(at, st, event);
        SuppressedQuiet(at, st, calm);
        SP.QuietEvent(at, st, calm);
        var (mid, quiet) := HandleEvent(at, st, calm).value;
        SuppressedFinish(at, mid, SP.IndexOf(event), event.finish.text);
        SP.FinishedStays(at, st, event);
        SP.FinishedRun(at, next, events[1..]);
        SilentAround(quiet, FinishContent(at, mid, SP.IndexOf(event), event.finish.text).value.1,
          RunEvents(at, next, events[1..]).outputs);
      }
    }
  }

  lemma SilentFirst(a: seq<StreamOutput>, b: seq<StreamOutput>)
    requires ContentOf(a) == ReasoningOf(a) == ""
    ensures ContentOf(a + b) == ContentOf(b) && ReasoningOf(a + b) == ReasoningOf(b)
  {
    hide ContentOf, ReasoningOf, PartsOf, LastFinish;
    OutputsAppend(a, b);
    assert "" + ContentOf(b) == ContentOf(b) && "" + ReasoningOf(b) == ReasoningOf(b);
  }

  lemma SilentAround(a: seq<StreamOutput>, b: seq<StreamOutput>, c: seq<StreamOutput>)
    requires ContentOf(a) == ReasoningOf(a) == ContentOf(c) == ReasoningOf(c) == ""
    ensures ContentOf(a + b + c) == ContentOf(b) && ReasoningOf(a + b + c) == ReasoningOf(b)
  {
    hide ContentOf, ReasoningOf, PartsOf, LastFinish;
    SilentFirst(a, b);
    OutputsAppend(a + b, c);
    assert ContentOf(b) + "" == ContentOf(b) && ReasoningOf(b) + "" == ReasoningOf(b);
  }

  // -------- Whole runs --------

  /** The attempt failed on its tool call, and the next request says so. */
  ghost predicate LeadsTo(run: Run, next: Option<Correction>) {
    run.Failed? && run.error.InvalidCall? && next == Some(Correction(run.error.failure, run.error.invalidOutput))
  }

  /** Attempt `k` is upstream's answer to its request, run from scratch, and leads to the next request. */
  ghost predicate FaithfulAt(ctx: ToolContext, includeUsage: bool, upstream: Upstreams, retries: nat,
      attempts: seq<Sent>, k: nat)
    requires k < |attempts|
  {
    var run := AttemptRun(ctx, includeUsage, upstream(retries + k, attempts[k].correction), attempts[k].correction);
    attempts[k].outputs == run.outputs && (k + 1 < |attempts| ==> LeadsTo(run, attempts[k + 1].correction))
  }

  /** The outcome of a report is what its last attempt came to. */
  ghost predicate EndsWith(ctx: ToolContext, includeUsage: bool, upstream: Upstreams, retries: nat, report: Report)
    requires report.attempts != [] && retries <= ctx.maxRetries
  {
    var n := |report.attempts|;
    var last := report.attempts[n - 1];
    var run := AttemptRun(ctx, includeUsage, upstream(retries + n - 1, last.correction), last.correction);
    && n <= ctx.maxRetries - retries + 1
    && (report.outcome.Ended? <==> run.Completed?)
    && (run.Failed? && run.error.InvalidCall? ==>
          n == ctx.maxRetries - retries + 1 && report.outcome == Exhausted(run.error.failure))
  }

  lemma FaithfulLater(ctx: ToolContext, includeUsage: bool, upstream: Upstreams, retries: nat, first: Sent,
      rest: seq<Sent>, k: nat)
    requires k < |rest| && FaithfulAt(ctx, includeUsage, upstream, retries + 1, rest, k)
    ensures FaithfulAt(ctx, includeUsage, upstream, retries, [first] + rest, k + 1)
  {
    hide AttemptRun;
    assert retries + (k + 1) == retries + 1 + k;
  }

  lemma {:induction false} ReportIsFaithful(ctx: ToolContext, includeUsage: bool, upstream: Upstreams, retries: nat,
      correction: Option<Correction>)
    requires retries <= ctx.maxRetries
    ensures var report := StreamRetries(ctx, includeUsage, upstream, retries, correction);
            && report.attempts != [] && report.attempts[0].correction == correction
            && (forall k :: 0 <= k < |report.attempts| ==>
                FaithfulAt(ctx, includeUsage, upstream, retries, report.attempts, k))
            && EndsWith(ctx, includeUsage, upstream, retries, report)
    decreases ctx.maxRetries - retries
  {
    hide StreamRetries, AttemptRun;
    RetriesStep(ctx, includeUsage, upstream, retries, correction);
    var report := StreamRetries(ctx, includeUsage, upstream, retries, correction);
    var run := AttemptRun(ctx, includeUsage, upstream(retries, correction), correction);
    if run.Failed? && run.error.InvalidCall? && retries < ctx.maxRetries {
      var next := Some(Correction(run.error.failure, run.error.invalidOutput));
      ReportIsFaithful(ctx, includeUsage, upstream, retries + 1, next);
      var rest := StreamRetries(ctx, includeUsage, upstream, retries + 1, next);
      forall k | 1 <= k < |report.attempts|
        ensures FaithfulAt(ctx, includeUsage, upstream, retries, report.attempts, k) {
        FaithfulLater(ctx, includeUsage, upstream, retries, report.attempts[0], rest.attempts, k - 1);
      }
    }
  }

  /**
   Over a whole run: at most `maxRetries + 1` requests; every request but the first carries
   the failure before it; an attempt that was retried has sent no call, no finish chunk and no
   end mark, and a retry sends no reasoning and no text from in front of a marker.
   */
  lemma RetriesAreInvisible(ctx: ToolContext, includeUsage: bool, upstream: Upstreams)
    ensures var attempts := StreamRetries(ctx, includeUsage, upstream, 0, None).attempts;
            var n := |attempts|;
            && 1 <= n <= ctx.maxRetries + 1
            && attempts[0].correction == None
            && (forall k :: 0 <= k < n ==> FaithfulAt(ctx, includeUsage, upstream, 0, attempts, k))
            && (forall k :: 1 <= k < n ==> attempts[k].correction.Some? && MarkedText(attempts[k].outputs))
            && (forall k :: 0 <= k < n - 1 ==> Retractable(attempts[k].outputs))
            && (forall k :: 1 <= k < n - 1 ==> OnlyUsage(attempts[k].outputs))
  {
    hide RunEvents, StreamRetries, Retractable, OnlyUsage, MarkedText;
    ReportIsFaithful(ctx, includeUsage, upstream, 0, None);
    var attempts := StreamRetries(ctx, includeUsage, upstream, 0, None).attempts;
    forall k | 1 <= k < |attempts| ensures attempts[k].correction.Some? && MarkedText(attempts[k].outputs) {
      assert FaithfulAt(ctx, includeUsage, upstream, 0, attempts, k - 1);
      assert FaithfulAt(ctx, includeUsage, upstream, 0, attempts, k);
      RetryIsMarked(ctx, includeUsage, upstream(0 + k, attempts[k].correction), attempts[k].correction);
    }
    forall k | 0 <= k < |attempts| - 1
      ensures Retractable(attempts[k].outputs) && (attempts[k].correction.Some? ==> OnlyUsage(attempts[k].outputs))
    {
      assert FaithfulAt(ctx, includeUsage, upstream, 0, attempts, k);
      var answer := upstream(0 + k, attempts[k].correction);
      FailedCallIsRetractable(StreamAttempt(ctx, includeUsage, attempts[k].correction), InitialState, answer.events);
    }
  }

  lemma RetryIsMarked(ctx: ToolContext, includeUsage: bool, answer: Upstream, correction: Option<Correction>)
    requires correction.Some?
    ensures MarkedText(AttemptRun(ctx, includeUsage, answer, correction).outputs)
  {
    hide RunEvents;
    if answer.Stream? {
      SuppressedRunIsMarked(StreamAttempt(ctx, includeUsage, correction), InitialState, answer.events);
    }
  }

  // -------- What the client sees of a completed run --------

  /** Everything sent over all attempts. */
  function ClientOutputs(attempts: seq<Sent>): seq<StreamOutput> {
    if attempts == [] then [] else attempts[0].outputs + ClientOutputs(attempts[1..])
  }

  lemma {:induction false} RetractableIsSilent(outputs: seq<StreamOutput>)
    requires Retractable(outputs)
    ensures PartsOf(outputs) == [] && LastFinish(outputs) == None
  {
    if outputs != [] {
      assert outputs[0] in outputs;
      assert Retractable(outputs[1..]);
      RetractableIsSilent(outputs[1..]);
    }
  }

  lemma {:induction false} OnlyLastAttemptCounts(attempts: seq<Sent>)
    requires attempts != [] && forall k :: 0 <= k < |attempts| - 1 ==> Retractable(attempts[k].outputs)
    ensures var all, last := ClientOutputs(attempts), attempts[|attempts| - 1].outputs;
            && PartsOf(all) == PartsOf(last) && LastFinish(all) == LastFinish(last)
            && |last| <= |all| && all[|all| - |last|..] == last && Retractable(all[..|all| - |last|])
  {
    hide Retractable, PartsOf, LastFinish, ContentOf, ReasoningOf;
    NothingIsRetractable();
    var first, rest := attempts[0].outputs, ClientOutputs(attempts[1..]);
    if |attempts| == 1 {
      assert ClientOutputs(attempts) == first + [] == first;
      assert first[..0] == [];
    } else {
      OnlyLastAttemptCounts(attempts[1..]);
      RetractableIsSilent(first);
      OutputsAppend(first, rest);
      var last := attempts[|attempts| - 1].outputs;
      var all := ClientOutputs(attempts);
      assert all == first + rest;
      assert all[|all| - |last|..] == rest[|rest| - |last|..];
      assert all[..|all| - |last|] == first + rest[..|rest| - |last|];
      BothRetractable(first, rest[..|rest| - |last|]);
    }
  }

  /**
   A run that ends in Done, however many retries it took, shows the client one finish chunk,
   usage at most between it and the end mark, and calls numbered from 0.
   */
  lemma CompletedRunsFinishOnce(ctx: ToolContext, includeUsage: bool, upstream: Upstreams, report: Report,
      all: seq<StreamOutput>) returns (f: nat)
    requires report == StreamRetries(ctx, includeUsage, upstream, 0, None) && report.outcome.Ended?
    requires all == ClientOutputs(report.attempts)
    ensures SP.FinishesAt(all, f)
    ensures forall k :: 0 <= k < |PartsOf(all)| ==> PartsOf(all)[k].toolIndex == k
    ensures PartsOf(all) != [] ==> all[f].finish == Some("tool_calls")
  {
    hide RunEvents, StreamRetries, PartsOf, LastFinish, ContentOf, SP.FinishesAt, SP.RoleOnFirstDelta, Retractable,
      OnlyUsage, MarkedText;
    ReportIsFaithful(ctx, includeUsage, upstream, 0, None);
    RetriesAreInvisible(ctx, includeUsage, upstream);
    OnlyLastAttemptCounts(report.attempts);
    var n := |report.attempts|;
    var last := report.attempts[n - 1];
    assert FaithfulAt(ctx, includeUsage, upstream, 0, report.attempts, n - 1);
    var answer := upstream(0 + (n - 1), last.correction);
    assert 0 + (n - 1) == 0 + n - 1;
    var g := SP.CompletedAttemptsFinishOnce(StreamAttempt(ctx, includeUsage, last.correction), answer.events,
      last.outputs);
    f := |all| - |last.outputs| + g;
    FinishesLater(all, last.outputs, g);
  }

  lemma FinishesLater(all: seq<StreamOutput>, last: seq<StreamOutput>, g: nat)
    requires SP.FinishesAt(last, g)
    requires |last| <= |all| && all[|all| - |last|..] == last && Retractable(all[..|all| - |last|])
    ensures SP.FinishesAt(all, |all| - |last| + g)
    ensures all[|all| - |last| + g] == last[g]
  {
    var m := |all| - |last|;
    forall i | 0 <= i < m ensures SP.IsDelta(all[i]) || all[i].UsageChunk? {
      assert all[i] == all[..m][i];
    }
    forall i | m <= i < |all| ensures all[i] == last[i - m] {
    }
  }

  /** The client of a run with retries gets upstream's usage, of every answer that did not fail, exactly if it asked. */
  lemma UsageIsForwarded(ctx: ToolContext, includeUsage: bool, upstream: Upstreams, k: nat, events: seq<Event>)
    requires var attempts := StreamRetries(ctx, includeUsage, upstream, 0, None).attempts;
             k < |attempts| && upstream(k, attempts[k].correction) == Stream(events)
             && !AttemptRun(ctx, includeUsage, Stream(events), attempts[k].correction).Failed?
    ensures var attempts := StreamRetries(ctx, includeUsage, upstream, 0, None).attempts;
            SC.UsageOf(attempts[k].outputs) == if includeUsage then SC.UsageHeard(events) else []
  {
    hide RunEvents, StreamRetries;
    ReportIsFaithful(ctx, includeUsage, upstream, 0, None);
    var attempts := StreamRetries(ctx, includeUsage, upstream, 0, None).attempts;
    var sent := attempts[k];
    assert FaithfulAt(ctx, includeUsage, upstream, 0, attempts, k) && 0 + k == k;
    SC.UsageIsForwarded(StreamAttempt(ctx, includeUsage, sent.correction), InitialState, events);
  }

  // -------- Only sanctioned calls are delivered --------

  ghost predicate AllSanctioned(ctx: ToolContext, parts: seq<ToolCallPart>) {
    forall part <- parts :: Sanctioned(ctx, part.call)
  }

  lemma {:induction false} NumberedSanctioned(ctx: ToolContext, calls: seq<ValidatedToolCall>, first: nat)
    requires forall i :: 0 <= i < |calls| ==> Sanctioned(ctx, calls[i])
    ensures AllSanctioned(ctx, AG.Numbered(calls, first))
    decreases |calls|
  {
    hide Sanctioned;
    if calls != [] {
      NumberedSanctioned(ctx, calls[1..], first + 1);
    }
  }

  lemma FinishIsSanctioned(at: Attempt, st: State, index: nat, reason: string)
    requires FinishContent(at, st, index, reason).Success?
    ensures AllSanctioned(at.tools, PartsOf(FinishContent(at, st, index, reason).value.1))
  {
    hide ClassifyOutput, Sanctioned, ContentOf, ReasoningOf, PartsOf, LastFinish;
    var flushed := Flush(at, st, index).value.1;
    var finish := FinishContent(at, st, index, reason).value.1[|flushed|];
    OneOutput(finish);
    OutputsAppend(flushed, [finish]);
    NothingSent();
    if st.bufferingToolCall && ClassifyOutput(at.tools, st.toolBuffer).ToolCalls? {
      var calls := ClassifyOutput(at.tools, st.toolBuffer).calls;
      ClassifiedCallsAreSanctioned(at.tools, st.toolBuffer);
      NumberedSanctioned(at.tools, calls, 0);
      AG.CallChunksCarry(st.sentRole, index, calls, 0);
      assert PartsOf(flushed) + [] == PartsOf(flushed);
    } else if flushed != [] {
      assert flushed == [flushed[0]];
      OneOutput(flushed[0]);
    }
  }

  lemma EventIsSanctioned(at: Attempt, st: State, event: Event)
    requires HandleEvent(at, st, event).Success?
    ensures AllSanctioned(at.tools, PartsOf(HandleEvent(at, st, event).value.1))
  {
    hide HandleEvent, FinishContent, Sanctioned, ContentOf, ReasoningOf, PartsOf, LastFinish;
    if Continuing(event) {
      SP.QuietEvent(at, st, event);
    } else if st.sentFinalFinish {
      SP.FinishedEvent(at, st, event);
    } else if event.Done? {
      SP.DoneFinishes(at, st);
      FinishIsSanctioned(at, st, 0, "stop");
      OneOutput(DoneMark);
      NothingSent();
      var last := FinishContent(at, st, 0, "stop").value.1;
      OutputsAppend([], last);
      OutputsAppend([] + last, [DoneMark]);
    } else {
      var calm := event.(finish := NoFinish);
      SP.AcceptedFinish(at, st, event);
      SP.FinishComesLast(at, st, event);
      SP.QuietEvent(at, st, calm);
      var (mid, quiet) := HandleEvent(at, st, calm).value;
      FinishIsSanctioned(at, mid, SP.IndexOf(event), event.finish.text);
      OutputsAppend(quiet, FinishContent(at, mid, SP.IndexOf(event), event.finish.text).value.1);
    }
  }

  lemma {:induction false} RunIsSanctioned(at: Attempt, st: State, events: seq<Event>)
    ensures AllSanctioned(at.tools, PartsOf(RunEvents(at, st, events).outputs))
    decreases |events|
  {
    hide HandleEvent, Sanctioned, ContentOf, ReasoningOf, PartsOf, LastFinish;
    NothingSent();
    if events != [] && HandleEvent(at, st, events[0]).Success? {
      EventIsSanctioned(at, st, events[0]);
      var (next, outputs) := HandleEvent(at, st, events[0]).value;
      if !events[0].Done? {
        RunIsSanctioned(at, next, events[1..]);
        OutputsAppend(outputs, RunEvents(at, next, events[1..]).outputs);
      }
    }
  }

  /**
   Whatever upstream says over however many attempts, each call the client gets is of a declared
   tool and passes its schema.
   */
  lemma StreamedCallsAreSanctioned(ctx: ToolContext, includeUsage: bool, upstream: Upstreams)
    ensures AllSanctioned(ctx, PartsOf(ClientOutputs(StreamRetries(ctx, includeUsage, upstream, 0, None).attempts)))
  {
    hide RunEvents, StreamRetries, PartsOf, LastFinish, ContentOf, Sanctioned;
    var attempts := StreamRetries(ctx, includeUsage, upstream, 0, None).attempts;
    RetriesAreInvisible(ctx, includeUsage, upstream);
    OnlyLastAttemptCounts(attempts);
    var n := |attempts|;
    assert FaithfulAt(ctx, includeUsage, upstream, 0, attempts, n - 1);
    var last := attempts[n - 1];
    var answer := upstream(0 + (n - 1), last.correction);
    assert 0 + (n - 1) == 0 + n - 1;
    if answer.Stream? {
      RunIsSanctioned(StreamAttempt(ctx, includeUsage, last.correction), InitialState, answer.events);
    } else {
      NothingSent();
    }
  }

  // -------- The buffered driver --------

  /** What request `k` came to. */
  function JudgementAt(ctx: ToolContext, requireEncrypted: bool, upstream: Upstreams, retries: nat,
      requests: seq<Option<Correction>>, k: nat): Judgement
    requires k < |requests|
  {
    Judge(ctx, requireEncrypted, upstream(retries + k, requests[k]), retries + k)
  }

  /** Every attempt but the last was invalid or late, and the next request says why. */
  ghost predicate AllRetried(ctx: ToolContext, requireEncrypted: bool, upstream: Upstreams, retries: nat,
      requests: seq<Option<Correction>>)
  {
    forall k :: 0 <= k < |requests| - 1 ==>
      var judgement := JudgementAt(ctx, requireEncrypted, upstream, retries, requests, k);
      judgement.Again? && requests[k + 1] == Some(judgement.correction)
  }

  /** The result is what the last attempt came to; only the last one allowed exhausts the retries. */
  ghost predicate Results(ctx: ToolContext, requireEncrypted: bool, upstream: Upstreams, retries: nat,
      report: BufferedReport)
    requires report.requests != [] && retries <= ctx.maxRetries
  {
    var n := |report.requests|;
    && n <= ctx.maxRetries - retries + 1
    && match JudgementAt(ctx, requireEncrypted, upstream, retries, report.requests, n - 1)
       case Answer(reply) => report.result == Success(reply)
       case Stop(outcome) => report.result == Failure(outcome)
       case Again(c) => report.result == Failure(Exhausted(c.failure)) && n == ctx.maxRetries - retries + 1
  }

  lemma JudgementLater(ctx: ToolContext, requireEncrypted: bool, upstream: Upstreams, retries: nat,
      first: Option<Correction>, rest: seq<Option<Correction>>, k: nat)
    requires k < |rest|
    ensures JudgementAt(ctx, requireEncrypted, upstream, retries, [first] + rest, k + 1) ==
            JudgementAt(ctx, requireEncrypted, upstream, retries + 1, rest, k)
  {
    hide Judge;
    assert retries + (k + 1) == retries + 1 + k;
  }

  lemma RetriedAlso(ctx: ToolContext, requireEncrypted: bool, upstream: Upstreams, retries: nat,
      first: Option<Correction>, rest: seq<Option<Correction>>)
    requires rest != [] && AllRetried(ctx, requireEncrypted, upstream, retries + 1, rest)
    requires var judgement := JudgementAt(ctx, requireEncrypted, upstream, retries, [first] + rest, 0);
             judgement.Again? && rest[0] == Some(judgement.correction)
    ensures AllRetried(ctx, requireEncrypted, upstream, retries, [first] + rest)
  {
    hide JudgementAt;
    forall k | 1 <= k < |rest|
      ensures JudgementAt(ctx, requireEncrypted, upstream, retries, [first] + rest, k) ==
              JudgementAt(ctx, requireEncrypted, upstream, retries + 1, rest, k - 1)
    {
      JudgementLater(ctx, requireEncrypted, upstream, retries, first, rest, k - 1);
    }
  }

  lemma OneRequest(ctx: ToolContext, requireEncrypted: bool, upstream: Upstreams, retries: nat,
      request: Option<Correction>)
    ensures AllRetried(ctx, requireEncrypted, upstream, retries, [request])
  {
  }

  lemma {:induction false} BufferedRetriesAre(ctx: ToolContext, requireEncrypted: bool, upstream: Upstreams,
      retries: nat, correction: Option<Correction>)
    requires retries <= ctx.maxRetries
    ensures var report := BufferedRetries(ctx, requireEncrypted, upstream, retries, correction);
            && report.requests != [] && report.requests[0] == correction
            && AllRetried(ctx, requireEncrypted, upstream, retries, report.requests)
            && Results(ctx, requireEncrypted, upstream, retries, report)
    decreases ctx.maxRetries - retries
  {
    hide Judge, AllRetried;
    var report := BufferedRetries(ctx, requireEncrypted, upstream, retries, correction);
    var judgement := Judge(ctx, requireEncrypted, upstream(retries, correction), retries);
    assert JudgementAt(ctx, requireEncrypted, upstream, retries, report.requests, 0) == judgement;
    if judgement.Again? && retries < ctx.maxRetries {
      BufferedRetriesAre(ctx, requireEncrypted, upstream, retries + 1, Some(judgement.correction));
      var rest := BufferedRetries(ctx, requireEncrypted, upstream, retries + 1, Some(judgement.correction)).requests;
      assert report.requests == [correction] + rest;
      RetriedAlso(ctx, requireEncrypted, upstream, retries, correction, rest);
      JudgementLater(ctx, requireEncrypted, upstream, retries, correction, rest, |rest| - 1);
    } else {
      OneRequest(ctx, requireEncrypted, upstream, retries, correction);
    }
  }

  /** A buffered reply is the first usable attempt's classification, with the number of retries it took. */
  lemma BufferedReplyIsFirstUsable(ctx: ToolContext, requireEncrypted: bool, upstream: Upstreams)
    returns (events: seq<Event>)
    requires BufferedRetries(ctx, requireEncrypted, upstream, 0, None).result.Success?
    ensures var report := BufferedRetries(ctx, requireEncrypted, upstream, 0, None);
            var n := |report.requests|;
            && 1 <= n <= ctx.maxRetries + 1 && report.requests[0] == None
            && AllRetried(ctx, requireEncrypted, upstream, 0, report.requests)
            && upstream(n - 1, report.requests[n - 1]) == Stream(events)
            && PS.BufferEvents(requireEncrypted, PS.EmptyBuffer, events).Success?
            && var completion := PS.IntoResponse(PS.BufferEvents(requireEncrypted, PS.EmptyBuffer, events).value);
            match ClassifyOutput(ctx, completion.content)
            case NormalText => report.result == Success(TextReply(completion, RetriesHeader(n - 1)))
            case ToolCalls(calls) =>
              && report.result.value ==
                CallsReply(completion.index, completion.reasoning, calls, completion.usage, RetriesHeader(n - 1))
              && calls != [] && forall i :: 0 <= i < |calls| ==> Sanctioned(ctx, calls[i])
            case InvalidToolCall(_, _) => false
  {
    hide ClassifyOutput, PS.BufferEvents, BufferedRetries, Sanctioned;
    BufferedRetriesAre(ctx, requireEncrypted, upstream, 0, None);
    var report := BufferedRetries(ctx, requireEncrypted, upstream, 0, None);
    var n := |report.requests|;
    var answer := upstream(0 + (n - 1), report.requests[n - 1]);
    assert 0 + (n - 1) == n - 1;
    events := answer.events;
    var text := PS.BufferEvents(requireEncrypted, PS.EmptyBuffer, events).value.content;
    if ClassifyOutput(ctx, text).ToolCalls? {
      ClassifiedCallsAreSanctioned(ctx, text);
    }
  }
}
