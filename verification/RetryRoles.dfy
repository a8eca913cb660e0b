/** When the client of a run with retries is sent the assistant role more than once (src/http.rs). */
module RetryRoles {
  import opened Wrappers
  import opened Text
  import opened Classify
  import opened ChatEvents
  import opened ToolStream
  import SP = StreamProtocol
  import AG = Agreement
  import PS = PlainStream
  import opened Retry
  import opened RetryRuns

  /** Some attempt sends a delta. */
  ghost predicate SomeDelta(attempts: seq<Sent>) {
    exists k :: 0 <= k < |attempts| && PS.HasDelta(attempts[k].outputs)
  }

  /** No two attempts send a delta. */
  ghost predicate OneSendsDeltas(attempts: seq<Sent>) {
    forall j, k :: 0 <= j < k < |attempts| ==> !(PS.HasDelta(attempts[j].outputs) && PS.HasDelta(attempts[k].outputs))
  }

  /** Roles are right over two parts exactly if they are right in each, given what went before. */
  lemma RolesSplit(role: bool, a: seq<StreamOutput>, b: seq<StreamOutput>)
    ensures SP.RoleOnFirstDelta(role, a + b) <==>
            SP.RoleOnFirstDelta(role, a) && SP.RoleOnFirstDelta(role || PS.HasDelta(a), b)
  {
    var all := a + b;
    assert forall j :: 0 <= j < |a| ==> all[j] == a[j];
    assert forall j :: 0 <= j < |b| ==> b[j] == all[j + |a|];
    if SP.RoleOnFirstDelta(role, all) {
      forall i | 0 <= i < |b| && SP.IsDelta(b[i])
        ensures b[i].delta.role <==> !(role || PS.HasDelta(a)) && forall j :: 0 <= j < i ==> !SP.IsDelta(b[j])
      {
        FirstInBoth(a, b, i);
      }
    } else if SP.RoleOnFirstDelta(role, a) && SP.RoleOnFirstDelta(role || PS.HasDelta(a), b) {
      PS.RolesJoin(role, a, b);
    }
  }

  lemma FirstInBoth(a: seq<StreamOutput>, b: seq<StreamOutput>, i: nat)
    requires i < |b|
    ensures (forall j :: 0 <= j < |a| + i ==> !SP.IsDelta((a + b)[j])) <==>
            !PS.HasDelta(a) && forall j :: 0 <= j < i ==> !SP.IsDelta(b[j])
  {
    var all := a + b;
    assert forall j :: 0 <= j < |a| ==> all[j] == a[j];
    assert forall j :: 0 <= j < i ==> b[j] == all[j + |a|];
    assert forall j :: |a| <= j < |a| + i ==> all[j] == b[j - |a|];
  }

  /** After a role, an attempt that sends its own is right only without any delta. */
  lemma SecondRoleIsWrong(outputs: seq<StreamOutput>)
    requires SP.RoleOnFirstDelta(false, outputs)
    ensures SP.RoleOnFirstDelta(true, outputs) <==> !PS.HasDelta(outputs)
  {
    if i :| 0 <= i < |outputs| && SP.IsDelta(outputs[i]) {
      var first := FirstDelta(outputs, i);
      assert outputs[first].delta.role;
    }
  }

  lemma {:induction false} FirstDelta(outputs: seq<StreamOutput>, i: nat) returns (first: nat)
    requires i < |outputs| && SP.IsDelta(outputs[i])
    ensures first <= i && SP.IsDelta(outputs[first]) && forall j :: 0 <= j < first ==> !SP.IsDelta(outputs[j])
  {
    first := i;
    if j :| 0 <= j < i && SP.IsDelta(outputs[j]) {
      first := FirstDelta(outputs, j);
    }
  }

  /** Attempts that are each right about their role are right together exactly if at most one sends deltas. */
  lemma {:induction false} RolesOverAttempts(role: bool, attempts: seq<Sent>)
    requires forall k :: 0 <= k < |attempts| ==> SP.RoleOnFirstDelta(false, attempts[k].outputs)
    ensures SP.RoleOnFirstDelta(role, ClientOutputs(attempts)) <==>
            OneSendsDeltas(attempts) && (role ==> !SomeDelta(attempts))
    decreases |attempts|
  {
    hide SP.RoleOnFirstDelta, PS.HasDelta;
    if attempts == [] {
      PS.NoRoles(role);
    } else {
      var first, rest := attempts[0].outputs, attempts[1..];
      var sent := PS.HasDelta(first);
      RolesOverAttempts(role || sent, rest);
      RolesSplit(role, first, ClientOutputs(rest));
      SecondRoleIsWrong(first);
      OneOfAll(attempts);
    }
  }

  lemma OneOfAll(attempts: seq<Sent>)
    requires attempts != []
    ensures var sent, rest := PS.HasDelta(attempts[0].outputs), attempts[1..];
            && (OneSendsDeltas(attempts) <==> OneSendsDeltas(rest) && !(sent && SomeDelta(rest)))
            && (SomeDelta(attempts) <==> sent || SomeDelta(rest))
  {
    hide PS.HasDelta;
    var rest := attempts[1..];
    assert forall k :: 0 <= k < |rest| ==> rest[k] == attempts[k + 1];
    assert forall k :: 1 <= k < |attempts| ==> attempts[k] == rest[k - 1];
  }

  /** Over a whole run, the role is on the first delta and no other exactly if at most one attempt sends deltas. */
  lemma RoleIsExact(ctx: ToolContext, includeUsage: bool, upstream: Upstreams)
    ensures var attempts := StreamRetries(ctx, includeUsage, upstream, 0, None).attempts;
            SP.RoleOnFirstDelta(false, ClientOutputs(attempts)) <==> OneSendsDeltas(attempts)
  {
    hide RunEvents, StreamRetries, SP.RoleOnFirstDelta, SP.Conforms, SP.PhaseAfter;
    ReportIsFaithful(ctx, includeUsage, upstream, 0, None);
    var attempts := StreamRetries(ctx, includeUsage, upstream, 0, None).attempts;
    forall k | 0 <= k < |attempts| ensures SP.RoleOnFirstDelta(false, attempts[k].outputs) {
      assert FaithfulAt(ctx, includeUsage, upstream, 0, attempts, k);
      AttemptRole(ctx, includeUsage, upstream(0 + k, attempts[k].correction), attempts[k].correction);
    }
    RolesOverAttempts(false, attempts);
  }

  lemma AttemptRole(ctx: ToolContext, includeUsage: bool, answer: Upstream, correction: Option<Correction>)
    ensures SP.RoleOnFirstDelta(false, AttemptRun(ctx, includeUsage, answer, correction).outputs)
  {
    hide RunEvents;
    if answer.Stream? {
      var at := StreamAttempt(ctx, includeUsage, correction);
      SP.RunConforms(at, InitialState, answer.events, SP.StartPhase);
      SP.RolesFollow(SP.StartPhase, RunEvents(at, InitialState, answer.events).outputs);
    }
  }

  // -------- Two roles --------

  function Says(text: string): seq<Event> {
    [AG.TextEvent(text, NoFinish), Done]
  }

  /** A letter and an unusable call, and asked again, a usable one. */
  function ThenBetter(bad: string, good: string): Upstreams {
    (retries, correction) => Stream(Says(if retries == 0 then "a" + bad else good))
  }

  /** Text before a call that is asked for again: two attempts send deltas, each with the role. */
  lemma RetriesRepeatTheRole(ctx: ToolContext, includeUsage: bool, bad: string, good: string)
    requires TOOL_CALL_START <= bad && TOOL_CALL_START <= good && 0 < ctx.maxRetries
    requires |bad| <= ctx.maxBytes && ClassifyOutput(ctx, bad).InvalidToolCall?
    requires |good| <= ctx.maxBytes && ClassifyOutput(ctx, good).ToolCalls?
    ensures var report := StreamRetries(ctx, includeUsage, ThenBetter(bad, good), 0, None);
            report.outcome.Ended? && !SP.RoleOnFirstDelta(false, ClientOutputs(report.attempts))
  {
    hide RunEvents, StreamRetries, ClassifyOutput, Find, SP.RoleOnFirstDelta, ClientOutputs;
    var upstream := ThenBetter(bad, good);
    BadAttempt(ctx, includeUsage, bad);
    var failure, output := Unusable(ClassifyOutput(ctx, bad).error), ClassifyOutput(ctx, bad).invalidOutput;
    var correction := Some(Correction(failure, output));
    GoodAttempt(ctx, includeUsage, good, correction);
    RetriesStep(ctx, includeUsage, upstream, 0, None);
    RetriesStep(ctx, includeUsage, upstream, 1, correction);
    var attempts := StreamRetries(ctx, includeUsage, upstream, 0, None).attempts;
    assert PS.HasDelta(attempts[0].outputs) && PS.HasDelta(attempts[1].outputs);
    RoleIsExact(ctx, includeUsage, upstream);
  }

  lemma BadAttempt(ctx: ToolContext, includeUsage: bool, bad: string)
    requires TOOL_CALL_START <= bad && |bad| <= ctx.maxBytes && ClassifyOutput(ctx, bad).InvalidToolCall?
    ensures var verdict := ClassifyOutput(ctx, bad);
            var run := AttemptRun(ctx, includeUsage, Stream(Says("a" + bad)), None);
            && run.Failed? && run.error == InvalidCall(Unusable(verdict.error), verdict.invalidOutput)
            && PS.HasDelta(run.outputs)
  {
    hide ClassifyOutput, Find;
    var at, text := StreamAttempt(ctx, includeUsage, None), "a" + bad;
    assert Find(text, TOOL_CALL_START) == Some(1) by {
      assert text[1..1 + |TOOL_CALL_START|] == TOOL_CALL_START && text[0] == 'a';
      assert !Occurs(text, TOOL_CALL_START, 0);
      FindIsFirst(text, TOOL_CALL_START, 1);
    }
    assert "" + text == text && text[1..] == bad && text[..1] == "a";
    var st, sent := State(true, false, "", bad, true, false), Chunk(0, Delta(true, None, Some("a"), None), None);
    assert HandleEvent(at, InitialState, Says(text)[0]) == Success((st, [] + [sent] + []));
    assert [] + [sent] + [] == [sent];
    assert Says(text)[1..] == [Done];
    assert RunEvents(at, st, [Done]) == Failed([], HandleEvent(at, st, Done).error);
    assert SP.IsDelta(([sent] + [])[0]);
  }

  lemma GoodAttempt(ctx: ToolContext, includeUsage: bool, good: string, correction: Option<Correction>)
    requires TOOL_CALL_START <= good && |good| <= ctx.maxBytes && ClassifyOutput(ctx, good).ToolCalls?
    requires correction.Some?
    ensures var run := AttemptRun(ctx, includeUsage, Stream(Says(good)), correction);
            run.Completed? && PS.HasDelta(run.outputs)
  {
    hide ClassifyOutput, Find;
    var at := StreamAttempt(ctx, includeUsage, correction);
    assert Find(good, TOOL_CALL_START) == Some(0) by {
      FindIsFirst(good, TOOL_CALL_START, 0);
    }
    assert "" + good == good && good[0..] == good;
    var st := InitialState.(toolBuffer := good, bufferingToolCall := true);
    var nothing: seq<StreamOutput> := [];
    assert nothing + nothing + nothing == nothing;
    assert HandleEvent(at, InitialState, Says(good)[0]) == Success((st, nothing));
    GoodFinish(at, st);
    hide HandleEvent;
    var outputs := HandleEvent(at, st, Done).value.1;
    assert Says(good)[1..] == [Done];
    assert RunEvents(at, st, [Done]) == Completed(outputs);
    assert nothing + outputs == outputs;
  }

  lemma GoodFinish(at: Attempt, st: State)
    requires st.bufferingToolCall && !st.sentFinalFinish && !st.sentRole && |st.toolBuffer| <= at.tools.maxBytes
    requires ClassifyOutput(at.tools, st.toolBuffer).ToolCalls?
    ensures HandleEvent(at, st, Done).Success? && PS.HasDelta(HandleEvent(at, st, Done).value.1)
  {
    ClassifiedCallsAreSanctioned(at.tools, st.toolBuffer);
    hide ClassifyOutput, Sanctioned;
    var sent := CallChunks(false, 0, ClassifyOutput(at.tools, st.toolBuffer).calls, 0);
    var outputs := HandleEvent(at, st, Done).value.1;
    assert outputs[0] == sent[0] && SP.IsDelta(outputs[0]);
  }
}
