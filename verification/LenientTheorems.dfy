/** Leniency adds recoveries and changes nothing else; what it returns is always whole calls. */
module LenientTheorems {
  import opened Wrappers
  import opened Text
  import opened Output
  import opened Combinators
  import opened JsonParser
  import opened ChunkInvariance
  import opened Grammar
  import opened Lenient

  // -------- Output already collected only sits in front --------

  ghost function Before(out: ToolParserOutput, run: Result<(State, ToolParserOutput), ParseError>)
    : Result<(State, ToolParserOutput), ParseError>
  {
    match run case Failure(e) => Failure(e) case Success(d) => Success((d.0, out.Append(d.1)))
  }

  lemma ApplyBefore(st: State, pre: ToolParserOutput, out: ToolParserOutput, event: Event, consumed: nat)
    requires consumed <= |st.buffer|
    ensures Apply(st, pre.Append(out), event, consumed) == Before(pre, Apply(st, out, event, consumed))
  {
    match event {
      case TextRun(_) =>
        assert pre.normalText + out.normalText + st.buffer[..consumed] ==
          pre.normalText + (out.normalText + st.buffer[..consumed]);
      case CallHeader(name) =>
        assert forall d: ToolCallDelta :: pre.calls + out.calls + [d] == pre.calls + (out.calls + [d]);
      case ArgumentsRun(_, _) =>
        assert forall d: ToolCallDelta :: pre.calls + out.calls + [d] == pre.calls + (out.calls + [d]);
      case _ =>
    }
  }

  lemma {:induction false} DrainBefore(config: Config, st: State, pre: ToolParserOutput, out: ToolParserOutput)
    ensures Drain(config, st, pre.Append(out)) == Before(pre, Drain(config, st, out))
    decreases |st.buffer|
  {
    hide NextEvent;
    var next := NextEvent(config, st.buffer, st.mode);
    if next.Ready? {
      ApplyBefore(st, pre, out, next.event, next.consumed);
      var applied := Apply(st, out, next.event, next.consumed);
      if applied.Success? {
        DrainBefore(config, applied.value.0.Skip(next.consumed), pre, applied.value.1);
      }
    }
  }

  lemma PushBefore(config: Config, st: State, chunk: string, out: ToolParserOutput)
    ensures Push(config, st, chunk, out) == Before(out, Push(config, st, chunk, NoOutput))
  {
    hide Drain;
    assert out.Append(NoOutput) == out;
    DrainBefore(config, st.Extend(chunk), out, NoOutput);
  }

  // -------- Leniency and strictness agree while the strict parser accepts --------

  /** Pieces the strict parser accepts are collected as it collects them. */
  lemma {:induction false} PiecesAccepted(config: Config, st: LenientState, pieces: seq<string>,
      merged: ToolParserOutput)
    requires PushAll(config, st.inner, pieces, merged).Success?
    ensures var strict := PushAll(config, st.inner, pieces, merged).value;
            PushPieces(config, st, pieces, merged).Success? &&
            var lenient := PushPieces(config, st, pieces, merged).value;
            lenient.0.inner == strict.0 && lenient.0.drained == st.drained && lenient.1 == strict.1
    decreases |pieces|
  {
    hide Push;
    if pieces != [] {
      PushBefore(config, st.inner, pieces[0], merged);
      var d := Push(config, st.inner, pieces[0], NoOutput).value;
      PiecesAccepted(config, LenientState(d.0, Track(st.args, d.1.calls), st.drained), pieces[1..], merged.Append(d.1));
    }
  }

  /** What the strict parser makes of a text pushed whole. */
  function StrictPush(config: Config, text: string): Result<(State, ToolParserOutput), ParseError> {
    Push(config, InitialState, text, NoOutput)
  }

  function StrictParse(config: Config, text: string): Result<ToolParserOutput, ParseError> {
    Outcome(StrictPush(config, text))
  }

  lemma StrictParseReadsWhole(config: Config, text: string)
    requires config.WellFormed()
    ensures StrictParse(config, text) == ReadText(config, text, 0, NoOutput)
  {
    hide Drain, ReadText;
    DrainReadsText(config, InitialState.Extend(text), NoOutput);
    assert InitialState.Extend(text).buffer == text;
  }

  /** When the strict parser accepts the text, the lenient one reaches its state with its output. */
  lemma LenientPushAccepted(config: Config, text: string)
    requires config.WellFormed() && StrictPush(config, text).Success?
    ensures var strict := StrictPush(config, text).value;
            LenientPush(config, InitialLenient, text).Success? &&
            var lenient := LenientPush(config, InitialLenient, text).value;
            lenient.0.inner == strict.0 && !lenient.0.drained && SameOutput(lenient.1, strict.1)
  {
    hide Push, PushAll, PushPieces, NextEvent;
    var pieces := TagPieces(text);
    PushAllIsPush(config, InitialState, pieces, NoOutput) by { InitialWaits(config); }
    PiecesAccepted(config, InitialLenient, pieces, NoOutput);
  }

  lemma InitialWaits(config: Config)
    requires config.WellFormed()
    ensures NextEvent(config, InitialState.buffer, InitialState.mode).Wait?
  {
    assert Literal("", 0, config.startMarker) == Incomplete;
  }

  lemma AppendRespectsOutput(a: ToolParserOutput, b: ToolParserOutput, more: ToolParserOutput)
    requires SameOutput(a, b)
    ensures SameOutput(a.Append(more), b.Append(more))
  {
    CoalesceAppend(a.calls, b.calls, more.calls);
  }

  /** A text the strict parser accepts parses leniently to the same result. */
  lemma LenientKeepsStrict(config: Config, text: string)
    requires config.WellFormed() && StrictParse(config, text).Success?
    ensures LenientParse(config, text) == StrictParse(config, text)
  {
    hide StrictPush, LenientPush, Coalesce;
    LenientPushAccepted(config, text);
    var strict, lenient := StrictPush(config, text).value, LenientPush(config, InitialLenient, text).value;
    var last := NoOutput.AddText(strict.0.buffer);
    AppendRespectsOutput(lenient.1, strict.1, last);
    assert "" + strict.0.buffer == strict.0.buffer;
    assert strict.1.Append(last) == strict.1.AddText(strict.0.buffer);
  }

  /**
   A text the strict parser accepts piece by piece but not at the end gives what
   it gives with the closing marker added, or else the strict parser's error.
   */
  lemma LenientRecoversClosingMarker(config: Config, text: string)
    requires config.WellFormed() && StrictPush(config, text).Success? && StrictParse(config, text).Failure?
    ensures LenientParse(config, text) ==
            if StrictParse(config, text + TOOL_CALL_END).Success? then StrictParse(config, text + TOOL_CALL_END)
            else StrictParse(config, text)
  {
    hide StrictPush, LenientPush, Coalesce, Push;
    LenientPushAccepted(config, text);
    var (st, out) := StrictPush(config, text).value;
    var (lst, lout) := LenientPush(config, InitialLenient, text).value;
    var closing := Push(config, st, TOOL_CALL_END, NoOutput);
    ClosingPush(config, text);
    if closing.Success? {
      var (end, recovered) := closing.value;
      if end.mode == TextMode {
        var last := NoOutput.AddText(end.buffer);
        assert "" + end.buffer == end.buffer;
        AppendRespectsOutput(lout, out, recovered.Append(last));
        assert out.Append(recovered.Append(last)) == out.Append(recovered).AddText(end.buffer) by {
          assert out.normalText + (recovered.normalText + end.buffer) ==
            out.normalText + recovered.normalText + end.buffer;
          assert recovered.calls + [] == recovered.calls;
        }
      }
    }
  }

  /** Pushing the marker after the text, and pushing both at once. */
  lemma ClosingPush(config: Config, text: string)
    requires config.WellFormed() && StrictPush(config, text).Success?
    ensures var (st, out) := StrictPush(config, text).value;
            SameRun(Before(out, Push(config, st, TOOL_CALL_END, NoOutput)), StrictPush(config, text + TOOL_CALL_END))
  {
    hide Drain;
    var (st, out) := StrictPush(config, text).value;
    DrainSplit(config, InitialState.Extend(text), NoOutput, TOOL_CALL_END);
    PushBefore(config, st, TOOL_CALL_END, out);
    assert InitialState.Extend(text).Extend(TOOL_CALL_END) == InitialState.Extend(text + TOOL_CALL_END);
  }
}
