/** Classification looks at what follows the first marker only (src/tools.rs, src/http.rs). */
module LeadingText {
  import opened Wrappers
  import opened Text
  import opened Output
  import opened Lexing
  import opened Grammar
  import JP = JsonParser
  import CI = ChunkInvariance
  import opened Lenient
  import opened LenientTheorems
  import opened Classify

  /** `marked` starts with the marker, and `lead` puts no marker before it. */
  ghost predicate Leads(lead: string, marked: string) {
    Find(lead + marked, TOOL_CALL_START) == Some(|lead|) && TOOL_CALL_START <= marked
  }

  function CallsOf(r: Result<ToolParserOutput, ParseError>): Result<seq<ToolCallDelta>, ParseError> {
    match r case Failure(e) => Failure(e) case Success(out) => Success(out.calls)
  }

  lemma MarkedAtFront(lead: string, marked: string)
    requires Leads(lead, marked)
    ensures Find(marked, TOOL_CALL_START) == Some(0)
    ensures Find(lead, TOOL_CALL_START) == None
  {
    OccursInSuffix(lead, marked, TOOL_CALL_START, 0);
    FindIsFirst(marked, TOOL_CALL_START, 0);
    forall i ensures !Occurs(lead, TOOL_CALL_START, i) {
      if i + |TOOL_CALL_START| <= |lead| {
        OccursInPrefix(lead, marked, TOOL_CALL_START, i);
      }
    }
  }

  // -------- One push --------

  /** Draining marker-free text and then marked text releases the first and goes on as if it were not there. */
  lemma DrainPastLead(config: JP.Config, st: JP.State, lead: string, marked: string)
    requires config.WellFormed() && config.startMarker == TOOL_CALL_START && st.mode == JP.TextMode
    requires st.buffer == lead + marked && Leads(lead, marked)
    ensures JP.Drain(config, st, NoOutput) ==
            Before(NoOutput.AddText(lead), JP.Drain(config, st.(buffer := marked), NoOutput))
  {
    hide JP.Drain, Find;
    CI.TextModeDrains(config, st, NoOutput);
    assert (lead + marked)[..|lead|] == lead && (lead + marked)[|lead|..] == marked;
    assert NoOutput.AddText(lead).Append(NoOutput) == NoOutput.AddText(lead);
    DrainBefore(config, st.(buffer := marked), NoOutput.AddText(lead), NoOutput);
  }

  lemma StrictIgnoresLead(config: JP.Config, lead: string, marked: string)
    requires config.WellFormed() && config.startMarker == TOOL_CALL_START && Leads(lead, marked)
    ensures CallsOf(StrictParse(config, lead + marked)) == CallsOf(StrictParse(config, marked))
  {
    hide JP.Drain, Find, Coalesce;
    assert "" + (lead + marked) == lead + marked && "" + marked == marked;
    DrainPastLead(config, JP.InitialState.Extend(lead + marked), lead, marked);
    var run := JP.Drain(config, JP.InitialState.Extend(marked), NoOutput);
    if run.Success? {
      assert NoOutput.AddText(lead).Append(run.value.1).calls == run.value.1.calls;
    }
  }

  // -------- The lenient parser --------

  lemma TagPiecesStep(text: string, n: nat)
    requires text != "" && n == NextTag(text, 1)
    ensures TagPieces(text) == [text[..n]] + TagPieces(text[n..])
  {
  }

  lemma {:induction false} TagPiecesAppend(a: string, b: string)
    requires b != "" && b[0] == '<'
    ensures TagPieces(a + b) == TagPieces(a) + TagPieces(b)
    decreases |a|
  {
    hide TagPieces, NextTag, Concat;
    if a == "" {
      assert a + b == b;
      NoPieces();
    } else {
      var n := NextTag(a, 1);
      TagPiecesStep(a, n);
      assert (a + b)[|a|] == b[0];
      NextTagIs(a + b, 1, n);
      assert (a + b)[..n] == a[..n];
      assert (a + b)[n..] == a[n..] + b;
      TagPiecesAppend(a[n..], b);
      TagPiecesStep(a + b, n);
    }
  }

  lemma {:induction false} PiecesBefore(config: JP.Config, st: LenientState, pieces: seq<string>,
      pre: ToolParserOutput, merged: ToolParserOutput)
    ensures PushPieces(config, st, pieces, pre.Append(merged)) ==
            match PushPieces(config, st, pieces, merged)
            case Failure(e) => Failure(e)
            case Success(d) => Success((d.0, pre.Append(d.1)))
    decreases |pieces|
  {
    hide JP.Push;
    if pieces != [] {
      var pushed := JP.Push(config, st.inner, pieces[0], NoOutput);
      if pushed.Success? {
        var d := pushed.value;
        assert pre.Append(merged).Append(d.1) == pre.Append(merged.Append(d.1)) by {
          assert pre.normalText + merged.normalText + d.1.normalText ==
            pre.normalText + (merged.normalText + d.1.normalText);
          assert pre.calls + merged.calls + d.1.calls == pre.calls + (merged.calls + d.1.calls);
        }
        PiecesBefore(config, LenientState(d.0, Track(st.args, d.1.calls), st.drained), pieces[1..], pre,
          merged.Append(d.1));
      }
    }
  }

  lemma {:induction false} PiecesInTurn(config: JP.Config, st: LenientState, a: seq<string>, b: seq<string>,
      merged: ToolParserOutput)
    requires PushPieces(config, st, a, merged).Success? && !PushPieces(config, st, a, merged).value.0.drained
             && !st.drained
    ensures var d := PushPieces(config, st, a, merged).value;
            PushPieces(config, st, a + b, merged) == PushPieces(config, d.0, b, d.1)
    decreases |a|
  {
    hide JP.Push;
    if a == [] {
      assert a + b == b;
    } else {
      assert (a + b)[1..] == a[1..] + b;
      var d := JP.Push(config, st.inner, a[0], NoOutput).value;
      PiecesInTurn(config, LenientState(d.0, Track(st.args, d.1.calls), st.drained), a[1..], b, merged.Append(d.1));
    }
  }

  /** Marker-free pieces leave held-back text, no calls and a fresh scanner. */
  lemma LeadIsPushed(config: JP.Config, lead: string)
    requires config.WellFormed() && Find(lead, config.startMarker).None?
    ensures var kept := lead[SafeTextLen(lead, config.startMarker)..];
            PushPieces(config, InitialLenient, TagPieces(lead), NoOutput).Success? &&
            var d := PushPieces(config, InitialLenient, TagPieces(lead), NoOutput).value;
            d.0 == LenientState(JP.InitialState.(buffer := kept), FreshArgs, false) && d.1.calls == []
  {
    hide JP.Drain, JP.NextEvent, PushPieces, PushAll, Find;
    var n, pieces := SafeTextLen(lead, config.startMarker), TagPieces(lead);
    assert "" + lead == lead;
    CI.TextModeDrains(config, JP.InitialState.Extend(lead), NoOutput);
    InitialWaits(config);
    PushAllIsPush(config, JP.InitialState, pieces, NoOutput);
    PiecesAccepted(config, InitialLenient, pieces, NoOutput);
    var d := PushPieces(config, InitialLenient, pieces, NoOutput).value;
    NothingMerged(d.1.calls);
    PiecesTrack(config, InitialLenient, pieces, NoOutput);
  }

  lemma NothingMerged(calls: seq<ToolCallDelta>)
    requires Coalesce(calls) == Coalesce([])
    ensures calls == []
  {
    if calls != [] {
      CoalesceIndices(calls, calls[0].toolIndex);
    }
  }

  lemma {:induction false} PiecesTrack(config: JP.Config, st: LenientState, pieces: seq<string>,
      merged: ToolParserOutput)
    requires !st.drained && st.args == Track(FreshArgs, merged.calls)
    ensures PushPieces(config, st, pieces, merged).Success? ==>
              var d := PushPieces(config, st, pieces, merged).value;
              !d.0.drained ==> d.0.args == Track(FreshArgs, d.1.calls)
    decreases |pieces|
  {
    hide JP.Push, Track;
    if pieces != [] {
      var pushed := JP.Push(config, st.inner, pieces[0], NoOutput);
      if pushed.Success? {
        var d := pushed.value;
        TrackAppend(FreshArgs, merged.calls, d.1.calls);
        PiecesTrack(config, LenientState(d.0, Track(st.args, d.1.calls), st.drained), pieces[1..], merged.Append(d.1));
      }
    }
  }

  /** Held-back text in front of a marker changes nothing but the text released. */
  lemma HeldTextIsReleased(config: JP.Config, kept: string, piece: string)
    requires config.WellFormed() && config.startMarker == TOOL_CALL_START && Leads(kept, piece)
    ensures JP.Push(config, JP.InitialState.(buffer := kept), piece, NoOutput) ==
            Before(NoOutput.AddText(kept), JP.Push(config, JP.InitialState, piece, NoOutput))
  {
    hide JP.Drain, Find;
    DrainPastLead(config, JP.InitialState.(buffer := kept).Extend(piece), kept, piece);
    assert "" + piece == piece;
  }

  /** The first piece of marked text carries the whole marker. */
  lemma FirstPieceIsMarked(marked: string)
    requires TOOL_CALL_START <= marked
    ensures TagPieces(marked) != [] && TOOL_CALL_START <= TagPieces(marked)[0] <= marked
  {
    hide NextTag, Concat;
    MarkerHasOneTag();
    var n := NextTag(marked, 1);
    forall i | 1 <= i < |TOOL_CALL_START| ensures marked[i] != '<' {
      assert marked[..|TOOL_CALL_START|][i] == TOOL_CALL_START[i];
    }
    TagPiecesStep(marked, n);
  }

  lemma MarkerHasOneTag()
    ensures forall i :: 1 <= i < |TOOL_CALL_START| ==> TOOL_CALL_START[i] != '<'
  {
  }

  /** Cutting the lead and the marked text short leaves the marker first. */
  lemma ShorterLeads(lead: string, marked: string, kept: string, piece: string)
    requires Leads(lead, marked) && |kept| <= |lead| && kept == lead[|lead| - |kept|..]
    requires TOOL_CALL_START <= piece <= marked
    ensures Leads(kept, piece)
  {
    hide FindFrom;
    var front := lead[..|lead| - |kept|];
    var s := kept + piece;
    assert lead == front + kept;
    assert marked == piece + marked[|piece|..];
    assert lead + marked == front + s + marked[|piece|..];
    forall i | 0 <= i < |kept| ensures !Occurs(s, TOOL_CALL_START, i) {
      if Occurs(s, TOOL_CALL_START, i) {
        OccursInSuffix(front, s, TOOL_CALL_START, i);
        OccursInPrefix(front + s, marked[|piece|..], TOOL_CALL_START, |front| + i);
      }
    }
    assert Occurs(s, TOOL_CALL_START, |kept|);
    FindIsFirst(s, TOOL_CALL_START, |kept|);
  }

  lemma MarkedPieces(config: JP.Config, kept: string, pieces: seq<string>, merged: ToolParserOutput)
    requires config.WellFormed() && config.startMarker == TOOL_CALL_START
    requires pieces != [] && Leads(kept, pieces[0])
    ensures var pre := NoOutput.AddText(kept);
            PushPieces(config, InitialLenient.(inner := JP.InitialState.(buffer := kept)), pieces, merged) ==
            match PushPieces(config, InitialLenient, pieces, merged.AddText(kept))
            case Failure(e) => Failure(e)
            case Success(d) => Success(d)
  {
    hide JP.Push, Leads;
    HeldTextIsReleased(config, kept, pieces[0]);
    var pushed := JP.Push(config, JP.InitialState, pieces[0], NoOutput);
    if pushed.Success? {
      var out := pushed.value.1;
      assert merged.Append(NoOutput.AddText(kept).Append(out)) == merged.AddText(kept).Append(out) by {
        assert merged.normalText + ("" + kept + out.normalText) == merged.normalText + kept + out.normalText;
        assert [] + out.calls == out.calls;
      }
      assert NoOutput.AddText(kept).Append(out).calls == out.calls;
    }
  }

  lemma LenientPushIgnoresLead(config: JP.Config, lead: string, marked: string)
    requires config.WellFormed() && config.startMarker == TOOL_CALL_START && Leads(lead, marked)
    ensures match (LenientPush(config, InitialLenient, lead + marked), LenientPush(config, InitialLenient, marked))
            case (Success(a), Success(b)) => a.0 == b.0 && a.1.calls == b.1.calls
            case (Failure(e), Failure(f)) => e == f
            case _ => false
  {
    hide JP.Push, PushPieces, TagPieces, Find, Leads;
    MarkedAtFront(lead, marked);
    TagPiecesAppend(lead, marked) by { MarkedIsTag(lead, marked); }
    LeadIsPushed(config, lead);
    var front := PushPieces(config, InitialLenient, TagPieces(lead), NoOutput).value;
    PiecesInTurn(config, InitialLenient, TagPieces(lead), TagPieces(marked), NoOutput);
    var kept := front.0.inner.buffer;
    MarkedIsTag(lead, marked);
    FirstPieceIsMarked(marked);
    ShorterLeads(lead, marked, kept, TagPieces(marked)[0]);
    MarkedPieces(config, kept, TagPieces(marked), front.1);
    var pre := front.1.AddText(kept);
    assert pre.Append(NoOutput) == pre;
    PiecesBefore(config, InitialLenient, TagPieces(marked), pre, NoOutput);
    var rest := PushPieces(config, InitialLenient, TagPieces(marked), NoOutput);
    if rest.Success? {
      assert pre.Append(rest.value.1).calls == rest.value.1.calls;
    }
  }

  lemma MarkedIsTag(lead: string, marked: string)
    requires Leads(lead, marked)
    ensures marked != "" && marked[0] == '<' && TOOL_CALL_START <= marked
  {
    assert marked[0] == marked[..|TOOL_CALL_START|][0];
  }

  lemma LenientIgnoresLead(config: JP.Config, lead: string, marked: string)
    requires config.WellFormed() && config.startMarker == TOOL_CALL_START && Leads(lead, marked)
    ensures CallsOf(LenientParse(config, lead + marked)) == CallsOf(LenientParse(config, marked))
  {
    hide LenientPush, LenientFinish, Coalesce, Leads;
    LenientPushIgnoresLead(config, lead, marked);
  }

  // -------- The GLM parser --------

  ghost function GlmBefore(out: ToolParserOutput, run: Result<(Glm.State, ToolParserOutput), ParseError>)
    : Result<(Glm.State, ToolParserOutput), ParseError>
  {
    match run case Failure(e) => Failure(e) case Success(d) => Success((d.0, out.Append(d.1)))
  }

  lemma GlmApplyBefore(convert: Glm.Converter, st: Glm.State, pre: ToolParserOutput, out: ToolParserOutput,
      event: Glm.Event, consumed: nat)
    requires consumed <= |st.buffer|
    ensures var (next, more) := Glm.Apply(convert, st, out, event, consumed);
            Glm.Apply(convert, st, pre.Append(out), event, consumed) == (next, pre.Append(more))
  {
    match event {
      case TextRun(_) =>
        assert pre.normalText + out.normalText + st.buffer[..consumed] ==
          pre.normalText + (out.normalText + st.buffer[..consumed]);
      case Call(name, rawParams) =>
        var d := ToolCallDelta(st.emittedToolCount, Some(name), convert(name, rawParams));
        assert pre.calls + out.calls + [d] == pre.calls + (out.calls + [d]);
      case _ =>
    }
  }

  lemma {:induction false} GlmDrainBefore(convert: Glm.Converter, st: Glm.State, pre: ToolParserOutput,
      out: ToolParserOutput)
    ensures Glm.Drain(convert, st, pre.Append(out)) == GlmBefore(pre, Glm.Drain(convert, st, out))
    decreases |st.buffer|
  {
    hide Glm.NextEvent;
    var next := Glm.NextEvent(st.buffer, st.mode);
    if next.Ready? {
      GlmApplyBefore(convert, st, pre, out, next.event, next.consumed);
      var (st1, out1) := Glm.Apply(convert, st, out, next.event, next.consumed);
      GlmDrainBefore(convert, st1.(buffer := st1.buffer[next.consumed..]), pre, out1);
    }
  }

  lemma GlmReleasesLead(convert: Glm.Converter, lead: string, marked: string)
    requires Leads(lead, marked) && lead != ""
    ensures Glm.Drain(convert, Glm.InitialState.(buffer := lead + marked), NoOutput) ==
            Glm.Drain(convert, Glm.InitialState.(buffer := marked), NoOutput.AddText(lead))
  {
    hide Find, FindFrom;
    var s := lead + marked;
    GlmLeadEvent(lead, marked);
    hide Glm.NextEvent;
    assert s[..|lead|] == lead && s[|lead|..] == marked;
  }

  lemma GlmLeadEvent(lead: string, marked: string)
    requires Leads(lead, marked) && lead != ""
    ensures Glm.NextEvent(lead + marked, Glm.TextMode) == Glm.Ready(Glm.TextRun(|lead|), |lead|)
  {
    var s := lead + marked;
    assert !Occurs(s, TOOL_CALL_START, 0);
    assert |TOOL_CALL_START| < |s|;
    assert Combinators.Literal(s, 0, TOOL_CALL_START) == Combinators.Backtrack;
  }

  lemma GlmIgnoresLead(convert: Glm.Converter, lead: string, marked: string)
    requires Leads(lead, marked)
    ensures CallsOf(Glm.Parse(convert, lead + marked)) == CallsOf(Glm.Parse(convert, marked))
  {
    hide Glm.Drain, Leads, Coalesce;
    if lead == "" {
      assert lead + marked == marked;
    } else {
      GlmReleasesLead(convert, lead, marked);
      var pre := NoOutput.AddText(lead);
      assert pre.Append(NoOutput) == pre;
      GlmDrainBefore(convert, Glm.InitialState.(buffer := marked), pre, NoOutput);
      var run := Glm.Drain(convert, Glm.InitialState.(buffer := marked), NoOutput);
      if run.Success? {
        assert pre.Append(run.value.1).calls == run.value.1.calls;
      }
    }
  }

  // -------- Classification --------

  /** In every format, text before the first marker changes neither the calls found nor the error. */
  lemma FormatIgnoresLead(ctx: ToolContext, format: ToolPromptFormat, lead: string, marked: string)
    requires Leads(lead, marked)
    ensures CallsOf(ParseWith(ctx, format, lead + marked)) == CallsOf(ParseWith(ctx, format, marked))
  {
    hide Leads, LenientParse, StrictParse, Glm.Parse;
    match format {
      case HermesJson => LenientIgnoresLead(JP.HermesConfig(ctx.decodeString), lead, marked);
      case GlmXml => GlmIgnoresLead(ctx.convertParams, lead, marked);
      case QwenXml => StrictIgnoresLead(JP.QwenConfig(ctx.decodeString), lead, marked);
    }
  }

  /** The same verdict; an invalid output echoes different text. */
  ghost predicate SameVerdict(a: Classification, b: Classification) {
    match (a, b)
    case (InvalidToolCall(e, _), InvalidToolCall(f, _)) => e == f
    case _ => a == b
  }

  /** Within the size limit, a text and its part from the first marker on are classified alike. */
  lemma ClassificationIgnoresLead(ctx: ToolContext, lead: string, marked: string)
    requires Leads(lead, marked) && |lead + marked| <= ctx.maxBytes
    ensures SameVerdict(ClassifyOutput(ctx, lead + marked), ClassifyOutput(ctx, marked))
  {
    hide ParseWith, ValidateAll, Leads, Find;
    MarkedAtFront(lead, marked);
    FormatIgnoresLead(ctx, ctx.format, lead, marked);
    FormatIgnoresLead(ctx, HermesJson, lead, marked);
    LeadHasMarker(lead, marked);
    assert |marked| <= |lead + marked|;
  }

  lemma LeadHasMarker(lead: string, marked: string)
    requires Leads(lead, marked)
    ensures Find(lead + marked, TOOL_CALL_START).Some?
  {
  }

  // -------- No marker at all --------

  lemma UnmarkedParsesToText(config: JP.Config, text: string)
    requires config.WellFormed() && Find(text, config.startMarker).None?
    ensures StrictParse(config, text) == Success(ToolParserOutput(text, []))
  {
    hide JP.Drain, Find;
    assert "" + text == text;
    CI.TextModeDrains(config, JP.InitialState.Extend(text), NoOutput);
    var n := SafeTextLen(text, config.startMarker);
    assert "" + text[..n] + text[n..] == text;
  }

  /** Unmarked text is released down to what could start a marker, or waits as a whole. */
  lemma UnmarkedGlmEvent(text: string)
    requires Find(text, TOOL_CALL_START).None?
    ensures var n := SafeTextLen(text, TOOL_CALL_START);
            Glm.NextEvent(text, Glm.TextMode) == Glm.Wait ||
            (n > 0 && Glm.NextEvent(text, Glm.TextMode) == Glm.Ready(Glm.TextRun(n), n))
  {
    hide Find, FindFrom, SafeTextLen;
    assert !Occurs(text, TOOL_CALL_START, 0);
  }

  lemma UnmarkedGlm(convert: Glm.Converter, text: string)
    requires Find(text, TOOL_CALL_START).None?
    ensures CallsOf(Glm.Parse(convert, text)) == Success([])
  {
    hide Find, FindFrom, Glm.NextEvent, SafeTextLen;
    UnmarkedGlmEvent(text);
    KeptWaits(text);
    var n := SafeTextLen(text, TOOL_CALL_START);
    var kept := Glm.InitialState.(buffer := text[n..]);
    assert Glm.Drain(convert, kept, NoOutput.AddText(text[..n])) == Success((kept, NoOutput.AddText(text[..n])));
  }

  lemma KeptWaits(text: string)
    requires Find(text, TOOL_CALL_START).None?
    ensures Glm.NextEvent(text[SafeTextLen(text, TOOL_CALL_START)..], Glm.TextMode) == Glm.Wait
  {
    hide FindFrom;
    CI.KeptIsHeld(text, TOOL_CALL_START);
    var kept := text[SafeTextLen(text, TOOL_CALL_START)..];
    assert kept[0..] == kept;
    assert Combinators.Literal(kept, 0, TOOL_CALL_START) == Combinators.Incomplete;
  }

  /** Output without a marker is normal text, or invalid where a call is required. */
  lemma UnmarkedIsNormalText(ctx: ToolContext, text: string)
    requires Find(text, TOOL_CALL_START).None? && |text| <= ctx.maxBytes
    ensures ClassifyOutput(ctx, text) == if ctx.requireToolCall then InvalidToolCall(NoToolCall, text) else NormalText
  {
    hide Find, Glm.Parse, LenientParse, StrictParse;
    match ctx.format {
      case HermesJson =>
        UnmarkedParsesToText(JP.HermesConfig(ctx.decodeString), text);
        LenientKeepsStrict(JP.HermesConfig(ctx.decodeString), text);
      case GlmXml => UnmarkedGlm(ctx.convertParams, text);
      case QwenXml => UnmarkedParsesToText(JP.QwenConfig(ctx.decodeString), text);
    }
  }
}
