/** Exactly which GLM texts are accepted, and what is read in them (src/vllm_tool_parser/glm_xml). */
module GlmLanguage {
  import opened Wrappers
  import opened Text
  import opened Output
  import Lexing
  import opened Glm
  import opened GlmRoundTrip
  import GC = GlmChunks

  // -------- Bodies --------

  lemma FirstIsLacking(s: string, tag: string, from: nat, to: nat)
    requires tag != "" && from <= to <= |s| && forall i :: from <= i < to ==> !Occurs(s, tag, i)
    ensures Lacks(s[from..to], tag)
  {
    forall i | 0 <= i < to - from ensures !Occurs(s[from..to], tag, i) {
      var part := s[from..to];
      if Occurs(part, tag, i) {
        assert s == s[..from] + s[from..] && s[from..] == part + s[to..];
        OccursInPrefix(part, s[to..], tag, i);
        OccursInSuffix(s[..from], s[from..], tag, i);
      }
    }
  }

  lemma SkippedIsGap(s: string, at: nat)
    requires at <= |s|
    ensures Gap(s[at..SkipSpace(s, at)])
  {
  }

  /** Where the parts of a parameter that has been read begin and end. */
  lemma ParamParts(s: string, at: nat) returns (keyEnd: nat, valueTag: nat, valueEnd: nat)
    requires at <= |s| && ParseParameter(s, at).Some?
    ensures Occurs(s, ARG_KEY_START, at) && Occurs(s, ARG_KEY_END, keyEnd)
    ensures Occurs(s, ARG_VALUE_START, valueTag) && Occurs(s, ARG_VALUE_END, valueEnd)
    ensures at + |ARG_KEY_START| < keyEnd && keyEnd + |ARG_KEY_END| <= valueTag == SkipSpace(s, keyEnd + |ARG_KEY_END|)
            && valueTag + |ARG_VALUE_START| <= valueEnd
    ensures forall i :: at + |ARG_KEY_START| <= i < keyEnd ==> !Occurs(s, ARG_KEY_END, i)
    ensures forall i :: valueTag + |ARG_VALUE_START| <= i < valueEnd ==> !Occurs(s, ARG_VALUE_END, i)
    ensures ParseParameter(s, at).value ==
            Parameter((Trim(s[at + |ARG_KEY_START|..keyEnd]), Trim(s[valueTag + |ARG_VALUE_START|..valueEnd])),
              valueEnd + |ARG_VALUE_END|)
  {
    hide Trim, FindFrom, SkipSpace, Occurs;
    keyEnd := TakeUntil(s, at + |ARG_KEY_START|, ARG_KEY_END, 1).value;
    valueTag := SkipSpace(s, keyEnd + |ARG_KEY_END|);
    valueEnd := TakeUntil(s, valueTag + |ARG_VALUE_START|, ARG_VALUE_END, 0).value;
  }

  /** What has been read as a parameter is written as one. */
  lemma ParamIsWritten(s: string, at: nat) returns (p: PrintedParam)
    requires at <= |s| && ParseParameter(s, at).Some?
    ensures var read := ParseParameter(s, at).value;
            && ProperParam(p) && p.valueGap == "" && s[at..read.end] == PrintParam(p)
            && read.pair == (Trim(p.key), Trim(p.value))
  {
    hide Trim, SkipSpace, Lacks, Gap, PrintParam, ParseParameter;
    var keyEnd, valueTag, valueEnd := ParamParts(s, at);
    var keyAt, gapAt, valueAt := at + |ARG_KEY_START|, keyEnd + |ARG_KEY_END|, valueTag + |ARG_VALUE_START|;
    FirstIsLacking(s, ARG_KEY_END, keyAt, keyEnd);
    FirstIsLacking(s, ARG_VALUE_END, valueAt, valueEnd);
    SkippedIsGap(s, gapAt);
    NoGap();
    p := PrintedParam(s[keyAt..keyEnd], s[gapAt..valueTag], s[valueAt..valueEnd], "");
    var end := valueEnd + |ARG_VALUE_END|;
    assert s[at..keyAt] == ARG_KEY_START && s[keyEnd..gapAt] == ARG_KEY_END;
    assert s[valueTag..valueAt] == ARG_VALUE_START && s[valueEnd..end] == ARG_VALUE_END;
    ParamIsLaidOut(s, at, keyAt, keyEnd, gapAt, valueTag, valueAt, valueEnd, end);
  }

  lemma ParamIsLaidOut(s: string, a: nat, b: nat, c: nat, d: nat, e: nat, f: nat, g: nat, h: nat)
    requires a <= b <= c <= d <= e <= f <= g <= h <= |s|
    requires s[a..b] == ARG_KEY_START && s[c..d] == ARG_KEY_END
    requires s[e..f] == ARG_VALUE_START && s[g..h] == ARG_VALUE_END
    ensures s[a..h] == PrintParam(PrintedParam(s[b..c], s[d..e], s[f..g], ""))
  {
    var p := PrintedParam(s[b..c], s[d..e], s[f..g], "");
    PartsJoin(s, a, b, c, d, e, f, g, h);
    var bare := ARG_KEY_START + p.key + ARG_KEY_END + p.keyGap + ARG_VALUE_START + p.value + ARG_VALUE_END;
    assert s[a..h] == bare && bare + "" == bare;
    assert PrintParam(p) == bare + p.valueGap;
  }

  lemma NoGap()
    ensures Gap("")
  {
  }

  lemma PartsJoin(s: string, a: nat, b: nat, c: nat, d: nat, e: nat, f: nat, g: nat, h: nat)
    requires a <= b <= c <= d <= e <= f <= g <= h <= |s|
    ensures s[a..h] == s[a..b] + s[b..c] + s[c..d] + s[d..e] + s[e..f] + s[f..g] + s[g..h]
  {
    assert s[a..b] + s[b..c] == s[a..c];
    assert s[a..c] + s[c..d] == s[a..d];
    assert s[a..d] + s[d..e] == s[a..e];
    assert s[a..e] + s[e..f] == s[a..f];
    assert s[a..f] + s[f..g] == s[a..g];
    assert s[a..g] + s[g..h] == s[a..h];
  }

  lemma {:induction false} ParamsAreWritten(s: string, at: nat) returns (params: seq<PrintedParam>)
    requires at <= |s|
    ensures var (pairs, end) := ParseParameters(s, at);
            && (forall k :: 0 <= k < |params| ==> ProperParam(params[k]))
            && s[at..end] == PrintParams(params) && pairs == Pairs(params)
    decreases |s| - at
  {
    hide ParseParameter, ProperParam, PrintParam, Trim, SkipSpace;
    if ParseParameter(s, at).None? {
      params := [];
    } else {
      var read := ParseParameter(s, at).value;
      var p := ParamIsWritten(s, at);
      var next := SkipSpace(s, read.end);
      SkippedIsGap(s, read.end);
      var rest := ParamsAreWritten(s, next);
      var gapped := p.(valueGap := s[read.end..next]);
      GapBehindParam(p, gapped.valueGap);
      params := [gapped] + rest;
      assert params[1..] == rest;
      var end := ParseParameters(s, at).1;
      assert s[at..end] == s[at..read.end] + s[read.end..next] + s[next..end];
    }
  }

  lemma GapBehindParam(p: PrintedParam, gap: string)
    requires ProperParam(p) && p.valueGap == "" && Gap(gap)
    ensures var gapped := p.(valueGap := gap); ProperParam(gapped) && PrintParam(gapped) == PrintParam(p) + gap
  {
    var bare := ARG_KEY_START + p.key + ARG_KEY_END + p.keyGap + ARG_VALUE_START + p.value + ARG_VALUE_END;
    assert PrintParam(p) == bare + "" == bare;
  }

  lemma {:induction false} NameIsPrintable(s: string, at: nat, from: nat)
    requires from <= at <= |s|
    ensures forall i :: at <= i < NameEnd(s, at) ==> s[i] != '<' && SpaceLen(s, i) == 0
    decreases |s| - at
  {
    hide SpaceLen;
    if at < |s| && s[at] != '<' && SpaceLen(s, at) == 0 {
      NameIsPrintable(s, at + 1, from);
    }
  }

  /** White space seen in a part is seen in the whole. */
  lemma SpaceInPart(s: string, from: nat, to: nat, i: nat)
    requires from <= to <= |s| && i < to - from && SpaceLen(s, from + i) == 0
    ensures SpaceLen(s[from..to], i) == 0
  {
    var part := s[from..to];
    assert forall k :: 0 <= k < |part| ==> part[k] == s[from + k];
  }

  /** A body that is accepted is written as one. */
  lemma BodyIsWritten(body: string) returns (c: PrintedCall)
    requires ParseBody(body).Some?
    ensures ProperBody(c) && PrintBody(c) == body && ParseBody(body) == Some((c.name, Pairs(c.params)))
  {
    hide ParseParameters, NameEnd, SpaceLen, SkipSpace, ProperParam, Gap, Pairs, PrintParams;
    var nameAt := SkipSpace(body, 0);
    var nameEnd := NameEnd(body, nameAt);
    var paramsAt := SkipSpace(body, nameEnd);
    var end := ParseParameters(body, paramsAt).1;
    var params := ParamsAreWritten(body, paramsAt);
    ParamsEndSolid(body, paramsAt);
    SkippedIsGap(body, 0);
    SkippedIsGap(body, nameEnd);
    NameIsPrintable(body, nameAt, nameAt);
    var name := body[nameAt..nameEnd];
    forall i | 0 <= i < |name| ensures name[i] != '<' && SpaceLen(name, i) == 0 {
      SpaceInPart(body, nameAt, nameEnd, i);
    }
    c := PrintedCall(body[0..nameAt], name, body[nameEnd..paramsAt], params, "");
    assert body == body[0..nameAt] + name + body[nameEnd..paramsAt] + body[paramsAt..end];
  }

  /** White space behind the parameters has been read with them. */
  lemma {:induction false} ParamsEndSolid(s: string, at: nat)
    requires at <= |s| && SkipSpace(s, at) == at
    ensures SkipSpace(s, ParseParameters(s, at).1) == ParseParameters(s, at).1
    decreases |s| - at
  {
    hide ParseParameter, SkipSpace;
    if ParseParameter(s, at).Some? {
      var next := SkipSpace(s, ParseParameter(s, at).value.end);
      SkippedStays(s, ParseParameter(s, at).value.end);
      ParamsEndSolid(s, next);
    }
  }

  lemma SkippedStays(s: string, at: nat)
    requires at <= |s|
    ensures SkipSpace(s, SkipSpace(s, at)) == SkipSpace(s, at)
  {
  }

  /** A body is accepted exactly if it is a name and parameters, written in some white space. */
  lemma BodiesAreExact(body: string, name: string, pairs: RawParams)
    ensures ParseBody(body) == Some((name, pairs)) <==>
            exists c: PrintedCall :: ProperBody(c) && PrintBody(c) == body && c.name == name && Pairs(c.params) == pairs
  {
    hide ParseBody, ProperBody, PrintBody, Pairs;
    if ParseBody(body) == Some((name, pairs)) {
      var c := BodyIsWritten(body);
    }
    if c: PrintedCall :| ProperBody(c) && PrintBody(c) == body && c.name == name && Pairs(c.params) == pairs {
      BodyParses(c);
    }
  }

  // -------- Texts --------

  /** Text without a marker, or text and what follows its first marker. */
  datatype Whole = Plain(text: string) | Marked(text: string, block: Block)

  /** Nothing at all, or a call and what follows it. */
  datatype Block = Open | Called(body: PrintedCall, after: After)

  /** Text that opens no call, which is dropped, or white space and another marker. */
  datatype After = Dropped(rest: string) | Again(gap: string, block: Block)

  ghost predicate OpensAgain(rest: string) {
    exists gap :: Gap(gap) && gap + TOOL_CALL_START <= rest
  }

  ghost predicate ProperWhole(whole: Whole) {
    Lacks(whole.text, TOOL_CALL_START) && (whole.Marked? ==> ProperBlock(whole.block))
  }

  ghost predicate ProperBlock(block: Block) {
    match block
    case Open => true
    case Called(body, after) =>
      ProperBody(body) && Lacks(PrintBody(body), TOOL_CALL_END) && ProperAfter(after)
  }

  ghost predicate ProperAfter(after: After) {
    match after
    case Dropped(rest) => !OpensAgain(rest)
    case Again(gap, block) => Gap(gap) && ProperBlock(block)
  }

  function SpellWhole(whole: Whole): string {
    match whole
    case Plain(text) => text
    case Marked(text, block) => text + (TOOL_CALL_START + SpellBlock(block))
  }

  function SpellBlock(block: Block): string {
    match block
    case Open => ""
    case Called(body, after) => PrintBody(body) + (TOOL_CALL_END + SpellAfter(after))
  }

  function SpellAfter(after: After): string {
    match after
    case Dropped(rest) => rest
    case Again(gap, block) => gap + (TOOL_CALL_START + SpellBlock(block))
  }

  /** The calls of a block, numbered from `count`. */
  function CallsIn(convert: Converter, block: Block, count: nat): seq<ToolCallDelta> {
    match block
    case Open => []
    case Called(body, after) =>
      [ToolCallDelta(count, Some(body.name), convert(body.name, Pairs(body.params)))]
      + CallsAfter(convert, after, count + 1)
  }

  function CallsAfter(convert: Converter, after: After, count: nat): seq<ToolCallDelta> {
    match after
    case Dropped(_) => []
    case Again(_, block) => CallsIn(convert, block, count)
  }

  function WholeSays(convert: Converter, whole: Whole): ToolParserOutput {
    ToolParserOutput(whole.text, if whole.Marked? then CallsIn(convert, whole.block, 0) else [])
  }

  // -------- Every proper text is read --------

  function Ends(run: GC.Run): Result<ToolParserOutput, ParseError> {
    match run case Failure(e) => Failure(e) case Success(d) => Finish(d.0, d.1)
  }

  lemma LackingBlock(body: string, rest: string)
    requires Lacks(body, TOOL_CALL_END)
    ensures Find(body + (TOOL_CALL_END + rest), TOOL_CALL_END) == Some(|body|)
    ensures var s := body + (TOOL_CALL_END + rest); s[..|body|] == body && s[|body| + |TOOL_CALL_END|..] == rest
  {
    hide FindFrom, Lacks;
    SolidTags();
    TagIsFound("", body, TOOL_CALL_END, rest);
    assert "" + body + TOOL_CALL_END + rest == body + (TOOL_CALL_END + rest);
  }

  lemma {:induction false} BlockIsReadWhole(convert: Converter, block: Block, count: nat, out: ToolParserOutput)
    requires ProperBlock(block)
    ensures Ends(Drain(convert, State(SpellBlock(block), ToolCallMode, count), out)) ==
            Success(out.(calls := out.calls + CallsIn(convert, block, count)))
    decreases block
  {
    hide Drain, ParseBody, PrintBody, ProperBody, Lacks, Find, FindFrom, Pairs, NextEvent;
    match block {
      case Open =>
        NothingToDrain(convert, State("", ToolCallMode, count), out);
        assert out.calls + [] == out.calls;
      case Called(body, after) =>
        var text := PrintBody(body);
        LackingBlock(text, SpellAfter(after));
        BodyParses(body);
        var st := State(SpellBlock(block), ToolCallMode, count);
        GC.CallDrains(convert, st, out, |text|);
        var delta := ToolCallDelta(count, Some(body.name), convert(body.name, Pairs(body.params)));
        AfterIsReadWhole(convert, after, count + 1, out.AddCall(delta));
        var later := CallsAfter(convert, after, count + 1);
        assert out.calls + [delta] + later == out.calls + ([delta] + later);
    }
  }

  lemma NothingToDrain(convert: Converter, st: State, out: ToolParserOutput)
    requires st.buffer == ""
    ensures Drain(convert, st, out) == Success((st, out))
  {
    GC.EmptyWaits(st.mode);
  }

  lemma {:induction false} AfterIsReadWhole(convert: Converter, after: After, count: nat, out: ToolParserOutput)
    requires ProperAfter(after)
    ensures Ends(Drain(convert, State(SpellAfter(after), AfterToolCall, count), out)) ==
            Success(out.(calls := out.calls + CallsAfter(convert, after, count)))
    decreases after
  {
    hide Drain, NextEvent, SpellBlock, ProperBlock;
    match after {
      case Dropped(rest) =>
        DropsOrWaits(convert, rest, count, out);
        assert out.calls + [] == out.calls;
      case Again(gap, block) =>
        GapThenMarker(gap, SpellBlock(block));
        var st := State(SpellAfter(after), AfterToolCall, count);
        GC.AfterDrains(convert, st, out);
        BlockIsReadWhole(convert, block, count, out);
    }
  }

  /** After a call, text that opens no other one gives nothing. */
  lemma DropsOrWaits(convert: Converter, rest: string, count: nat, out: ToolParserOutput)
    requires !OpensAgain(rest)
    ensures Ends(Drain(convert, State(rest, AfterToolCall, count), out)) == Success(out)
  {
    hide Drain;
    var st := State(rest, AfterToolCall, count);
    NotAgain(rest);
    if NextEvent(rest, AfterToolCall).Ready? {
      GC.AfterDrains(convert, st, out);
    } else {
      GC.WaitDrains(convert, st, out);
    }
  }

  lemma NotAgain(rest: string)
    ensures var next := NextEvent(rest, AfterToolCall);
            (next.Ready? && next.event.CallStart? <==> OpensAgain(rest)) && !next.Bad?
            && (next.Ready? ==> next.event.CallStart? || next.event.IgnoredRest?)
    ensures var next := NextEvent(rest, AfterToolCall);
            next.Ready? && next.event.CallStart? ==>
              exists gap :: Gap(gap) && rest == gap + (TOOL_CALL_START + rest[next.consumed..])
  {
    hide NextEvent, Gap;
    var next := NextEvent(rest, AfterToolCall);
    AfterCallEvents(rest);
    if next.Ready? && next.event.CallStart? {
      var gap := StartFollowsGap(rest);
      assert gap + TOOL_CALL_START <= rest;
    }
    if gap :| Gap(gap) && gap + TOOL_CALL_START <= rest {
      var inside := rest[|gap| + |TOOL_CALL_START|..];
      assert rest == gap + (TOOL_CALL_START + inside);
      GapThenMarker(gap, inside);
    }
  }

  lemma AfterCallEvents(rest: string)
    ensures var next := NextEvent(rest, AfterToolCall);
            !next.Bad? && (next.Ready? ==> next.event.CallStart? || next.event.IgnoredRest?)
  {
    hide SkipSpace, Occurs;
  }

  lemma StartFollowsGap(rest: string) returns (gap: string)
    requires var next := NextEvent(rest, AfterToolCall); next.Ready? && next.event.CallStart?
    ensures Gap(gap) && rest == gap + (TOOL_CALL_START + rest[NextEvent(rest, AfterToolCall).consumed..])
  {
    hide SkipSpace, Gap;
    SkippedIsGap(rest, 0);
    var p := SkipSpace(rest, 0);
    gap := rest[0..p];
    assert rest[p..p + |TOOL_CALL_START|] == TOOL_CALL_START;
  }

  // -------- Every text that is read is proper --------

  lemma UnfoundIsLacking(s: string, tag: string, n: nat)
    requires tag != "" && n <= |s| && forall i :: 0 <= i < n ==> !Occurs(s, tag, i)
    ensures Lacks(s[..n], tag)
  {
    FirstIsLacking(s, tag, 0, n);
    assert s[0..n] == s[..n];
  }

  lemma {:induction false} BlockIsWritten(convert: Converter, s: string, count: nat, out: ToolParserOutput)
    returns (block: Block)
    requires Ends(Drain(convert, State(s, ToolCallMode, count), out)).Success?
    ensures ProperBlock(block) && SpellBlock(block) == s
    decreases |s|
  {
    hide Drain, ParseBody, PrintBody, ProperBody, Lacks, FindFrom, NextEvent;
    var st := State(s, ToolCallMode, count);
    if Find(s, TOOL_CALL_END).None? {
      UnclosedBlock(convert, st, out);
      block := Open;
    } else {
      var i := Find(s, TOOL_CALL_END).value;
      GC.CallDrains(convert, st, out, i);
      var c := BodyIsWritten(s[..i]);
      var rest := s[i + |TOOL_CALL_END|..];
      UnfoundIsLacking(s, TOOL_CALL_END, i);
      assert s[i..i + |TOOL_CALL_END|] == TOOL_CALL_END;
      assert s == s[..i] + (TOOL_CALL_END + rest);
      var after := AfterIsWritten(convert, rest, count + 1, GC.CallOutput(convert, st, out, ParseBody(s[..i]).value));
      block := Called(c, after);
    }
  }

  /** A call that is not closed is an error, unless there is nothing of it. */
  lemma UnclosedBlock(convert: Converter, st: State, out: ToolParserOutput)
    requires st.mode == ToolCallMode && Find(st.buffer, TOOL_CALL_END).None?
    ensures Ends(Drain(convert, st, out)).Success? <==> st.buffer == ""
  {
    hide Find;
  }

  lemma {:induction false} AfterIsWritten(convert: Converter, s: string, count: nat, out: ToolParserOutput)
    returns (after: After)
    requires Ends(Drain(convert, State(s, AfterToolCall, count), out)).Success?
    ensures ProperAfter(after) && SpellAfter(after) == s
    decreases |s|
  {
    hide Drain, NextEvent, ProperBlock, OpensAgain, Gap;
    NotAgain(s);
    if OpensAgain(s) {
      var st, next := State(s, AfterToolCall, count), NextEvent(s, AfterToolCall);
      GC.AfterDrains(convert, st, out);
      var rest := s[next.consumed..];
      var gap :| Gap(gap) && s == gap + (TOOL_CALL_START + rest);
      var block := BlockIsWritten(convert, rest, count, out);
      after := Again(gap, block);
    } else {
      after := After.Dropped(s);
    }
  }

  // -------- The theorem --------

  lemma PlainIsRead(convert: Converter, text: string)
    requires Find(text, TOOL_CALL_START).None?
    ensures Ends(Drain(convert, State(text, TextMode, 0), NoOutput)) == Success(NoOutput.AddText(text))
  {
    hide Find, Drain, Lexing.SafeTextLen;
    GC.UnmarkedDrains(convert, State(text, TextMode, 0), NoOutput);
    var n := Lexing.SafeTextLen(text, TOOL_CALL_START);
    assert "" + text[..n] + text[n..] == "" + text;
  }

  lemma {:induction false} CallIsNumbered(convert: Converter, block: Block, count: nat, k: nat)
    requires k < |CallsIn(convert, block, count)|
    ensures CallsIn(convert, block, count)[k].toolIndex == count + k
    decreases block
  {
    hide Pairs;
    if k > 0 {
      var rest := block.after.block;
      assert CallsIn(convert, block, count)[k] == CallsIn(convert, rest, count + 1)[k - 1];
      CallIsNumbered(convert, rest, count + 1, k - 1);
    }
  }

  /** What a text of this shape is parsed to. */
  lemma WholeIsRead(convert: Converter, whole: Whole)
    requires ProperWhole(whole)
    ensures Parse(convert, SpellWhole(whole)) == Success(WholeSays(convert, whole))
  {
    hide Drain, SpellBlock, ProperBlock, CallsIn, Lacks, Find, FindFrom, Coalesce;
    var text := whole.text;
    assert "" + text == text && [] == Coalesce([]) by { NumberedAreMerged([]); }
    match whole {
      case Plain(_) =>
        LackingIsUnfound(text);
        PlainIsRead(convert, text);
      case Marked(_, block) =>
        MarkerIsReached(convert, text, SpellBlock(block));
        BlockIsReadWhole(convert, block, 0, NoOutput.AddText(text));
        var calls := CallsIn(convert, block, 0);
        forall k | 0 <= k < |calls| ensures calls[k].toolIndex == k {
          CallIsNumbered(convert, block, 0, k);
        }
        NumberedAreMerged(calls);
        assert [] + calls == calls;
    }
  }

  lemma LackingIsUnfound(text: string)
    requires Lacks(text, TOOL_CALL_START)
    ensures Find(text, TOOL_CALL_START).None?
  {
    hide FindFrom;
    assert !Occurs(text, TOOL_CALL_START, |text|);
  }

  lemma TextIsWhole(convert: Converter, s: string) returns (whole: Whole)
    requires Parse(convert, s).Success?
    ensures ProperWhole(whole) && SpellWhole(whole) == s
  {
    hide Drain, ProperBlock, SpellBlock, Lacks, FindFrom;
    var found := Find(s, TOOL_CALL_START);
    if found.None? {
      UnfoundIsLacking(s, TOOL_CALL_START, |s|);
      assert s[..|s|] == s;
      whole := Plain(s);
    } else {
      var i := found.value;
      var rest := s[i + |TOOL_CALL_START|..];
      UnfoundIsLacking(s, TOOL_CALL_START, i);
      assert s[i..i + |TOOL_CALL_START|] == TOOL_CALL_START;
      assert s == s[..i] + (TOOL_CALL_START + rest);
      GC.MarkedDrains(convert, InitialState.(buffer := s), NoOutput, i);
      var block := BlockIsWritten(convert, rest, 0, NoOutput.AddText(s[..i]));
      whole := Marked(s[..i], block);
    }
  }

  /**
   A text given at once is accepted exactly if it is text, and calls one behind the other with what
   is dropped behind the last; and those calls are what is read.
   */
  lemma LanguageIsExact(convert: Converter, text: string)
    ensures Parse(convert, text).Success? <==> exists whole: Whole :: ProperWhole(whole) && SpellWhole(whole) == text
    ensures forall whole: Whole :: ProperWhole(whole) && SpellWhole(whole) == text ==>
              Parse(convert, text) == Success(WholeSays(convert, whole))
  {
    hide Parse, ProperWhole, SpellWhole, WholeSays;
    if Parse(convert, text).Success? {
      var whole := TextIsWhole(convert, text);
    }
    forall whole: Whole | ProperWhole(whole) && SpellWhole(whole) == text
      ensures Parse(convert, text) == Success(WholeSays(convert, whole)) {
      WholeIsRead(convert, whole);
    }
  }
}
