/** Exactly when chunking matters to the GLM parser (src/vllm_tool_parser/glm_xml). */
module GlmChunks {
  import opened Wrappers
  import opened Text
  import opened Output
  import opened Lexing
  import opened Combinators
  import CI = ChunkInvariance
  import opened Glm
  import GR = GlmRoundTrip
  import LT = LeadingText

  type Run = Result<(State, ToolParserOutput), ParseError>

  // -------- Parsing in chunks --------

  function DrainChunks(convert: Converter, st: State, chunks: seq<string>, out: ToolParserOutput): Run
    decreases |chunks|
  {
    if chunks == [] then Success((st, out))
    else match Drain(convert, st.(buffer := st.buffer + chunks[0]), out)
      case Failure(e) => Failure(e)
      case Success(d) => DrainChunks(convert, d.0, chunks[1..], d.1)
  }

  /** Finish a run and merge its calls. */
  function Outcome(run: Run): Result<ToolParserOutput, ParseError> {
    match run
    case Failure(e) => Failure(e)
    case Success(d) =>
      match Finish(d.0, d.1)
      case Failure(e) => Failure(e)
      case Success(out) => Success(out.(calls := Coalesce(out.calls)))
  }

  function ParseChunks(convert: Converter, chunks: seq<string>): Result<ToolParserOutput, ParseError> {
    Outcome(DrainChunks(convert, InitialState, chunks, NoOutput))
  }

  // -------- What is dropped --------

  /** The rest of a text that the parser, given all of it, drops after a call; "" if it drops nothing. */
  function Dropped(s: string, mode: Mode): (rest: string)
    ensures |rest| <= |s|
    decreases |s|
  {
    match mode
    case TextMode => (
      match Find(s, TOOL_CALL_START)
      case None => ""
      case Some(i) => Dropped(s[i + |TOOL_CALL_START|..], ToolCallMode))
    case ToolCallMode => (
      match Find(s, TOOL_CALL_END)
      case None => ""
      case Some(i) => if ParseBody(s[..i]).None? then "" else Dropped(s[i + |TOOL_CALL_END|..], AfterToolCall))
    case AfterToolCall =>
      match NextEvent(s, AfterToolCall)
      case Ready(CallStart, n) => Dropped(s[n..], ToolCallMode)
      case Ready(IgnoredRest, _) => s
      case _ => ""
  }

  lemma {:induction false} DroppedIsLast(s: string, mode: Mode)
    ensures Dropped(s, mode) == s[|s| - |Dropped(s, mode)|..]
    decreases |s|
  {
    hide NextEvent, Find, ParseBody;
    var d := Dropped(s, mode);
    match mode {
      case TextMode =>
        if Find(s, TOOL_CALL_START).Some? {
          DroppedIsLast(s[Find(s, TOOL_CALL_START).value + |TOOL_CALL_START|..], ToolCallMode);
        }
      case ToolCallMode =>
        if Find(s, TOOL_CALL_END).Some? && d != "" {
          DroppedIsLast(s[Find(s, TOOL_CALL_END).value + |TOOL_CALL_END|..], AfterToolCall);
        }
      case AfterToolCall =>
        var next := NextEvent(s, AfterToolCall);
        if next.Ready? && next.event.CallStart? {
          DroppedIsLast(s[next.consumed..], ToolCallMode);
        }
    }
  }

  /** Text that is dropped when it arrives alone after a call. */
  predicate DropsAlone(s: string) {
    NextEvent(s, AfterToolCall) == Ready(IgnoredRest, |s|)
  }

  /** In the dropped rest, a marker with more behind it follows text that would be dropped alone. */
  ghost predicate LosesMarker(rest: string) {
    exists m :: LosesAt(rest, m)
  }

  predicate LosesAt(rest: string, m: nat) {
    Occurs(rest, TOOL_CALL_START, m) && m + |TOOL_CALL_START| < |rest| && DropsAlone(rest[..m])
  }

  // -------- One step per mode --------

  lemma EmptyWaits(mode: Mode)
    ensures NextEvent("", mode) == Wait
  {
  }

  lemma HeldAsWhole(s: string)
    requires Literal(s, 0, TOOL_CALL_START).Incomplete?
    ensures Find(s, TOOL_CALL_START).None? && SafeTextLen(s, TOOL_CALL_START) == 0
  {
    hide FindFrom;
    assert s[0..] == s == TOOL_CALL_START[..|s|];
    assert Held(s, TOOL_CALL_START, |s|);
  }

  /** Unmarked text is released but for what could start a marker. */
  lemma UnmarkedDrains(convert: Converter, st: State, out: ToolParserOutput)
    requires st.mode == TextMode && Find(st.buffer, TOOL_CALL_START).None?
    ensures var n := SafeTextLen(st.buffer, TOOL_CALL_START);
            Drain(convert, st, out) == Success((st.(buffer := st.buffer[n..]), out.AddText(st.buffer[..n])))
  {
    hide Find, FindFrom, SafeTextLen;
    var s := st.buffer;
    var n := SafeTextLen(s, TOOL_CALL_START);
    LT.UnmarkedGlmEvent(s);
    LT.KeptWaits(s);
    WaitingText(s);
    hide NextEvent;
    if n == 0 {
      assert s[0..] == s && out.normalText + s[..0] == out.normalText;
    }
  }

  lemma WaitingText(s: string)
    requires Find(s, TOOL_CALL_START).None?
    ensures NextEvent(s, TextMode).Wait? ==> SafeTextLen(s, TOOL_CALL_START) == 0
  {
    hide Find, FindFrom, SafeTextLen;
    if Literal(s, 0, TOOL_CALL_START).Incomplete? {
      HeldAsWhole(s);
    }
  }

  /** Text up to the first marker is released, and the call is entered. */
  lemma MarkedDrains(convert: Converter, st: State, out: ToolParserOutput, i: nat)
    requires st.mode == TextMode && Find(st.buffer, TOOL_CALL_START) == Some(i)
    ensures var rest := st.buffer[i + |TOOL_CALL_START|..];
            Drain(convert, st, out) ==
              Drain(convert, State(rest, ToolCallMode, st.emittedToolCount), out.AddText(st.buffer[..i]))
  {
    hide FindFrom;
    var s := st.buffer;
    var marked := s[i..];
    assert s == s[..i] + marked;
    OccursInSuffix(s[..i], marked, TOOL_CALL_START, 0);
    assert NextEvent(marked, TextMode) == Ready(CallStart, |TOOL_CALL_START|);
    assert marked[|TOOL_CALL_START|..] == s[i + |TOOL_CALL_START|..];
    if i == 0 {
      assert marked == s && out.normalText + s[..0] == out.normalText;
    } else {
      GR.NotAtMarker(s[..i], marked);
      assert NextEvent(s, TextMode) == Ready(TextRun(i), i);
    }
  }

  /** Except for a drop, an event after a call is the same in every extension; a drop stays a drop. */
  lemma AfterCallStable(s: string, more: string)
    requires !NextEvent(s, AfterToolCall).Wait?
    ensures var next := NextEvent(s, AfterToolCall);
            NextEvent(s + more, AfterToolCall) ==
            if next == Ready(IgnoredRest, |s|) then Ready(IgnoredRest, |s + more|) else next
    ensures NextEvent(s, AfterToolCall).Ready?
    ensures var event := NextEvent(s, AfterToolCall).event; event.CallStart? || event.IgnoredRest?
  {
    SpaceStable(s, more, 0);
    LiteralStable(s, more, Space(s, 0).value, TOOL_CALL_START);
  }

  // -------- Draining early or late --------

  /** Draining now and then going on, and draining all at once. */
  ghost predicate SplitAgrees(convert: Converter, st: State, out: ToolParserOutput, more: string) {
    var all := st.(buffer := st.buffer + more);
    match Drain(convert, st, out)
    case Failure(e) => Drain(convert, all, out) == Failure(e) && Dropped(all.buffer, all.mode) == ""
    case Success(d) =>
      && Drain(convert, all, out) == Drain(convert, d.0.(buffer := d.0.buffer + more), d.1)
      && Dropped(all.buffer, all.mode) == Dropped(d.0.buffer + more, d.0.mode)
  }

  lemma WaitSplit(convert: Converter, st: State, out: ToolParserOutput, more: string)
    requires NextEvent(st.buffer, st.mode).Wait?
    ensures SplitAgrees(convert, st, out, more)
  {
    hide NextEvent, Dropped;
  }

  lemma TextDropped(s: string)
    ensures var i := Find(s, TOOL_CALL_START);
            Dropped(s, TextMode) == if i.None? then "" else Dropped(s[i.value + |TOOL_CALL_START|..], ToolCallMode)
  {
    hide Find;
  }

  /** Where released text ends makes no difference to what follows it. */
  lemma TextSplitAt(s: string, more: string)
    requires Find(s, TOOL_CALL_START).None?
    ensures var n := SafeTextLen(s, TOOL_CALL_START);
            var rest, all := s[n..] + more, s + more;
            var j := SafeTextLen(rest, TOOL_CALL_START);
            && SafeTextLen(all, TOOL_CALL_START) == n + j
            && (Find(all, TOOL_CALL_START).Some? <==> Find(rest, TOOL_CALL_START).Some?)
            && (Find(rest, TOOL_CALL_START).Some? ==>
                  Find(rest, TOOL_CALL_START) == Some(j) && Find(all, TOOL_CALL_START) == Some(n + j))
            && all[..n + j] == s[..n] + rest[..j] && all[n + j..] == rest[j..]
  {
    hide Find, SafeTextLen;
    var n := SafeTextLen(s, TOOL_CALL_START);
    var rest, all := s[n..] + more, s + more;
    CI.ReleaseContinues(s, more, TOOL_CALL_START);
    CI.SafeTextAtMarker(rest, TOOL_CALL_START);
    CI.SafeTextAtMarker(all, TOOL_CALL_START);
    assert all == s[..n] + rest;
  }

  lemma TextSplit(convert: Converter, st: State, out: ToolParserOutput, more: string)
    requires st.mode == TextMode && Find(st.buffer, TOOL_CALL_START).None?
    ensures SplitAgrees(convert, st, out, more)
  {
    hide Drain, NextEvent, Find, SafeTextLen, Dropped;
    var s := st.buffer;
    var n := SafeTextLen(s, TOOL_CALL_START);
    var rest, all := s[n..] + more, s + more;
    var j := SafeTextLen(rest, TOOL_CALL_START);
    TextSplitAt(s, more);
    UnmarkedDrains(convert, st, out);
    TextDropped(all);
    TextDropped(rest);
    var early := out.AddText(s[..n]);
    TextJoins(out, s[..n], rest[..j]);
    if Find(all, TOOL_CALL_START).None? {
      UnmarkedDrains(convert, st.(buffer := all), out);
      UnmarkedDrains(convert, st.(buffer := rest), early);
    } else {
      MarkedDrains(convert, st.(buffer := all), out, n + j);
      MarkedDrains(convert, st.(buffer := rest), early, j);
      assert all[n + j + |TOOL_CALL_START|..] == all[n + j..][|TOOL_CALL_START|..];
    }
  }

  lemma TextJoins(out: ToolParserOutput, a: string, b: string)
    ensures out.AddText(a).AddText(b) == out.AddText(a + b)
  {
    assert out.normalText + a + b == out.normalText + (a + b);
  }

  lemma CallDropped(s: string)
    ensures var i := Find(s, TOOL_CALL_END);
            Dropped(s, ToolCallMode) ==
            if i.None? || ParseBody(s[..i.value]).None? then ""
            else Dropped(s[i.value + |TOOL_CALL_END|..], AfterToolCall)
  {
    hide Find, ParseBody;
  }

  /** The state and output behind a complete call block. */
  function CallState(st: State, i: nat): State
    requires i + |TOOL_CALL_END| <= |st.buffer|
  {
    State(st.buffer[i + |TOOL_CALL_END|..], AfterToolCall, st.emittedToolCount + 1)
  }

  function CallOutput(convert: Converter, st: State, out: ToolParserOutput, body: (string, RawParams))
    : ToolParserOutput
  {
    out.AddCall(ToolCallDelta(st.emittedToolCount, Some(body.0), convert(body.0, body.1)))
  }

  /** A complete call block is read at once. */
  lemma CallDrains(convert: Converter, st: State, out: ToolParserOutput, i: nat)
    requires st.mode == ToolCallMode && Find(st.buffer, TOOL_CALL_END) == Some(i)
    ensures var body := ParseBody(st.buffer[..i]);
            Drain(convert, st, out) ==
            if body.None? then Failure(BadSyntax)
            else Drain(convert, CallState(st, i), CallOutput(convert, st, out, body.value))
  {
    hide Find, ParseBody;
  }

  /** A complete call block is the same in every extension. */
  lemma CallExtends(st: State, i: nat, more: string)
    requires Find(st.buffer, TOOL_CALL_END) == Some(i)
    ensures var all := st.(buffer := st.buffer + more);
            && Find(all.buffer, TOOL_CALL_END) == Some(i) && all.buffer[..i] == st.buffer[..i]
            && CallState(all, i) == CallState(st, i).(buffer := CallState(st, i).buffer + more)
  {
    hide Find;
    FindExtends(st.buffer, more, TOOL_CALL_END);
    assert (st.buffer + more)[i + |TOOL_CALL_END|..] == st.buffer[i + |TOOL_CALL_END|..] + more;
  }

  lemma AfterDropped(s: string)
    ensures var next := NextEvent(s, AfterToolCall);
            Dropped(s, AfterToolCall) ==
            if next.Ready? && next.event.CallStart? then Dropped(s[next.consumed..], ToolCallMode)
            else if next.Ready? && next.event.IgnoredRest? then s
            else ""
  {
    hide NextEvent;
  }

  lemma AfterDrains(convert: Converter, st: State, out: ToolParserOutput)
    requires st.mode == AfterToolCall && NextEvent(st.buffer, AfterToolCall).Ready?
    ensures var Ready(event, n) := NextEvent(st.buffer, AfterToolCall);
            && (event.CallStart? ==>
                Drain(convert, st, out) == Drain(convert, st.(buffer := st.buffer[n..], mode := ToolCallMode), out))
            && (event.IgnoredRest? ==> Drain(convert, st, out) == Success((st.(buffer := ""), out)))
  {
    EmptyWaits(AfterToolCall);
    if NextEvent(st.buffer, AfterToolCall).event.IgnoredRest? {
      assert st.buffer[|st.buffer|..] == "";
    }
  }

  /** As long as nothing is dropped, draining early and then going on equals draining late. */
  lemma {:induction false} DrainSplit(convert: Converter, st: State, out: ToolParserOutput, more: string)
    requires Dropped(st.buffer, st.mode) == ""
    ensures SplitAgrees(convert, st, out, more)
    decreases |st.buffer|
  {
    hide Drain, NextEvent, Find, SafeTextLen, Dropped, ParseBody, SplitAgrees;
    var s, all := st.buffer, st.buffer + more;
    match st.mode {
      case TextMode =>
        if Find(s, TOOL_CALL_START).None? {
          TextSplit(convert, st, out, more);
        } else {
          TextStep(convert, st, out, more);
          var i := Find(s, TOOL_CALL_START).value;
          DrainSplit(convert, State(s[i + |TOOL_CALL_START|..], ToolCallMode, st.emittedToolCount),
            out.AddText(s[..i]), more);
        }
      case ToolCallMode =>
        if Find(s, TOOL_CALL_END).None? {
          NoEndWaits(s);
          WaitSplit(convert, st, out, more);
        } else {
          CallStep(convert, st, out, more);
          var i := Find(s, TOOL_CALL_END).value;
          var body := ParseBody(s[..i]);
          if body.Some? {
            CallDropped(s);
            DrainSplit(convert, CallState(st, i), CallOutput(convert, st, out, body.value), more);
          }
        }
      case AfterToolCall =>
        var next := NextEvent(s, AfterToolCall);
        if next.Wait? {
          WaitSplit(convert, st, out, more);
        } else {
          AfterStep(convert, st, out, more);
          DrainSplit(convert, st.(buffer := s[next.consumed..], mode := ToolCallMode), out, more);
        }
    }
  }

  lemma NoEndWaits(s: string)
    requires Find(s, TOOL_CALL_END).None?
    ensures NextEvent(s, ToolCallMode) == Wait
  {
    hide Find;
  }

  lemma TextStep(convert: Converter, st: State, out: ToolParserOutput, more: string)
    requires st.mode == TextMode && Find(st.buffer, TOOL_CALL_START).Some?
    ensures var i := Find(st.buffer, TOOL_CALL_START).value;
            var next := State(st.buffer[i + |TOOL_CALL_START|..], ToolCallMode, st.emittedToolCount);
            && Dropped(st.buffer, TextMode) == Dropped(next.buffer, ToolCallMode)
            && (SplitAgrees(convert, next, out.AddText(st.buffer[..i]), more) ==> SplitAgrees(convert, st, out, more))
  {
    hide Drain, NextEvent, Find, SafeTextLen, Dropped;
    var s, all := st.buffer, st.buffer + more;
    var i := Find(s, TOOL_CALL_START).value;
    FindExtends(s, more, TOOL_CALL_START);
    TextDropped(s);
    TextDropped(all);
    MarkedDrains(convert, st, out, i);
    MarkedDrains(convert, st.(buffer := all), out, i);
    assert all[i + |TOOL_CALL_START|..] == s[i + |TOOL_CALL_START|..] + more && all[..i] == s[..i];
  }

  lemma CallStep(convert: Converter, st: State, out: ToolParserOutput, more: string)
    requires st.mode == ToolCallMode && Find(st.buffer, TOOL_CALL_END).Some?
    ensures var i := Find(st.buffer, TOOL_CALL_END).value;
            var body := ParseBody(st.buffer[..i]);
            if body.None? then SplitAgrees(convert, st, out, more)
            else SplitAgrees(convert, CallState(st, i), CallOutput(convert, st, out, body.value), more) ==>
                   SplitAgrees(convert, st, out, more)
  {
    hide Drain, NextEvent, Find, SafeTextLen, Dropped, ParseBody, CallOutput;
    var all := st.(buffer := st.buffer + more);
    var i := Find(st.buffer, TOOL_CALL_END).value;
    CallExtends(st, i, more);
    CallDropped(all.buffer);
    CallDrains(convert, st, out, i);
    CallDrains(convert, all, out, i);
    SameOutput(convert, st, all, out);
  }

  lemma SameOutput(convert: Converter, st: State, all: State, out: ToolParserOutput)
    requires st.emittedToolCount == all.emittedToolCount
    ensures forall body :: CallOutput(convert, st, out, body) == CallOutput(convert, all, out, body)
  {
  }

  lemma AfterStep(convert: Converter, st: State, out: ToolParserOutput, more: string)
    requires st.mode == AfterToolCall && !NextEvent(st.buffer, AfterToolCall).Wait?
             && Dropped(st.buffer, AfterToolCall) == ""
    ensures NextEvent(st.buffer, AfterToolCall).Ready?
    ensures var n := NextEvent(st.buffer, AfterToolCall).consumed;
            var next := st.(buffer := st.buffer[n..], mode := ToolCallMode);
            && 0 < n && Dropped(next.buffer, ToolCallMode) == ""
            && (SplitAgrees(convert, next, out, more) ==> SplitAgrees(convert, st, out, more))
  {
    hide Drain, NextEvent, Dropped;
    var s, all := st.buffer, st.buffer + more;
    AfterCallStable(s, more);
    AfterDropped(s);
    AfterDropped(all);
    DropTakesAll(s);
    AfterDrains(convert, st, out);
    AfterDrains(convert, st.(buffer := all), out);
    var n := NextEvent(s, AfterToolCall).consumed;
    assert all[n..] == s[n..] + more;
  }

  lemma DropTakesAll(s: string)
    ensures var next := NextEvent(s, AfterToolCall);
            next.Ready? && next.event.IgnoredRest? ==> next.consumed == |s| && s != ""
  {
  }

  // -------- Once something is dropped --------

  /** The state and output in which text is dropped, whatever comes after it. */
  ghost predicate DropsIn(convert: Converter, st: State, out: ToolParserOutput, count: nat, end: ToolParserOutput,
      more: string)
  {
    && Drain(convert, st.(buffer := st.buffer + more), out) == Success((State("", AfterToolCall, count), end))
    && Dropped(st.buffer + more, st.mode) == Dropped(st.buffer, st.mode) + more
  }

  lemma TextDrops(convert: Converter, st: State, out: ToolParserOutput, i: nat, count: nat, end: ToolParserOutput,
      more: string)
    requires st.mode == TextMode && Find(st.buffer, TOOL_CALL_START) == Some(i)
    requires var next := State(st.buffer[i + |TOOL_CALL_START|..], ToolCallMode, st.emittedToolCount);
             DropsIn(convert, next, out.AddText(st.buffer[..i]), count, end, more)
    ensures DropsIn(convert, st, out, count, end, more)
  {
    hide Drain, NextEvent, Find, Dropped;
    var s, all := st.buffer, st.buffer + more;
    FindExtends(s, more, TOOL_CALL_START);
    TextDropped(s);
    TextDropped(all);
    MarkedDrains(convert, st.(buffer := all), out, i);
    assert all[i + |TOOL_CALL_START|..] == s[i + |TOOL_CALL_START|..] + more && all[..i] == s[..i];
  }

  lemma CallDrops(convert: Converter, st: State, out: ToolParserOutput, i: nat, body: (string, RawParams),
      count: nat, end: ToolParserOutput, more: string)
    requires st.mode == ToolCallMode && Find(st.buffer, TOOL_CALL_END) == Some(i)
             && ParseBody(st.buffer[..i]) == Some(body)
    requires DropsIn(convert, CallState(st, i), CallOutput(convert, st, out, body), count, end, more)
    ensures DropsIn(convert, st, out, count, end, more)
  {
    hide Drain, NextEvent, Find, Dropped, ParseBody, CallOutput;
    var all := st.(buffer := st.buffer + more);
    CallExtends(st, i, more);
    CallDropped(st.buffer);
    CallDropped(all.buffer);
    CallDrains(convert, all, out, i);
    SameOutput(convert, st, all, out);
  }

  lemma StartDrops(convert: Converter, st: State, out: ToolParserOutput, n: nat, count: nat, end: ToolParserOutput,
      more: string)
    requires st.mode == AfterToolCall && NextEvent(st.buffer, AfterToolCall) == Ready(CallStart, n)
    requires n <= |st.buffer|
             && DropsIn(convert, st.(buffer := st.buffer[n..], mode := ToolCallMode), out, count, end, more)
    ensures DropsIn(convert, st, out, count, end, more)
  {
    hide Drain, NextEvent, Dropped;
    var s, all := st.buffer, st.buffer + more;
    AfterCallStable(s, more);
    AfterDropped(s);
    AfterDropped(all);
    assert all[n..] == s[n..] + more;
    var later := State(s[n..] + more, ToolCallMode, st.emittedToolCount);
    AfterDrains(convert, st.(buffer := all), out);
    assert Drain(convert, st.(buffer := all), out) == Drain(convert, later, out);
  }

  lemma JunkDrops(convert: Converter, st: State, out: ToolParserOutput, more: string)
    requires st.mode == AfterToolCall && DropsAlone(st.buffer)
    ensures DropsIn(convert, st, out, st.emittedToolCount, out, more)
  {
    hide Drain, NextEvent, Dropped;
    var s, all := st.buffer, st.buffer + more;
    AfterCallStable(s, more);
    AfterDropped(s);
    AfterDropped(all);
    AfterDrains(convert, st.(buffer := all), out);
  }

  lemma {:induction false} DropSwallows(convert: Converter, st: State, out: ToolParserOutput)
    returns (count: nat, end: ToolParserOutput)
    requires Dropped(st.buffer, st.mode) != ""
    ensures forall more :: DropsIn(convert, st, out, count, end, more)
    ensures DropsAlone(Dropped(st.buffer, st.mode))
    decreases |st.buffer|, 1
  {
    hide Drain, NextEvent, Find, Dropped, ParseBody, DropsIn;
    var s := st.buffer;
    match st.mode {
      case TextMode =>
        TextDropped(s);
        var i := Find(s, TOOL_CALL_START).value;
        var next := State(s[i + |TOOL_CALL_START|..], ToolCallMode, st.emittedToolCount);
        count, end := DropSwallows(convert, next, out.AddText(s[..i]));
        forall more ensures DropsIn(convert, st, out, count, end, more) {
          TextDrops(convert, st, out, i, count, end, more);
        }
      case ToolCallMode =>
        CallDropped(s);
        var i := Find(s, TOOL_CALL_END).value;
        var body := ParseBody(s[..i]).value;
        count, end := DropSwallows(convert, CallState(st, i), CallOutput(convert, st, out, body));
        forall more ensures DropsIn(convert, st, out, count, end, more) {
          CallDrops(convert, st, out, i, body, count, end, more);
        }
      case AfterToolCall =>
        count, end := AfterSwallows(convert, st, out);
    }
  }

  lemma {:induction false} AfterSwallows(convert: Converter, st: State, out: ToolParserOutput)
    returns (count: nat, end: ToolParserOutput)
    requires st.mode == AfterToolCall && Dropped(st.buffer, AfterToolCall) != ""
    ensures forall more :: DropsIn(convert, st, out, count, end, more)
    ensures DropsAlone(Dropped(st.buffer, AfterToolCall))
    decreases |st.buffer|, 0
  {
    hide Drain, NextEvent, Dropped, DropsIn;
    var s := st.buffer;
    AfterDropped(s);
    DropTakesAll(s);
    AfterCallStable(s, "");
    var n := NextEvent(s, AfterToolCall).consumed;
    if NextEvent(s, AfterToolCall).event.IgnoredRest? {
      count, end := st.emittedToolCount, out;
      forall more ensures DropsIn(convert, st, out, count, end, more) {
        JunkDrops(convert, st, out, more);
      }
    } else {
      count, end := DropSwallows(convert, st.(buffer := s[n..], mode := ToolCallMode), out);
      forall more ensures DropsIn(convert, st, out, count, end, more) {
        StartDrops(convert, st, out, n, count, end, more);
      }
    }
  }

  /** All markers in the text are at its very end. */
  ghost predicate MarkersAtEnd(s: string) {
    forall p: nat :: Occurs(s, TOOL_CALL_START, p) ==> p + |TOOL_CALL_START| == |s|
  }

  lemma MarkersAtEndAfter(a: string, s: string)
    requires MarkersAtEnd(a + s)
    ensures MarkersAtEnd(s)
  {
    forall p: nat | Occurs(s, TOOL_CALL_START, p) ensures p + |TOOL_CALL_START| == |s| {
      OccursInSuffix(a, s, TOOL_CALL_START, p);
    }
  }

  lemma {:induction false} NoMoreText(convert: Converter, st: State, chunks: seq<string>, out: ToolParserOutput)
    requires NextEvent(st.buffer, st.mode).Wait? && Concat(chunks) == ""
    ensures DrainChunks(convert, st, chunks, out) == Success((st, out))
    decreases |chunks|
  {
    hide NextEvent;
    ConcatStep(chunks);
    if chunks != [] {
      assert chunks[0] == "" && Concat(chunks[1..]) == "" && st.buffer + "" == st.buffer;
      NoMoreText(convert, st, chunks[1..], out);
    }
  }

  lemma MarkerStarts(s: string, more: string)
    requires NextEvent(s, AfterToolCall).Ready? && NextEvent(s, AfterToolCall).event.CallStart?
    ensures var n := NextEvent(s, AfterToolCall).consumed;
            |TOOL_CALL_START| <= n <= |s| && Occurs(s + more, TOOL_CALL_START, n - |TOOL_CALL_START|)
  {
    var n := NextEvent(s, AfterToolCall).consumed;
    OccursInPrefix(s, more, TOOL_CALL_START, n - |TOOL_CALL_START|);
  }

  /** Text without a marker that could open a call adds nothing, however it arrives. */
  lemma {:induction false} NothingOpens(convert: Converter, st: State, chunks: seq<string>, out: ToolParserOutput)
    requires st.mode == AfterToolCall && NextEvent(st.buffer, AfterToolCall).Wait?
    requires MarkersAtEnd(st.buffer + Concat(chunks))
    ensures Outcome(DrainChunks(convert, st, chunks, out)) == Success(out.(calls := Coalesce(out.calls)))
    decreases |chunks|
  {
    hide NextEvent, Drain, MarkersAtEnd, Coalesce;
    if chunks != [] {
      ConcatStep(chunks);
      var s, rest := st.buffer + chunks[0], Concat(chunks[1..]);
      var whole := st.buffer + Concat(chunks);
      assert whole == s + rest;
      if NextEvent(s, AfterToolCall).Wait? {
        WaitDrains(convert, st.(buffer := s), out);
        NothingOpens(convert, st.(buffer := s), chunks[1..], out);
      } else {
        AfterCallStable(s, "");
        AfterDrains(convert, st.(buffer := s), out);
        EmptyWaits(AfterToolCall);
        EmptyWaits(ToolCallMode);
        if NextEvent(s, AfterToolCall).event.IgnoredRest? {
          MarkersAtEndAfter(s, rest);
          assert "" + rest == rest;
          NothingOpens(convert, st.(buffer := ""), chunks[1..], out);
        } else {
          MarkerStarts(s, rest);
          LastMarker(s, rest);
          var n := NextEvent(s, AfterToolCall).consumed;
          assert rest == "" && s[n..] == "";
          WaitDrains(convert, st.(buffer := "", mode := ToolCallMode), out);
          NoMoreText(convert, st.(buffer := "", mode := ToolCallMode), chunks[1..], out);
        }
      }
    }
  }

  lemma LastMarker(s: string, rest: string)
    requires MarkersAtEnd(s + rest) && NextEvent(s, AfterToolCall).Ready?
             && NextEvent(s, AfterToolCall).event.CallStart?
    ensures NextEvent(s, AfterToolCall).consumed == |s| + |rest|
  {
    hide NextEvent;
    MarkerStarts(s, rest);
  }

  lemma WaitDrains(convert: Converter, st: State, out: ToolParserOutput)
    requires NextEvent(st.buffer, st.mode).Wait?
    ensures Drain(convert, st, out) == Success((st, out))
  {
    hide NextEvent;
  }

  // -------- Chunking is irrelevant where no marker is lost --------

  /** After a drop, what is left has markers at its end only, unless one is lost. */
  lemma RestOpensNothing(d: string, rest: string)
    requires DropsAlone(d) && !LosesMarker(d + rest)
    ensures MarkersAtEnd(rest)
  {
    hide NextEvent, LosesAt;
    forall p: nat | Occurs(rest, TOOL_CALL_START, p) ensures p + |TOOL_CALL_START| == |rest| {
      var all, m := d + rest, |d| + p;
      OccursInSuffix(d, rest, TOOL_CALL_START, p);
      assert all[..m] == d + rest[..p];
      AfterCallStable(d, rest[..p]);
      LosesUnlessLast(all, m);
    }
  }

  lemma LosesUnlessLast(all: string, m: nat)
    requires Occurs(all, TOOL_CALL_START, m) && DropsAlone(all[..m]) && !LosesMarker(all)
    ensures m + |TOOL_CALL_START| == |all|
  {
    hide NextEvent;
    assert !LosesAt(all, m);
  }

  lemma {:induction false} ChunksRunLikeWhole(convert: Converter, st: State, chunks: seq<string>, out: ToolParserOutput)
    requires NextEvent(st.buffer, st.mode).Wait?
    requires !LosesMarker(Dropped(st.buffer + Concat(chunks), st.mode))
    ensures Outcome(DrainChunks(convert, st, chunks, out)) ==
            Outcome(Drain(convert, st.(buffer := st.buffer + Concat(chunks)), out))
    decreases |chunks|
  {
    hide NextEvent, Drain, Dropped, LosesMarker, Outcome, DropsAlone;
    ConcatStep(chunks);
    if chunks == [] {
      assert st.buffer + "" == st.buffer;
      WaitDrains(convert, st, out);
    } else {
      var rest := Concat(chunks[1..]);
      var now := st.(buffer := st.buffer + chunks[0]);
      assert st.buffer + Concat(chunks) == now.buffer + rest;
      if Dropped(now.buffer, now.mode) == "" {
        DrainSplit(convert, now, out, rest);
        var run := Drain(convert, now, out);
        if run.Success? {
          DrainQuiesces(convert, now, out);
          ChunksRunLikeWhole(convert, run.value.0, chunks[1..], run.value.1);
        }
      } else {
        var count, end := DropSwallows(convert, now, out);
        assert DropsIn(convert, now, out, count, end, "") && DropsIn(convert, now, out, count, end, rest);
        assert now.buffer + "" == now.buffer;
        RestOpensNothing(Dropped(now.buffer, now.mode), rest);
        EmptyWaits(AfterToolCall);
        assert "" + rest == rest;
        NothingOpens(convert, State("", AfterToolCall, count), chunks[1..], end);
        EndOutcome(convert, State("", AfterToolCall, count), end);
      }
    }
  }

  lemma EndOutcome(convert: Converter, st: State, out: ToolParserOutput)
    requires st.mode == AfterToolCall
    ensures Outcome(Success((st, out))) == Success(out.(calls := Coalesce(out.calls)))
  {
  }

  lemma {:induction false} DrainQuiesces(convert: Converter, st: State, out: ToolParserOutput)
    ensures Drain(convert, st, out).Success? ==>
              var d := Drain(convert, st, out).value.0; NextEvent(d.buffer, d.mode).Wait?
    decreases |st.buffer|
  {
    hide NextEvent;
    var next := NextEvent(st.buffer, st.mode);
    if next.Ready? {
      var (st1, out1) := Apply(convert, st, out, next.event, next.consumed);
      DrainQuiesces(convert, st1.(buffer := st1.buffer[next.consumed..]), out1);
    }
  }

  // -------- Chunking matters where a marker is lost --------

  /** Calls so far are numbered from 0, one delta each. */
  ghost predicate Counted(st: State, out: ToolParserOutput) {
    |out.calls| == st.emittedToolCount && forall k :: 0 <= k < |out.calls| ==> out.calls[k].toolIndex == k
  }

  lemma {:induction false} DrainCounts(convert: Converter, st: State, out: ToolParserOutput)
    requires Counted(st, out)
    ensures Drain(convert, st, out).Success? ==>
              var d := Drain(convert, st, out).value; Counted(d.0, d.1) && |out.calls| <= |d.1.calls|
    decreases |st.buffer|
  {
    hide NextEvent;
    var next := NextEvent(st.buffer, st.mode);
    if next.Ready? {
      var (st1, out1) := Apply(convert, st, out, next.event, next.consumed);
      DrainCounts(convert, st1.(buffer := st1.buffer[next.consumed..]), out1);
    }
  }

  /** Text inside a call gives another call or an error. */
  lemma OpenCallMatters(convert: Converter, st: State, out: ToolParserOutput)
    requires st.mode == ToolCallMode && st.buffer != "" && Counted(st, out)
    ensures var end := Outcome(Drain(convert, st, out)); end.Success? ==> |out.calls| < |end.value.calls|
  {
    hide NextEvent, Drain, ParseBody, Find, Coalesce;
    var i := Find(st.buffer, TOOL_CALL_END);
    if i.None? {
      NoEndWaits(st.buffer);
      WaitDrains(convert, st, out);
    } else {
      CallDrains(convert, st, out, i.value);
      var body := ParseBody(st.buffer[..i.value]);
      if body.Some? {
        var next, out1 := CallState(st, i.value), CallOutput(convert, st, out, body.value);
        DrainCounts(convert, next, out1);
        var run := Drain(convert, next, out1);
        if run.Success? {
          GR.NumberedAreMerged(run.value.1.calls);
        }
      }
    }
  }

  lemma TextPrefix(s: string, m: nat)
    requires Find(s, TOOL_CALL_START).Some? && m <= |Dropped(s, TextMode)|
    ensures var d := Dropped(s, TextMode);
            var t := s[Find(s, TOOL_CALL_START).value + |TOOL_CALL_START|..];
            && d == Dropped(t, ToolCallMode)
            && Dropped(s[..|s| - |d| + m], TextMode) == Dropped(t[..|t| - |d| + m], ToolCallMode)
  {
    hide Find, Dropped;
    TextDropped(s);
    var d, i := Dropped(s, TextMode), Find(s, TOOL_CALL_START).value;
    var t, b := s[i + |TOOL_CALL_START|..], s[..|s| - |d| + m];
    FindInPrefix(s, b, TOOL_CALL_START);
    TextDropped(b);
    assert b[i + |TOOL_CALL_START|..] == t[..|t| - |d| + m];
  }

  lemma CallPrefix(s: string, m: nat)
    requires Find(s, TOOL_CALL_END).Some? && ParseBody(s[..Find(s, TOOL_CALL_END).value]).Some?
    requires m <= |Dropped(s, ToolCallMode)|
    ensures var d := Dropped(s, ToolCallMode);
            var t := s[Find(s, TOOL_CALL_END).value + |TOOL_CALL_END|..];
            && d == Dropped(t, AfterToolCall)
            && Dropped(s[..|s| - |d| + m], ToolCallMode) == Dropped(t[..|t| - |d| + m], AfterToolCall)
  {
    hide Find, Dropped, ParseBody;
    CallDropped(s);
    var d, i := Dropped(s, ToolCallMode), Find(s, TOOL_CALL_END).value;
    var t, b := s[i + |TOOL_CALL_END|..], s[..|s| - |d| + m];
    FindInPrefix(s, b, TOOL_CALL_END);
    CallDropped(b);
    assert b[..i] == s[..i] && b[i + |TOOL_CALL_END|..] == t[..|t| - |d| + m];
  }

  lemma AfterPrefix(s: string, m: nat)
    requires NextEvent(s, AfterToolCall).Ready? && NextEvent(s, AfterToolCall).event.CallStart?
    requires m <= |Dropped(s, AfterToolCall)|
    ensures var d := Dropped(s, AfterToolCall);
            var t := s[NextEvent(s, AfterToolCall).consumed..];
            && d == Dropped(t, ToolCallMode)
            && Dropped(s[..|s| - |d| + m], AfterToolCall) == Dropped(t[..|t| - |d| + m], ToolCallMode)
  {
    hide NextEvent, Dropped;
    AfterDropped(s);
    var d, n := Dropped(s, AfterToolCall), NextEvent(s, AfterToolCall).consumed;
    var t, b := s[n..], s[..|s| - |d| + m];
    StartInPrefix(s, b);
    AfterDropped(b);
    assert b[n..] == t[..|t| - |d| + m];
  }

  /** The dropped rest of a text cut short inside it. */
  lemma {:induction false} DroppedPrefix(s: string, mode: Mode, m: nat)
    requires m <= |Dropped(s, mode)| && DropsAlone(Dropped(s, mode)[..m])
    ensures Dropped(s[..|s| - |Dropped(s, mode)| + m], mode) == Dropped(s, mode)[..m]
    decreases |s|
  {
    hide NextEvent, Find, Dropped, ParseBody, DropsAlone;
    var d := Dropped(s, mode);
    DropsSomething(d[..m]);
    match mode {
      case TextMode =>
        TextDropped(s);
        TextPrefix(s, m);
        DroppedPrefix(s[Find(s, TOOL_CALL_START).value + |TOOL_CALL_START|..], ToolCallMode, m);
      case ToolCallMode =>
        CallDropped(s);
        CallPrefix(s, m);
        DroppedPrefix(s[Find(s, TOOL_CALL_END).value + |TOOL_CALL_END|..], AfterToolCall, m);
      case AfterToolCall =>
        AfterDropped(s);
        DropTakesAll(s);
        AfterCallStable(s, "");
        if NextEvent(s, AfterToolCall).event.CallStart? {
          AfterPrefix(s, m);
          DroppedPrefix(s[NextEvent(s, AfterToolCall).consumed..], ToolCallMode, m);
        } else {
          assert s[..|s| - |d| + m] == d[..m];
          AfterDropped(d[..m]);
          AloneIsEvent(d[..m]);
        }
    }
  }

  lemma DropsSomething(s: string)
    requires DropsAlone(s)
    ensures s != ""
  {
  }

  lemma AloneIsEvent(s: string)
    requires DropsAlone(s)
    ensures NextEvent(s, AfterToolCall) == Ready(IgnoredRest, |s|)
  {
  }

  lemma FindInPrefix(s: string, b: string, p: string)
    requires b <= s && Find(s, p).Some? && Find(s, p).value + |p| <= |b|
    ensures Find(b, p) == Find(s, p)
  {
    hide Find;
    assert s == b + s[|b|..];
    forall i ensures i + |p| <= |b| ==> (Occurs(b, p, i) <==> Occurs(s, p, i)) {
      if i + |p| <= |b| {
        OccursInPrefix(b, s[|b|..], p, i);
      }
    }
    FindIsFirst(b, p, Find(s, p).value);
  }

  lemma StartInPrefix(s: string, b: string)
    requires b <= s && NextEvent(s, AfterToolCall).Ready? && NextEvent(s, AfterToolCall).event.CallStart?
    requires NextEvent(s, AfterToolCall).consumed <= |b|
    ensures NextEvent(b, AfterToolCall) == NextEvent(s, AfterToolCall)
  {
    var n := NextEvent(s, AfterToolCall).consumed;
    var at := n - |TOOL_CALL_START|;
    assert s == b + s[|b|..];
    OccursInPrefix(b, s[|b|..], TOOL_CALL_START, at);
    assert b[at] == s[at];
    SkipSpaceIs(b, 0, at);
  }

  // -------- The theorem --------

  ghost predicate ParsesAlike(convert: Converter, text: string) {
    forall a, b :: Concat(a) == text && Concat(b) == text ==> ParseChunks(convert, a) == ParseChunks(convert, b)
  }

  lemma TwoPieces(text: string, n: nat)
    requires n <= |text|
    ensures Concat([text]) == text && Concat([text[..n], text[n..]]) == text
  {
    hide Concat;
    var pieces := [text[..n], text[n..]];
    ConcatStep([text]);
    ConcatStep(pieces);
    ConcatStep(pieces[1..]);
    ConcatStep([]);
    assert [text][1..] == [] && pieces[1..] == [text[n..]] && pieces[1..][1..] == [];
    assert text + "" == text && text[n..] + "" == text[n..] && text[..n] + text[n..] == text;
  }

  /** Up to a lost marker, and over the whole text, the parser reads the same. */
  lemma FrontReadsLikeWhole(convert: Converter, text: string, m: nat) returns (count: nat, end: ToolParserOutput)
    requires LosesAt(Dropped(text, TextMode), m)
    ensures var n := |text| - |Dropped(text, TextMode)| + m;
            && n <= |text| && text[n..] == Dropped(text, TextMode)[m..]
            && Drain(convert, InitialState.(buffer := text[..n]), NoOutput) ==
              Success((State("", AfterToolCall, count), end))
            && Drain(convert, InitialState.(buffer := text), NoOutput) ==
              Success((State("", AfterToolCall, count), end))
  {
    hide NextEvent, Drain, Dropped, Find, DropsAlone;
    var d := Dropped(text, TextMode);
    var n := |text| - |d| + m;
    var front, back := text[..n], text[n..];
    DroppedPrefix(text, TextMode, m);
    DropsSomething(d[..m]);
    count, end := DropSwallows(convert, InitialState.(buffer := front), NoOutput);
    assert DropsIn(convert, InitialState.(buffer := front), NoOutput, count, end, "");
    assert DropsIn(convert, InitialState.(buffer := front), NoOutput, count, end, back);
    assert front + back == text && front + "" == front;
    DroppedIsLast(text, TextMode);
    assert text[n..] == text[|text| - |d|..][m..];
  }

  /** Cut in front of a lost marker, a text gives another call or an error. */
  lemma LostMarkerMatters(convert: Converter, text: string, m: nat)
    requires LosesAt(Dropped(text, TextMode), m)
    ensures var n := |text| - |Dropped(text, TextMode)| + m;
            n <= |text| && ParseChunks(convert, [text]) != ParseChunks(convert, [text[..n], text[n..]])
  {
    hide NextEvent, Drain, Dropped, Coalesce, LosesAt, Outcome;
    var d := Dropped(text, TextMode);
    var n := |text| - |d| + m;
    var count, end := FrontReadsLikeWhole(convert, text, m);
    var front, back := text[..n], text[n..];
    var after := State("", AfterToolCall, count);
    assert "" + front == front && "" + text == text && "" + back == back;
    OneChunkRun(convert, InitialState, text, NoOutput);
    TwoChunkRun(convert, InitialState, front, back, NoOutput, after, end);
    DrainCounts(convert, InitialState.(buffer := front), NoOutput);
    GR.NumberedAreMerged(end.calls);
    EndOutcome(convert, after, end);
    LostMarker(d, m);
    AfterDrains(convert, after.(buffer := back), end);
    OpenCallMatters(convert, State(back[|TOOL_CALL_START|..], ToolCallMode, count), end);
  }

  lemma OneChunkRun(convert: Converter, st: State, text: string, out: ToolParserOutput)
    ensures DrainChunks(convert, st, [text], out) == Drain(convert, st.(buffer := st.buffer + text), out)
  {
    hide Drain;
    assert [text][1..] == [];
  }

  lemma TwoChunkRun(convert: Converter, st: State, a: string, b: string, out: ToolParserOutput, mid: State,
      end: ToolParserOutput)
    requires Drain(convert, st.(buffer := st.buffer + a), out) == Success((mid, end))
    ensures DrainChunks(convert, st, [a, b], out) == Drain(convert, mid.(buffer := mid.buffer + b), end)
  {
    hide Drain;
    assert [a, b][1..] == [b];
    OneChunkRun(convert, mid, b, end);
  }

  lemma LostMarker(d: string, m: nat)
    requires LosesAt(d, m)
    ensures m + |TOOL_CALL_START| < |d| && DropsAlone(d[..m])
    ensures NextEvent(d[m..], AfterToolCall) == Ready(CallStart, |TOOL_CALL_START|)
  {
    var s := d[m..];
    assert s[..|TOOL_CALL_START|] == TOOL_CALL_START && s[0] == TOOL_CALL_START[0];
    SkipSpaceIs(s, 0, 0);
  }

  /**
   All chunkings of a text give the same result exactly if, in the rest that is dropped when the
   text is parsed whole, no marker with more behind it follows text that would be dropped alone.
   */
  lemma ChunkingMattersExactly(convert: Converter, text: string)
    ensures ParsesAlike(convert, text) <==> !LosesMarker(Dropped(text, TextMode))
  {
    hide ParseChunks, Dropped, LosesAt;
    if m :| LosesAt(Dropped(text, TextMode), m) {
      LostMarkerMatters(convert, text, m);
      TwoPieces(text, |text| - |Dropped(text, TextMode)| + m);
    } else {
      forall a | Concat(a) == text
        ensures ParseChunks(convert, a) == Outcome(Drain(convert, InitialState.(buffer := text), NoOutput)) {
        WholeRun(convert, text, a);
      }
    }
  }

  lemma WholeRun(convert: Converter, text: string, chunks: seq<string>)
    requires Concat(chunks) == text && !LosesMarker(Dropped(text, TextMode))
    ensures ParseChunks(convert, chunks) == Outcome(Drain(convert, InitialState.(buffer := text), NoOutput))
  {
    hide NextEvent, Drain, Dropped, LosesMarker, Outcome;
    EmptyWaits(TextMode);
    assert "" + text == text;
    ChunksRunLikeWhole(convert, InitialState, chunks, NoOutput);
  }

  // -------- A lost call --------

  lemma LetterCall(convert: Converter, name: string, rest: string, count: nat, out: ToolParserOutput)
    requires name in ["f", "g"]
    ensures Drain(convert, State(name + TOOL_CALL_END + rest, ToolCallMode, count), out) ==
            Drain(convert, State(rest, AfterToolCall, count + 1),
              out.AddCall(ToolCallDelta(count, Some(name), convert(name, []))))
  {
    var c := GR.PrintedCall("", name, "", [], "");
    assert GR.PrintBody(c) == name;
    GR.CallIsRead(convert, c, rest, count, out);
  }

  /** Two calls with a letter between them: one call in one chunk, two in two. */
  lemma LetterLosesCall(convert: Converter)
    ensures var first, second := "<tool_call>f</tool_call>x", "<tool_call>g</tool_call>";
            var f, g := ToolCallDelta(0, Some("f"), convert("f", [])), ToolCallDelta(1, Some("g"), convert("g", []));
            && ParseChunks(convert, [first + second]) == Success(ToolParserOutput("", [f]))
            && ParseChunks(convert, [first, second]) == Success(ToolParserOutput("", [f, g]))
  {
    hide Drain, NextEvent, Find, Coalesce, DrainChunks, Outcome;
    var first, second := "<tool_call>f</tool_call>x", "<tool_call>g</tool_call>";
    var f, g := ToolCallDelta(0, Some("f"), convert("f", [])), ToolCallDelta(1, Some("g"), convert("g", []));
    var after, end := State("", AfterToolCall, 1), ToolParserOutput("", [f]);
    FirstCall(convert, "x");
    FirstCall(convert, "x" + second);
    LetterLayout(second);
    assert "" + first == first && "" + (first + second) == first + second;
    OneChunkRun(convert, InitialState, first + second, NoOutput);
    TwoChunkRun(convert, InitialState, first, second, NoOutput, after, end);
    SecondCall(convert, after, end);
    assert end.AddCall(g) == ToolParserOutput("", [f, g]);
    EndOutcome(convert, after, end);
    EndOutcome(convert, State("", AfterToolCall, 2), end.AddCall(g));
    GR.NumberedAreMerged([f]);
    GR.NumberedAreMerged([f, g]);
  }

  lemma LetterLayout(second: string)
    ensures "<tool_call>f</tool_call>x" == TOOL_CALL_START + ("f" + TOOL_CALL_END + "x")
    ensures "<tool_call>f</tool_call>x" + second == TOOL_CALL_START + ("f" + TOOL_CALL_END + ("x" + second))
  {
    var first := TOOL_CALL_START + ("f" + TOOL_CALL_END + "x");
    assert first == "<tool_call>f</tool_call>x";
    assert first + second == TOOL_CALL_START + ("f" + TOOL_CALL_END + ("x" + second));
  }

  lemma FirstCall(convert: Converter, junk: string)
    requires junk != "" && junk[0] == 'x'
    ensures Drain(convert, InitialState.(buffer := TOOL_CALL_START + ("f" + TOOL_CALL_END + junk)), NoOutput) ==
            Success((State("", AfterToolCall, 1),
              ToolParserOutput("", [ToolCallDelta(0, Some("f"), convert("f", []))])))
  {
    hide Drain, NextEvent;
    var inside := "f" + TOOL_CALL_END + junk;
    var s := TOOL_CALL_START + inside;
    assert s[0..|TOOL_CALL_START|] == TOOL_CALL_START;
    FindIsFirst(s, TOOL_CALL_START, 0);
    MarkedDrains(convert, InitialState.(buffer := s), NoOutput, 0);
    assert s[|TOOL_CALL_START|..] == inside && NoOutput.AddText(s[..0]) == NoOutput;
    assert NoOutput.calls + [ToolCallDelta(0, Some("f"), convert("f", []))] ==
      [ToolCallDelta(0, Some("f"), convert("f", []))];
    LetterCall(convert, "f", junk, 0, NoOutput);
    XIsDropped(junk);
    AfterDrains(convert, State(junk, AfterToolCall, 1),
      NoOutput.AddCall(ToolCallDelta(0, Some("f"), convert("f", []))));
  }

  lemma XIsDropped(junk: string)
    requires junk != "" && junk[0] == 'x'
    ensures NextEvent(junk, AfterToolCall) == Ready(IgnoredRest, |junk|)
  {
    SkipSpaceIs(junk, 0, 0);
    assert |TOOL_CALL_START| <= |junk| ==> junk[0..|TOOL_CALL_START|][0] == junk[0];
    assert junk[0..] == junk && TOOL_CALL_START[0] == '<';
    assert |junk| < |TOOL_CALL_START| ==> TOOL_CALL_START[..|junk|][0] == '<';
  }

  lemma SecondCall(convert: Converter, st: State, out: ToolParserOutput)
    requires st == State("", AfterToolCall, 1)
    ensures Drain(convert, st.(buffer := "" + "<tool_call>g</tool_call>"), out) ==
            Success((State("", AfterToolCall, 2), out.AddCall(ToolCallDelta(1, Some("g"), convert("g", [])))))
  {
    hide Drain, NextEvent;
    var s := "<tool_call>g</tool_call>";
    assert s == "" + (TOOL_CALL_START + ("g" + TOOL_CALL_END + "")) && "" + s == s;
    GR.GapThenMarker("", "g" + TOOL_CALL_END + "");
    AfterDrains(convert, st.(buffer := s), out);
    LetterCall(convert, "g", "", 1, out);
    EmptyWaits(AfterToolCall);
    WaitDrains(convert, State("", AfterToolCall, 2), out.AddCall(ToolCallDelta(1, Some("g"), convert("g", []))));
  }
}
