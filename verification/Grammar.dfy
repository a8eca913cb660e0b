/** The JSON tool-call format as one function of the whole text, and the parser's agreement with it. */
module Grammar {
  import opened Wrappers
  import opened Text
  import opened Output
  import opened Lexing
  import opened Combinators
  import opened JsonParser
  import opened ChunkInvariance

  // -------- Reading a whole text --------

  /** Text up to the first start marker, then a call; a marker that opens nothing leaves the rest as text. */
  function ReadText(config: Config, s: string, index: nat, out: ToolParserOutput): Result<ToolParserOutput, ParseError>
    decreases |s|
  {
    match Find(s, config.startMarker)
    case None => Success(out.AddText(s))
    case Some(i) =>
      match NextInText(config, s[i..])
      case Ready(CallStart, n) =>
        if n <= |s| - i && 0 < n then ReadCall(config, s[i + n..], index, out.AddText(s[..i]))
        else Failure(BadSyntax)
      case _ => Success(out.AddText(s))
  }

  /** A header, one argument object, and what closes it. */
  function ReadCall(config: Config, s: string, index: nat, out: ToolParserOutput): Result<ToolParserOutput, ParseError>
    decreases |s|
  {
    match NextEvent(config, s, HeaderMode)
    case Wait => Failure(UnfinishedCall)
    case Bad => Failure(BadSyntax)
    case Ready(header, n) =>
      var args := s[n..];
      match ScanText(FreshScan, args)
      case Open(_) => Failure(UnfinishedCall)
      case Failed => Failure(BadSyntax)
      case Closed(k) =>
        var name := if header.CallHeader? then header.functionName else "";
        var rest, out' := args[k..], out.AddCall(ToolCallDelta(index, Some(name), args[..k]));
        match NextEvent(config, rest, ArgumentsMode(ClosedScan))
        case Wait => Failure(UnfinishedCall)
        case Ready(CallEnd, m) => ReadText(config, rest[m..], index + 1, out')
        case Ready(CallDelimiter, m) => ReadCall(config, rest[m..], index + 1, out')
        case _ => Failure(BadSyntax)
  }

  // -------- Running the parser over chunks --------

  function PushAll(config: Config, st: State, chunks: seq<string>, out: ToolParserOutput)
    : Result<(State, ToolParserOutput), ParseError>
    decreases |chunks|
  {
    if chunks == [] then Success((st, out))
    else match Push(config, st, chunks[0], out)
      case Failure(e) => Failure(e)
      case Success(d) => PushAll(config, d.0, chunks[1..], d.1)
  }

  function Merged(out: ToolParserOutput): ToolParserOutput {
    out.(calls := Coalesce(out.calls))
  }

  /** Finish a run and merge its calls. */
  function Outcome(run: Result<(State, ToolParserOutput), ParseError>): Result<ToolParserOutput, ParseError> {
    match run
    case Failure(e) => Failure(e)
    case Success(d) => match Finish(d.0, d.1) case Failure(e) => Failure(e) case Success(o) => Success(Merged(o))
  }

  function ParseChunks(config: Config, chunks: seq<string>): Result<ToolParserOutput, ParseError> {
    Outcome(PushAll(config, InitialState, chunks, NoOutput))
  }

  lemma DrainQuiesces(config: Config, st: State, out: ToolParserOutput)
    ensures Drain(config, st, out).Success? ==>
              var end := Drain(config, st, out).value.0; NextEvent(config, end.buffer, end.mode).Wait?
    decreases |st.buffer|
  {
    hide NextEvent;
    var next := NextEvent(config, st.buffer, st.mode);
    if next.Ready? && Apply(st, out, next.event, next.consumed).Success? {
      var (st1, out1) := Apply(st, out, next.event, next.consumed).value;
      DrainQuiesces(config, st1.Skip(next.consumed), out1);
    }
  }

  /** Any run over pieces is a run over the whole. */
  lemma {:induction false} PushAllIsPush(config: Config, st: State, chunks: seq<string>, out: ToolParserOutput)
    requires config.WellFormed() && st.Valid() && NextEvent(config, st.buffer, st.mode).Wait?
    ensures SameRun(PushAll(config, st, chunks, out), Push(config, st, Concat(chunks), out))
    decreases |chunks|
  {
    hide NextEvent;
    if chunks == [] {
      assert st.Extend("") == st;
    } else {
      var c, rest := chunks[0], Concat(chunks[1..]);
      DrainSplit(config, st.Extend(c), out, rest);
      assert st.Extend(c).Extend(rest) == st.Extend(c + rest) by {
        assert st.buffer + c + rest == st.buffer + (c + rest);
      }
      var pushed := Push(config, st, c, out);
      if pushed.Success? {
        DrainQuiesces(config, st.Extend(c), out);
        DrainKeepsValid(config, st.Extend(c), out);
        PushAllIsPush(config, pushed.value.0, chunks[1..], pushed.value.1);
      }
    }
  }

  // -------- The run reads the grammar --------

  /** All calls so far are numbered below `index`. */
  ghost predicate Below(out: ToolParserOutput, index: nat) {
    forall k :: 0 <= k < |out.calls| ==> out.calls[k].toolIndex < index
  }

  lemma NewCallMerges(out: ToolParserOutput, index: nat, name: string, args: string)
    requires Below(out, index)
    ensures var begun := out.AddCall(ToolCallDelta(index, Some(name), ""));
            Merged(begun.AddCall(ToolCallDelta(index, None, args)))
            == Merged(out).AddCall(ToolCallDelta(index, Some(name), args))
  {
    hide Coalesce, Slot;
    var m := Coalesce(out.calls);
    CoalesceIndices(out.calls, index);
    assert Slot(m, index) == |m|;
    CoalesceSnoc(out.calls, ToolCallDelta(index, Some(name), ""));
    CoalesceSnoc(out.calls + [ToolCallDelta(index, Some(name), "")], ToolCallDelta(index, None, args));
    SlotIs(m + [ToolCallDelta(index, Some(name), "")], index, |m|);
    assert "" + args == args;
  }

  /** One turn of the parse loop. */
  lemma DrainStep(config: Config, st: State, out: ToolParserOutput)
    ensures var next := NextEvent(config, st.buffer, st.mode);
            && (next.Wait? ==> Drain(config, st, out) == Success((st, out)))
            && (next.Bad? ==> Drain(config, st, out) == Failure(BadSyntax))
            && (next.Ready? && Apply(st, out, next.event, next.consumed).Success? ==>
                  var d := Apply(st, out, next.event, next.consumed).value;
                  Drain(config, st, out) == Drain(config, d.0.Skip(next.consumed), d.1))
  {
    hide NextEvent;
  }

  lemma {:induction false} DrainReadsText(config: Config, st: State, out: ToolParserOutput)
    requires config.WellFormed() && st.mode == TextMode && Below(out, st.emittedToolCount)
    ensures Outcome(Drain(config, st, out)) == ReadText(config, st.buffer, st.emittedToolCount, Merged(out))
    decreases |st.buffer|
  {
    hide NextInText, Drain, Find, SafeTextLen, ReadCall;
    var s := st.buffer;
    TextModeDrains(config, st, out);
    match Find(s, config.startMarker) {
      case None =>
        var n := SafeTextLen(s, config.startMarker);
        assert out.normalText + s[..n] + s[n..] == out.normalText + s;
      case Some(i) =>
        var at, out1 := st.Skip(i), out.AddText(s[..i]);
        MarkerOpensOrStalls(config, s, i);
        DrainStep(config, at, out1);
        assert out.normalText + s[..i] + s[i..] == out.normalText + s;
        match NextInText(config, s[i..]) {
          case Ready(_, n) =>
            var inside := at.(mode := HeaderMode).Skip(n);
            assert inside.buffer == s[i + n..];
            DrainReadsCall(config, inside, out1);
          case _ =>
        }
    }
  }

  /** At a marker, text mode opens a call or waits for good. */
  lemma MarkerOpensOrStalls(config: Config, s: string, i: nat)
    requires config.WellFormed() && Find(s, config.startMarker) == Some(i)
    ensures var next := NextInText(config, s[i..]);
            next.Wait? || (next.Ready? && next.event == CallStart && 0 < next.consumed <= |s| - i)
  {
    hide NextInText;
    OccursInSuffix(s[..i], s[i..], config.startMarker, 0);
    assert s[..i] + s[i..] == s;
    AtMarker(config, s[i..]);
  }

  lemma AtMarker(config: Config, t: string)
    requires config.WellFormed() && Occurs(t, config.startMarker, 0)
    ensures var next := NextInText(config, t);
            next.Wait? || (next.Ready? && next.event == CallStart && 0 < next.consumed <= |t|)
  {
    FindIsFirst(t, config.startMarker, 0);
    hide Find, FindFrom, PartialPrefixLen;
    var items, n := StartItems(config), |config.startMarker|;
    assert ParseItem(t, 0, items[0], config.decode) == Done(Matched(n, []));
    assert items[1..] == [MarkerSpace(config)];
    assert !ParseItems(t, n, [MarkerSpace(config)], config.decode).Cut?;
    assert ParseItems(t, 0, items, config.decode).Done? ==> n <= ParseItems(t, 0, items, config.decode).value.end;
  }

  lemma {:induction false} DrainReadsCall(config: Config, st: State, out: ToolParserOutput)
    requires config.WellFormed() && st.mode == HeaderMode && Below(out, st.emittedToolCount)
    ensures Outcome(Drain(config, st, out)) == ReadCall(config, st.buffer, st.emittedToolCount, Merged(out))
    decreases |st.buffer|
  {
    hide NextInText, NextInHeader, NextAfterArguments, ScanText, Drain, ReadText;
    var s, index := st.buffer, st.emittedToolCount;
    HeaderEvent(config, s);
    DrainStep(config, st, out);
    match NextEvent(config, s, HeaderMode) {
      case Ready(CallHeader(name), n) =>
        var args := s[n..];
        var begun := out.AddCall(ToolCallDelta(index, Some(name), ""));
        var st1 := State(args, ArgumentsMode(FreshScan), Some(index), index + 1);
        DrainReadsArguments(config, st1, out, name);
      case _ =>
    }
  }

  lemma HeaderEvent(config: Config, s: string)
    ensures NextEvent(config, s, HeaderMode).Ready? ==> NextEvent(config, s, HeaderMode).event.CallHeader?
  {
  }

  lemma {:induction false} DrainReadsArguments(config: Config, st: State, out: ToolParserOutput, name: string)
    requires config.WellFormed() && st.mode == ArgumentsMode(FreshScan) && 0 < st.emittedToolCount
    requires var index := st.emittedToolCount - 1; st.activeToolIndex == Some(index) && Below(out, index)
    ensures var args, index := st.buffer, st.emittedToolCount - 1;
            Outcome(Drain(config, st, out.AddCall(ToolCallDelta(index, Some(name), "")))) ==
            match ScanText(FreshScan, args)
            case Open(_) => Failure(UnfinishedCall)
            case Failed => Failure(BadSyntax)
            case Closed(k) =>
              var rest, out' := args[k..], Merged(out).AddCall(ToolCallDelta(index, Some(name), args[..k]));
              match NextEvent(config, rest, ArgumentsMode(ClosedScan))
              case Wait => Failure(UnfinishedCall)
              case Ready(CallEnd, m) => ReadText(config, rest[m..], index + 1, out')
              case Ready(CallDelimiter, m) => ReadCall(config, rest[m..], index + 1, out')
              case _ => Failure(BadSyntax)
    decreases |st.buffer|
  {
    hide NextInText, NextInHeader, NextAfterArguments, Drain, ReadText, ReadCall;
    DrainStep(config, st, out.AddCall(ToolCallDelta(st.emittedToolCount - 1, Some(name), "")));
    var args, index := st.buffer, st.emittedToolCount - 1;
    var begun := out.AddCall(ToolCallDelta(index, Some(name), ""));
    match ScanText(FreshScan, args) {
      case Open(mid) =>
        ScanTextSound(FreshScan, args);
        if args != "" {
          ArgumentsStep(config, st, begun);
          DrainStep(config, st.(mode := ArgumentsMode(mid), buffer := args[|args|..]),
                    begun.AddCall(ToolCallDelta(index, None, args[..|args|])));
        }
      case Failed =>
      case Closed(k) =>
        ArgumentsStep(config, st, begun);
        var st1 := st.(mode := ArgumentsMode(ClosedScan), buffer := args[k..]);
        var out1 := begun.AddCall(ToolCallDelta(index, None, args[..k]));
        NewCallMerges(out, index, name, args[..k]);
        DrainReadsClose(config, st1, out1);
    }
  }

  lemma {:induction false} DrainReadsClose(config: Config, st: State, out: ToolParserOutput)
    requires config.WellFormed() && st.mode == ArgumentsMode(ClosedScan) && Below(out, st.emittedToolCount)
    ensures Outcome(Drain(config, st, out)) ==
            match NextEvent(config, st.buffer, ArgumentsMode(ClosedScan))
            case Wait => Failure(UnfinishedCall)
            case Ready(CallEnd, m) => ReadText(config, st.buffer[m..], st.emittedToolCount, Merged(out))
            case Ready(CallDelimiter, m) => ReadCall(config, st.buffer[m..], st.emittedToolCount, Merged(out))
            case _ => Failure(BadSyntax)
    decreases |st.buffer|
  {
    hide NextInText, NextInHeader, NextAfterArguments, Drain, ReadText, ReadCall;
    CloseEvent(config, st.buffer);
    DrainStep(config, st, out);
    match NextEvent(config, st.buffer, st.mode) {
      case Ready(CallEnd, m) => DrainReadsText(config, st.(mode := TextMode, activeToolIndex := None).Skip(m), out);
      case Ready(CallDelimiter, m) =>
        DrainReadsCall(config, st.(mode := HeaderMode, activeToolIndex := None).Skip(m), out);
      case _ =>
    }
  }

  lemma CloseEvent(config: Config, s: string)
    ensures var next := NextEvent(config, s, ArgumentsMode(ClosedScan));
            next.Ready? ==> next.event.CallEnd? || next.event.CallDelimiter?
  {
  }

  // -------- The theorems --------

  /** Every chunking of a text parses to what the grammar reads in the whole text. */
  lemma ParseChunksReadsWhole(config: Config, chunks: seq<string>)
    requires config.WellFormed()
    ensures ParseChunks(config, chunks) == ReadText(config, Concat(chunks), 0, NoOutput)
  {
    hide ReadText;
    var text := Concat(chunks);
    PushAllIsPush(config, InitialState, chunks, NoOutput);
    assert InitialState.Extend(text).buffer == text;
    DrainReadsText(config, InitialState.Extend(text), NoOutput);
  }

  /** Two chunkings of one text fail together, or give the same text and the same calls. */
  lemma ChunkingIsIrrelevant(config: Config, a: seq<string>, b: seq<string>)
    requires config.WellFormed() && Concat(a) == Concat(b)
    ensures ParseChunks(config, a) == ParseChunks(config, b)
  {
    ParseChunksReadsWhole(config, a);
    ParseChunksReadsWhole(config, b);
  }

  /** `ToolParser::parse_complete` on a new parser. */
  method ParseComplete(config: Config, text: string) returns (r: Result<ToolParserOutput, ParseError>)
    requires config.WellFormed()
    ensures r == ReadText(config, text, 0, NoOutput)
  {
    hide ReadText;
    ParseChunksReadsWhole(config, [text]);
    assert Concat([text]) == text;
    assert PushAll(config, InitialState, [text], NoOutput) == Push(config, InitialState, text, NoOutput);
    var parser := new JsonToolCallParser(config);
    var pushed := parser.ParseInto(text, NoOutput);
    if pushed.Failure? {
      return pushed;
    }
    var finished := parser.FinishParse();
    if finished.Failure? {
      return finished;
    }
    ghost var d := PushAll(config, InitialState, [text], NoOutput).value;
    assert pushed.value.Append(finished.value) == d.1.AddText(d.0.buffer) by {
      assert "" + d.0.buffer == d.0.buffer;
    }
    var merged := CoalesceCalls(pushed.value.Append(finished.value));
    return Success(merged);
  }
}
