/** The marker-wrapped JSON tool-call parser (src/vllm_tool_parser/json). */
module JsonParser {
  import opened Wrappers
  import opened Text
  import opened Output
  import opened Lexing
  import opened Combinators

  datatype Whitespace = Optional | Exact(text: string)

  /** `JsonToolCallConfig`, with serde_json's string decoding as `decode`. */
  datatype Config = Config(
    startMarker: string, endMarker: string, whitespace: Whitespace, delimiter: Option<string>,
    nameKey: string, argumentsKeys: seq<string>, decode: Decoder)
  {
    predicate WellFormed() {
      startMarker != "" && Ascii(startMarker)
    }
  }

  function HermesConfig(decode: Decoder): Config {
    Config(TOOL_CALL_START, TOOL_CALL_END, Optional, None, "name", ["arguments"], decode)
  }

  function QwenConfig(decode: Decoder): Config {
    Config(TOOL_CALL_START, TOOL_CALL_END, Exact("\n"), None, "name", ["arguments"], decode)
  }

  // -------- The event grammar --------

  datatype Mode = TextMode | HeaderMode | ArgumentsMode(scan: Scan)

  datatype Event =
    | TextRun(len: nat)
    | CallStart
    | CallHeader(functionName: string)
    | ArgumentsRun(len: nat, scan: Scan)
    | CallDelimiter
    | CallEnd

  /** `parse_buffered_event`: an event and its length, a wait for more input, or an error. */
  datatype Next = Ready(event: Event, consumed: nat) | Wait | Bad

  function MarkerSpace(config: Config): Item {
    match config.whitespace case Optional => Ws case Exact(text) => Lit(text)
  }

  function StartItems(config: Config): seq<Item> {
    [Lit(config.startMarker), MarkerSpace(config)]
  }

  function HeaderItems(config: Config): seq<Item> {
    [Ws, Lit("{"), Ws, Lit("\""), Lit(config.nameKey), Lit("\""), Ws, Lit(":"), Ws, Str, Ws, Lit(","),
     Ws, KeyIn(config.argumentsKeys), Ws, Lit(":"), Ws]
  }

  function EndItems(config: Config): seq<Item> {
    [MarkerSpace(config), Lit(config.endMarker)]
  }

  function DelimiterItems(delimiter: string): seq<Item> {
    [Ws, Lit(delimiter), Ws]
  }

  function FromParsed(event: Event, r: Parsed<Matched>): Next {
    match r
    case Done(m) => if m.end == 0 then Wait else Ready(event, m.end)
    case Incomplete => Wait
    case _ => Bad
  }

  /** Text mode: a start marker, else released text; an empty release counts as a wait. */
  function NextInText(config: Config, s: string): Next {
    match ParseItems(s, 0, StartItems(config), config.decode)
    case Done(m) => if m.end == 0 then Wait else Ready(CallStart, m.end)
    case Incomplete => Wait
    case Cut => Bad
    case Backtrack =>
      var n := SafeTextLen(s, config.startMarker);
      if n == 0 then Wait else Ready(TextRun(n), n)
  }

  function NextInHeader(config: Config, s: string): Next {
    match ParseItems(s, 0, HeaderItems(config), config.decode)
    case Done(m) =>
      if m.end == 0 then Wait
      else Ready(CallHeader(if m.captured == [] then "" else m.captured[0]), m.end)
    case Incomplete => Wait
    case _ => Bad
  }

  /** After a complete argument object: `}` and then the end marker, or a delimiter where one is configured. */
  function NextAfterArguments(config: Config, s: string): Next {
    match Literal(s, 0, "}")
    case Incomplete => Wait
    case Done(at) => (
      match (ParseItems(s, at, EndItems(config), config.decode), config.delimiter)
      case (Backtrack, Some(delimiter)) =>
        FromParsed(CallDelimiter, ParseItems(s, at, DelimiterItems(delimiter), config.decode))
      case (r, _) => FromParsed(CallEnd, r))
    case _ => Bad
  }

  function NextInArguments(config: Config, s: string, scan: Scan): Next {
    if scan.phase == Complete then NextAfterArguments(config, s)
    else match TakeObject(s, scan)
      case Take(n, next) => Ready(ArgumentsRun(n, next), n)
      case NeedMore => Wait
      case Reject => Bad
  }

  function NextEvent(config: Config, s: string, mode: Mode): (r: Next)
    ensures r.Ready? ==> 0 < r.consumed <= |s|
  {
    match mode
    case TextMode => NextInText(config, s)
    case HeaderMode => NextInHeader(config, s)
    case ArgumentsMode(scan) => NextInArguments(config, s, scan)
  }

  // -------- The parser as a state machine --------

  datatype State = State(buffer: string, mode: Mode, activeToolIndex: Option<nat>, emittedToolCount: nat) {
    function Extend(chunk: string): State {
      this.(buffer := buffer + chunk)
    }

    function Skip(n: nat): State
      requires n <= |buffer|
    {
      this.(buffer := buffer[n..])
    }

    /** Arguments are only ever read for a call that is open, by a scan that started at its brace. */
    predicate Valid() {
      mode.ArgumentsMode? ==> activeToolIndex.Some? && Sound(mode.scan)
    }
  }

  const InitialState := State("", TextMode, None, 0)

  /** `apply_event`, before the consumed text is drained. */
  function Apply(st: State, out: ToolParserOutput, event: Event, consumed: nat)
    : Result<(State, ToolParserOutput), ParseError>
    requires consumed <= |st.buffer|
  {
    match event
    case TextRun(_) => Success((st, out.AddText(st.buffer[..consumed])))
    case CallStart => Success((st.(mode := HeaderMode), out))
    case CallHeader(name) =>
      Success((st.(mode := ArgumentsMode(FreshScan), activeToolIndex := Some(st.emittedToolCount),
                   emittedToolCount := st.emittedToolCount + 1),
               out.AddCall(ToolCallDelta(st.emittedToolCount, Some(name), ""))))
    case ArgumentsRun(_, scan) =>
      if st.activeToolIndex.None? then Failure(NoActiveCall)
      else Success((st.(mode := ArgumentsMode(scan)),
                    out.AddCall(ToolCallDelta(st.activeToolIndex.value, None, st.buffer[..consumed]))))
    case CallDelimiter => Success((st.(mode := HeaderMode, activeToolIndex := None), out))
    case CallEnd => Success((st.(mode := TextMode, activeToolIndex := None), out))
  }

  /** The parse loop: apply events and drain their text until no event is ready. */
  function Drain(config: Config, st: State, out: ToolParserOutput): Result<(State, ToolParserOutput), ParseError>
    decreases |st.buffer|
  {
    match NextEvent(config, st.buffer, st.mode)
    case Wait => Success((st, out))
    case Bad => Failure(BadSyntax)
    case Ready(event, consumed) =>
      match Apply(st, out, event, consumed)
      case Failure(e) => Failure(e)
      case Success(next) => Drain(config, next.0.Skip(consumed), next.1)
  }

  function Push(config: Config, st: State, chunk: string, out: ToolParserOutput)
    : Result<(State, ToolParserOutput), ParseError>
  {
    Drain(config, st.Extend(chunk), out)
  }

  function Finish(st: State, out: ToolParserOutput): Result<ToolParserOutput, ParseError> {
    if st.mode == TextMode then Success(out.AddText(st.buffer)) else Failure(UnfinishedCall)
  }

  // -------- The parser object --------

  class JsonToolCallParser {
    const config: Config
    var buffer: string
    var mode: Mode
    var activeToolIndex: Option<nat>
    var emittedToolCount: nat

    function Snapshot(): State
      reads this
    {
      State(buffer, mode, activeToolIndex, emittedToolCount)
    }

    constructor (config: Config)
      ensures this.config == config && Snapshot() == InitialState
    {
      this.config := config;
      buffer, mode, activeToolIndex, emittedToolCount := "", TextMode, None, 0;
    }

    /** `parse_next_json_tool_call_event` for the current mode. */
    method ParseNextEvent() returns (r: Next)
      requires config.WellFormed() && Snapshot().Valid()
      ensures r == NextEvent(config, buffer, mode)
    {
      match mode {
        case TextMode =>
          match ParseItems(buffer, 0, StartItems(config), config.decode) {
            case Done(m) => return if m.end == 0 then Wait else Ready(CallStart, m.end);
            case Incomplete => return Wait;
            case Cut => return Bad;
            case Backtrack =>
          }
          var n;
          match Find(buffer, config.startMarker) {
            case Some(i) => n := i;
            case None =>
              var kept := FindPartialPrefixLen(buffer, config.startMarker);
              n := |buffer| - kept;
          }
          return if n == 0 then Wait else Ready(TextRun(n), n);
        case HeaderMode => return NextInHeader(config, buffer);
        case ArgumentsMode(scan) =>
          if scan.phase == Complete {
            return NextAfterArguments(config, buffer);
          }
          var taken := TakeJsonObject(buffer, scan);
          match taken {
            case Take(n, next) => return Ready(ArgumentsRun(n, next), n);
            case NeedMore => return Wait;
            case Reject => return Bad;
          }
      }
    }

    method ApplyEvent(event: Event, consumed: nat, out: ToolParserOutput)
      returns (r: Result<ToolParserOutput, ParseError>)
      requires consumed <= |buffer|
      modifies this`mode, this`activeToolIndex, this`emittedToolCount
      ensures r.Success? ==> Apply(old(Snapshot()), out, event, consumed) == Success((Snapshot(), r.value))
      ensures r.Failure? ==> Apply(old(Snapshot()), out, event, consumed) == Failure(r.error)
    {
      match event {
        case TextRun(_) => r := Success(out.AddText(buffer[..consumed]));
        case CallStart =>
          mode := HeaderMode;
          r := Success(out);
        case CallHeader(name) =>
          var toolIndex := emittedToolCount;
          emittedToolCount := emittedToolCount + 1;
          activeToolIndex := Some(toolIndex);
          mode := ArgumentsMode(FreshScan);
          r := Success(out.AddCall(ToolCallDelta(toolIndex, Some(name), "")));
        case ArgumentsRun(_, scan) =>
          match activeToolIndex {
            case None => r := Failure(NoActiveCall);
            case Some(toolIndex) =>
              mode := ArgumentsMode(scan);
              r := Success(out.AddCall(ToolCallDelta(toolIndex, None, buffer[..consumed])));
          }
        case CallDelimiter =>
          activeToolIndex := None;
          mode := HeaderMode;
          r := Success(out);
        case CallEnd =>
          activeToolIndex := None;
          mode := TextMode;
          r := Success(out);
      }
    }

    /** `parse_into`: append the chunk, then apply events until none is ready. */
    method ParseInto(chunk: string, out: ToolParserOutput) returns (r: Result<ToolParserOutput, ParseError>)
      requires config.WellFormed() && Snapshot().Valid()
      modifies this
      ensures r.Success? ==> Push(config, old(Snapshot()), chunk, out) == Success((Snapshot(), r.value))
      ensures r.Success? ==> Snapshot().Valid()
      ensures r.Failure? ==> Push(config, old(Snapshot()), chunk, out) == Failure(r.error)
    {
      buffer := buffer + chunk;
      var result := out;
      ghost var start := Snapshot();
      var next := ParseNextEvent();
      while next.Ready?
        invariant next == NextEvent(config, buffer, mode)
        invariant Snapshot().Valid()
        invariant Drain(config, start, out) == Drain(config, Snapshot(), result)
        decreases |buffer|
      {
        ghost var before, soFar := Snapshot(), result;
        EventKeepsValid(config, before, soFar);
        var applied := ApplyEvent(next.event, next.consumed, result);
        if applied.Failure? {
          return applied;
        }
        result := applied.value;
        buffer := buffer[next.consumed..];
        assert Drain(config, before, soFar) == Drain(config, Snapshot(), result);
        next := ParseNextEvent();
      }
      if next.Bad? {
        return Failure(BadSyntax);
      }
      return Success(result);
    }

    method FinishParse() returns (r: Result<ToolParserOutput, ParseError>)
      modifies this
      ensures r == Finish(old(Snapshot()), NoOutput)
      ensures r.Success? ==> Snapshot() == InitialState
      ensures r.Failure? ==> Snapshot() == old(Snapshot())
    {
      if mode != TextMode {
        return Failure(UnfinishedCall);
      }
      r := Success(NoOutput.AddText(buffer));
      var _ := Reset();
    }

    method Reset() returns (pending: string)
      modifies this
      ensures pending == old(buffer) && Snapshot() == InitialState
    {
      pending := buffer;
      buffer, mode, activeToolIndex, emittedToolCount := "", TextMode, None, 0;
    }
  }

  lemma EventKeepsValid(config: Config, st: State, out: ToolParserOutput)
    requires st.Valid()
    requires NextEvent(config, st.buffer, st.mode).Ready?
    ensures var next := NextEvent(config, st.buffer, st.mode);
            var applied := Apply(st, out, next.event, next.consumed);
            applied.Success? && applied.value.0.Valid()
  {
    if st.mode.ArgumentsMode? && st.mode.scan.phase != Complete {
      ScanTextSound(st.mode.scan, st.buffer);
    }
  }

  lemma {:induction false} DrainKeepsValid(config: Config, st: State, out: ToolParserOutput)
    requires st.Valid()
    ensures Drain(config, st, out).Success? ==> Drain(config, st, out).value.0.Valid()
    decreases |st.buffer|
  {
    hide NextEvent;
    var next := NextEvent(config, st.buffer, st.mode);
    if next.Ready? {
      EventKeepsValid(config, st, out);
      var (st', out') := Apply(st, out, next.event, next.consumed).value;
      DrainKeepsValid(config, st'.Skip(next.consumed), out');
    }
  }
}
