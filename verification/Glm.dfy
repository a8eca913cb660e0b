/** The GLM XML tool-call parser with its flexible name separator (src/vllm_tool_parser/glm_xml). */
module Glm {
  import opened Wrappers
  import opened Text
  import opened Output
  import opened Lexing
  import opened Combinators

  const ARG_KEY_START := "<arg_key>"
  const ARG_KEY_END := "</arg_key>"
  const ARG_VALUE_START := "<arg_value>"
  const ARG_VALUE_END := "</arg_value>"

  datatype Mode = TextMode | ToolCallMode | AfterToolCall

  type RawParams = seq<(string, string)>

  /** Schema-driven conversion and serialization of raw parameters, as one function. */
  type Converter = (string, RawParams) -> string

  datatype Event =
    | TextRun(len: nat)
    | CallStart
    | Call(name: string, rawParams: RawParams)
    | IgnoredRest

  datatype Next = Ready(event: Event, consumed: nat) | Wait | Bad

  // -------- The call body, a complete input --------

  /** `take_until(min.., t)`: the text before the next `t`, which stays unread. */
  function TakeUntil(s: string, at: nat, t: string, min: nat): (r: Option<nat>)
    requires at <= |s|
    ensures r.Some? ==> at + min <= r.value && Occurs(s, t, r.value)
  {
    match FindFrom(s, t, at)
    case None => None
    case Some(i) => if i - at < min then None else Some(i)
  }

  /** End of the run of units that are neither white space nor `<`. */
  function NameEnd(s: string, at: nat): (r: nat)
    requires at <= |s|
    ensures at <= r <= |s|
    decreases |s| - at
  {
    if at == |s| || s[at] == '<' || 0 < SpaceLen(s, at) then at else NameEnd(s, at + 1)
  }

  datatype Parameter = Parameter(pair: (string, string), end: nat)

  /** `parse_parameter`: one key and value, or a backtrack. */
  function ParseParameter(s: string, at: nat): (r: Option<Parameter>)
    requires at <= |s|
    ensures r.Some? ==> at < r.value.end <= |s|
  {
    if !Occurs(s, ARG_KEY_START, at) then None
    else
      var keyAt := at + |ARG_KEY_START|;
      match TakeUntil(s, keyAt, ARG_KEY_END, 1)
      case None => None
      case Some(keyEnd) =>
        var valueTag := SkipSpace(s, keyEnd + |ARG_KEY_END|);
        if !Occurs(s, ARG_VALUE_START, valueTag) then None
        else
          var valueAt := valueTag + |ARG_VALUE_START|;
          match TakeUntil(s, valueAt, ARG_VALUE_END, 0)
          case None => None
          case Some(valueEnd) =>
            Some(Parameter((Trim(s[keyAt..keyEnd]), Trim(s[valueAt..valueEnd])), valueEnd + |ARG_VALUE_END|))
  }

  /** `parse_parameters`: parameters with spaces after each, as many as there are. */
  function ParseParameters(s: string, at: nat): (r: (RawParams, nat))
    requires at <= |s|
    ensures at <= r.1 <= |s|
    decreases |s| - at
  {
    match ParseParameter(s, at)
    case None => ([], at)
    case Some(p) =>
      var rest := ParseParameters(s, SkipSpace(s, p.end));
      ([p.pair] + rest.0, rest.1)
  }

  /** `parse_tool_call_body`: a name, its parameters, and nothing else. */
  function ParseBody(body: string): Option<(string, RawParams)> {
    var nameAt := SkipSpace(body, 0);
    var nameEnd := NameEnd(body, nameAt);
    if nameEnd == nameAt then None
    else
      var (params, end) := ParseParameters(body, SkipSpace(body, nameEnd));
      if SkipSpace(body, end) == |body| then Some((body[nameAt..nameEnd], params)) else None
  }

  // -------- Events --------

  function NextEvent(s: string, mode: Mode): (r: Next)
    ensures r.Ready? ==> 0 < r.consumed <= |s|
  {
    match mode
    case TextMode => (
      match Literal(s, 0, TOOL_CALL_START)
      case Done(n) => Ready(CallStart, n)
      case Incomplete => Wait
      case _ =>
        var n := SafeTextLen(s, TOOL_CALL_START);
        if n == 0 then Wait else Ready(TextRun(n), n))
    case ToolCallMode => (
      match Find(s, TOOL_CALL_END)
      case None => Wait
      case Some(i) =>
        match ParseBody(s[..i])
        case None => Bad
        case Some(call) => Ready(Call(call.0, call.1), i + |TOOL_CALL_END|))
    case AfterToolCall =>
      match Space(s, 0)
      case Done(at) => (
        match Literal(s, at, TOOL_CALL_START)
        case Done(n) => Ready(CallStart, n)
        case Incomplete => Wait
        case _ => Ready(IgnoredRest, |s|))
      case _ => Wait
  }

  datatype State = State(buffer: string, mode: Mode, emittedToolCount: nat)

  const InitialState := State("", TextMode, 0)

  function Apply(convert: Converter, st: State, out: ToolParserOutput, event: Event, consumed: nat)
    : (State, ToolParserOutput)
    requires consumed <= |st.buffer|
  {
    match event
    case TextRun(_) => (st, out.AddText(st.buffer[..consumed]))
    case CallStart => (st.(mode := ToolCallMode), out)
    case Call(name, rawParams) =>
      (st.(mode := AfterToolCall, emittedToolCount := st.emittedToolCount + 1),
       out.AddCall(ToolCallDelta(st.emittedToolCount, Some(name), convert(name, rawParams))))
    case IgnoredRest => (st, out)
  }

  function Drain(convert: Converter, st: State, out: ToolParserOutput): Result<(State, ToolParserOutput), ParseError>
    decreases |st.buffer|
  {
    match NextEvent(st.buffer, st.mode)
    case Wait => Success((st, out))
    case Bad => Failure(BadSyntax)
    case Ready(event, consumed) =>
      var (next, more) := Apply(convert, st, out, event, consumed);
      Drain(convert, next.(buffer := next.buffer[consumed..]), more)
  }

  function Finish(st: State, out: ToolParserOutput): Result<ToolParserOutput, ParseError> {
    match st.mode
    case TextMode => Success(out.AddText(st.buffer))
    case ToolCallMode => if st.buffer == "" then Success(out) else Failure(UnfinishedCall)
    case AfterToolCall => Success(out)
  }

  /** `parse_complete` on a new parser. */
  function Parse(convert: Converter, text: string): Result<ToolParserOutput, ParseError> {
    match Drain(convert, InitialState.(buffer := text), NoOutput)
    case Failure(e) => Failure(e)
    case Success(d) =>
      match Finish(d.0, d.1)
      case Failure(e) => Failure(e)
      case Success(out) => Success(out.(calls := Coalesce(out.calls)))
  }

  class GlmXmlToolParser {
    const convert: Converter
    var buffer: string
    var mode: Mode
    var emittedToolCount: nat

    function Snapshot(): State
      reads this
    {
      State(buffer, mode, emittedToolCount)
    }

    constructor (convert: Converter)
      ensures this.convert == convert && Snapshot() == InitialState
    {
      this.convert := convert;
      buffer, mode, emittedToolCount := "", TextMode, 0;
    }

    method ParseInto(chunk: string, out: ToolParserOutput) returns (r: Result<ToolParserOutput, ParseError>)
      modifies this
      ensures match Drain(convert, old(Snapshot()).(buffer := old(buffer) + chunk), out)
              case Failure(e) => r == Failure(e)
              case Success(d) => r == Success(d.1) && Snapshot() == d.0
    {
      hide NextEvent;
      buffer := buffer + chunk;
      var result := out;
      ghost var start := Snapshot();
      var next := NextEvent(buffer, mode);
      while next.Ready?
        invariant next == NextEvent(buffer, mode)
        invariant Drain(convert, start, out) == Drain(convert, Snapshot(), result)
        decreases |buffer|
      {
        match next.event {
          case TextRun(_) => result := result.AddText(buffer[..next.consumed]);
          case CallStart => mode := ToolCallMode;
          case Call(name, rawParams) =>
            mode := AfterToolCall;
            result := result.AddCall(ToolCallDelta(emittedToolCount, Some(name), convert(name, rawParams)));
            emittedToolCount := emittedToolCount + 1;
          case IgnoredRest =>
        }
        buffer := buffer[next.consumed..];
        next := NextEvent(buffer, mode);
      }
      if next.Bad? {
        return Failure(BadSyntax);
      }
      return Success(result);
    }

    method FinishParse() returns (r: Result<ToolParserOutput, ParseError>)
      modifies this
      ensures r == Finish(old(Snapshot()), NoOutput)
      ensures r.Success? ==> Snapshot() == InitialState
    {
      var out := NoOutput;
      assert NoOutput.AddText("") == NoOutput;
      if buffer != "" {
        match mode {
          case TextMode => out := out.AddText(buffer);
          case ToolCallMode => return Failure(UnfinishedCall);
          case AfterToolCall =>
        }
      }
      buffer, mode, emittedToolCount := "", TextMode, 0;
      return Success(out);
    }
  }

  method ParseComplete(convert: Converter, text: string) returns (r: Result<ToolParserOutput, ParseError>)
    ensures r == Parse(convert, text)
  {
    hide NextEvent, Drain;
    var parser := new GlmXmlToolParser(convert);
    assert "" + text == text;
    var pushed := parser.ParseInto(text, NoOutput);
    if pushed.Failure? {
      return pushed;
    }
    ghost var st := parser.Snapshot();
    var finished := parser.FinishParse();
    if finished.Failure? {
      return finished;
    }
    assert "" + st.buffer == st.buffer && pushed.value.Append(NoOutput) == pushed.value;
    var merged := CoalesceCalls(pushed.value.Append(finished.value));
    return Success(merged);
  }
}
