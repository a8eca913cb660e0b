/** Tool-call classification of assistant output (src/tools.rs). */
module Classify {
  import opened Wrappers
  import opened Text
  import opened Output
  import Combinators
  import JsonParser
  import Lenient
  import LenientTheorems
  import Glm
  import opened Json
  import Schema

  datatype ToolPromptFormat = HermesJson | GlmXml | QwenXml

  datatype ToolDefinition = ToolDefinition(name: string, schema: Option<Schema.SchemaObject>)

  /** Configuration and tools of one request, with serde_json's reading and writing as functions. */
  datatype ToolContext = ToolContext(
    format: ToolPromptFormat, tools: seq<ToolDefinition>, requireToolCall: bool,
    maxBytes: nat, maxRetries: nat, validateJsonSchema: bool,
    decodeString: Combinators.Decoder, convertParams: Glm.Converter,
    parseJson: string -> Option<Json>, printJson: Json -> string)

  datatype ValidatedToolCall = ValidatedToolCall(name: string, argumentsJson: string)

  datatype CallError =
    | ParsingFailed(cause: ParseError)
    | EmptyName
    | UnknownTool
    | InvalidJson
    | ArgumentsNotObject
    | SchemaViolation
    | OutputTooLong
    | NoToolCall

  datatype Classification =
    | NormalText
    | ToolCalls(calls: seq<ValidatedToolCall>)
    | InvalidToolCall(error: CallError, invalidOutput: string)

  // -------- Parsing and validation --------

  function ParseWith(ctx: ToolContext, format: ToolPromptFormat, output: string): Result<ToolParserOutput, ParseError> {
    match format
    case HermesJson => Lenient.LenientParse(JsonParser.HermesConfig(ctx.decodeString), output)
    case GlmXml => Glm.Parse(ctx.convertParams, output)
    case QwenXml => LenientTheorems.StrictParse(JsonParser.QwenConfig(ctx.decodeString), output)
  }

  /** Index of the first tool called `name`, or `|tools|`. */
  function FindTool(tools: seq<ToolDefinition>, name: string): (k: nat)
    ensures k <= |tools|
    ensures k < |tools| ==> tools[k].name == name
    ensures k == |tools| ==> forall j :: 0 <= j < |tools| ==> tools[j].name != name
  {
    if tools == [] || tools[0].name == name then 0 else 1 + FindTool(tools[1..], name)
  }

  /** `validate_tool_call`. */
  function ValidateToolCall(ctx: ToolContext, call: ToolCallDelta): Result<ValidatedToolCall, CallError> {
    var name := if call.name.Some? then call.name.value else "";
    if Blank(name) then Failure(EmptyName)
    else
      var k := FindTool(ctx.tools, name);
      if k == |ctx.tools| then Failure(UnknownTool)
      else match ctx.parseJson(call.arguments)
        case None => Failure(InvalidJson)
        case Some(arguments) =>
          if !arguments.JObject? then Failure(ArgumentsNotObject)
          else if ctx.validateJsonSchema && ctx.tools[k].schema.Some?
               && Schema.CheckValue(arguments, ctx.tools[k].schema.value).Failure?
          then Failure(SchemaViolation)
          else Success(ValidatedToolCall(name, ctx.printJson(arguments)))
  }

  function ValidateAll(ctx: ToolContext, calls: seq<ToolCallDelta>): (r: Result<seq<ValidatedToolCall>, CallError>)
    ensures r.Success? ==> |r.value| == |calls|
  {
    if calls == [] then Success([])
    else
      var first :- ValidateToolCall(ctx, calls[0]);
      var rest :- ValidateAll(ctx, calls[1..]);
      Success([first] + rest)
  }

  function ParseToolCallsWithFormat(ctx: ToolContext, format: ToolPromptFormat, output: string)
    : Result<seq<ValidatedToolCall>, CallError>
  {
    match ParseWith(ctx, format, output)
    case Failure(e) => Failure(ParsingFailed(e))
    case Success(parsed) => ValidateAll(ctx, parsed.calls)
  }

  function HermesFallback(ctx: ToolContext, output: string): Option<seq<ValidatedToolCall>> {
    match ParseToolCallsWithFormat(ctx, HermesJson, output)
    case Success(calls) => if calls == [] then None else Some(calls)
    case Failure(_) => None
  }

  /** `parse_tool_calls`: the preferred format, then Hermes where that found nothing usable. */
  function ParseToolCalls(ctx: ToolContext, output: string): Result<seq<ValidatedToolCall>, CallError> {
    var preferred := ParseToolCallsWithFormat(ctx, ctx.format, output);
    if ctx.format == HermesJson then preferred
    else if preferred.Failure? || (preferred.value == [] && Find(output, TOOL_CALL_START).Some?) then
      match HermesFallback(ctx, output)
      case Some(calls) => Success(calls)
      case None => preferred
    else preferred
  }

  /** `classify_assistant_output`. */
  function ClassifyOutput(ctx: ToolContext, output: string): Classification {
    if ctx.maxBytes < |output| then InvalidToolCall(OutputTooLong, output)
    else match ParseToolCalls(ctx, output)
      case Success(calls) =>
        if calls != [] then ToolCalls(calls)
        else if ctx.requireToolCall then InvalidToolCall(NoToolCall, output)
        else NormalText
      case Failure(e) => InvalidToolCall(e, output)
  }

  // -------- What accepted calls are --------

  /** A call of a declared tool whose arguments the tool's schema accepts. */
  ghost predicate Sanctioned(ctx: ToolContext, call: ValidatedToolCall) {
    exists k, arguments: Json ::
      && 0 <= k < |ctx.tools| && ctx.tools[k].name == call.name && !Blank(call.name)
      && arguments.JObject? && call.argumentsJson == ctx.printJson(arguments)
      && (ctx.validateJsonSchema && ctx.tools[k].schema.Some? ==>
            Schema.CheckValue(arguments, ctx.tools[k].schema.value).Success?)
  }

  lemma ValidatedIsSanctioned(ctx: ToolContext, call: ToolCallDelta)
    requires ValidateToolCall(ctx, call).Success?
    ensures Sanctioned(ctx, ValidateToolCall(ctx, call).value)
  {
    hide Blank, Schema.CheckValue;
    var name := if call.name.Some? then call.name.value else "";
    var k := FindTool(ctx.tools, name);
    var arguments := ctx.parseJson(call.arguments).value;
    assert ctx.tools[k].name == name && arguments.JObject?;
  }

  lemma {:induction false} ValidatedAreSanctioned(ctx: ToolContext, calls: seq<ToolCallDelta>)
    requires ValidateAll(ctx, calls).Success?
    ensures forall i :: 0 <= i < |calls| ==> Sanctioned(ctx, ValidateAll(ctx, calls).value[i])
  {
    hide ValidateToolCall, Sanctioned;
    if calls != [] {
      ValidatedIsSanctioned(ctx, calls[0]);
      ValidatedAreSanctioned(ctx, calls[1..]);
    }
  }

  /** Output classified as tool calls has at least one, and each is sanctioned by the request's tools. */
  lemma ClassifiedCallsAreSanctioned(ctx: ToolContext, output: string)
    requires ClassifyOutput(ctx, output).ToolCalls?
    ensures var calls := ClassifyOutput(ctx, output).calls;
            calls != [] && forall i :: 0 <= i < |calls| ==> Sanctioned(ctx, calls[i])
  {
    hide ParseWith, ValidateAll, Sanctioned;
    forall format | ParseWith(ctx, format, output).Success?
      && ValidateAll(ctx, ParseWith(ctx, format, output).value.calls).Success?
      ensures var calls := ValidateAll(ctx, ParseWith(ctx, format, output).value.calls).value;
              forall i :: 0 <= i < |calls| ==> Sanctioned(ctx, calls[i])
    {
      ValidatedAreSanctioned(ctx, ParseWith(ctx, format, output).value.calls);
    }
  }
}
