/** From a request's tools to the context its answers are classified in (src/tools.rs). */
module RequestTools {
  import opened Wrappers
  import opened Text
  import opened Json
  import Schema
  import SM = SchemaMeaning
  import opened Classify

  datatype ToolChoice = AutoChoice | RequiredChoice | NamedChoice(name: string) | NoChoice

  /** `active` stands for emulation that is enabled and not of mode "none". */
  datatype ToolRequest = ToolRequest(active: bool, validateJsonSchema: bool, tools: seq<ToolDefinition>,
    choice: ToolChoice, model: string)

  datatype RequestError = NoToolsToChoose | DuplicateName | BadSchema | UnknownChoice

  datatype Selection = Selection(tools: seq<ToolDefinition>, requireToolCall: bool, format: ToolPromptFormat)

  // -------- The format --------

  /** `to_ascii_lowercase`. */
  function Lower(s: string): string {
    seq(|s|, i requires 0 <= i < |s| => if 'A' <= s[i] <= 'Z' then ((s[i] as int) + 32) as char else s[i])
  }

  function FormatFor(model: string): ToolPromptFormat {
    if Find(Lower(model), "glm").Some? then GlmXml
    else if Find(Lower(model), "qwen").Some? then QwenXml
    else HermesJson
  }

  // -------- The tools --------

  ghost predicate Repeats(tools: seq<ToolDefinition>, k: int)
    requires 0 <= k < |tools|
  {
    exists j :: 0 <= j < k && tools[j].name == tools[k].name
  }

  ghost predicate Misshapen(request: ToolRequest, k: int)
    requires 0 <= k < |request.tools|
  {
    request.validateJsonSchema && request.tools[k].schema.Some?
    && !SM.EverySchema(SM.WellShaped, request.tools[k].schema.value)
  }

  /** The tool at `k` is the first that repeats a name or has a schema of the wrong shape. */
  ghost predicate FirstWrong(request: ToolRequest, k: int) {
    && 0 <= k < |request.tools| && (Repeats(request.tools, k) || Misshapen(request, k))
    && forall j :: 0 <= j < k ==> !Repeats(request.tools, j) && !Misshapen(request, j)
  }

  ghost predicate NoneWrong(request: ToolRequest) {
    forall k :: 0 <= k < |request.tools| ==> !Repeats(request.tools, k) && !Misshapen(request, k)
  }

  ghost predicate Declares(tools: seq<ToolDefinition>, name: string) {
    exists k :: 0 <= k < |tools| && tools[k].name == name
  }

  /** What a request comes to. */
  ghost predicate Selects(request: ToolRequest, r: Result<Option<Selection>, RequestError>) {
    var tools, choice := request.tools, request.choice;
    if !request.active || choice.NoChoice? || (tools == [] && choice.AutoChoice?) then r == Success(None)
    else if tools == [] then r == Failure(NoToolsToChoose)
    else if !NoneWrong(request) then
      exists k :: FirstWrong(request, k) && r == Failure(if Repeats(tools, k) then DuplicateName else BadSchema)
    else if choice.NamedChoice? && !Declares(tools, choice.name) then r == Failure(UnknownChoice)
    else
      && r.Success? && r.value.Some?
      && r.value.value.requireToolCall == !choice.AutoChoice? && r.value.value.format == FormatFor(request.model)
      && if choice.NamedChoice? then
           |r.value.value.tools| == 1 && r.value.value.tools[0] in tools && r.value.value.tools[0].name == choice.name
         else r.value.value.tools == tools
  }

  /** `ToolEmulationContext::from_request`. */
  method FromRequest(request: ToolRequest) returns (r: Result<Option<Selection>, RequestError>)
    ensures Selects(request, r)
  {
    hide Find, SM.WellShaped, SM.EverySchema;
    var tools := request.tools;
    if !request.active || request.choice.NoChoice? {
      return Success(None);
    }
    if tools == [] {
      return if request.choice.AutoChoice? then Success(None) else Failure(NoToolsToChoose);
    }
    var seen: set<string> := {};
    for k := 0 to |tools|
      invariant seen == set j | 0 <= j < k :: tools[j].name
      invariant forall j :: 0 <= j < k ==> !Repeats(tools, j) && !Misshapen(request, j)
    {
      var tool := tools[k];
      assert tool.name in seen <==> Repeats(tools, k);
      if tool.name in seen {
        assert FirstWrong(request, k);
        return Failure(DuplicateName);
      }
      seen := seen + {tool.name};
      if request.validateJsonSchema && tool.schema.Some? {
        SM.ShapeMeaning(tool.schema.value);
        if Schema.CheckShape(tool.schema.value).Failure? {
          assert FirstWrong(request, k);
          return Failure(BadSchema);
        }
      }
    }
    assert NoneWrong(request);
    var format := FormatFor(request.model);
    match request.choice {
      case NamedChoice(name) =>
        var k := FindTool(tools, name);
        if k == |tools| {
          return Failure(UnknownChoice);
        }
        assert tools[k] in tools && Declares(tools, name);
        return Success(Some(Selection([tools[k]], true, format)));
      case RequiredChoice => return Success(Some(Selection(tools, true, format)));
      case _ => return Success(Some(Selection(tools, false, format)));
    }
  }

  // -------- What the context is good for --------

  /** The context answers are classified in has the request's tools. */
  ghost predicate Built(request: ToolRequest, ctx: ToolContext) {
    exists selection: Selection ::
      && Selects(request, Success(Some(selection)))
      && ctx.tools == selection.tools && ctx.requireToolCall == selection.requireToolCall
      && ctx.format == selection.format && ctx.validateJsonSchema == request.validateJsonSchema
  }

  /** In such a context a name stands for one tool at most, and every schema that is checked is well shaped. */
  lemma ContextsAreSound(request: ToolRequest, ctx: ToolContext)
    requires Built(request, ctx)
    ensures ctx.tools != []
    ensures forall j, k :: 0 <= j < k < |ctx.tools| ==> ctx.tools[j].name != ctx.tools[k].name
    ensures forall k :: 0 <= k < |ctx.tools| && ctx.validateJsonSchema && ctx.tools[k].schema.Some? ==>
              SM.EverySchema(SM.WellShaped, ctx.tools[k].schema.value)
  {
    hide SM.WellShaped, SM.EverySchema, FormatFor;
    var tools := request.tools;
    assert NoneWrong(request);
    forall j, k | 0 <= j < k < |tools| ensures tools[j].name != tools[k].name {
      assert !Repeats(tools, k);
    }
    forall k | 0 <= k < |ctx.tools| && ctx.validateJsonSchema && ctx.tools[k].schema.Some?
      ensures SM.EverySchema(SM.WellShaped, ctx.tools[k].schema.value) {
      assert ctx.tools[k] in tools;
      var j :| 0 <= j < |tools| && tools[j] == ctx.tools[k];
      assert !Misshapen(request, j);
    }
  }

  /** So a call that is refused for its schema is refused for its arguments, never for the schema itself. */
  lemma SchemasAreNeverMalformed(request: ToolRequest, ctx: ToolContext, k: nat, arguments: Json)
    requires Built(request, ctx) && k < |ctx.tools| && ctx.validateJsonSchema && ctx.tools[k].schema.Some?
    ensures var checked := Schema.CheckValue(arguments, ctx.tools[k].schema.value);
            && (checked.Failure? ==> checked.error == Schema.Mismatch)
            && (checked.Success? <==> SM.Throughout(SM.AcceptsHere, arguments, ctx.tools[k].schema.value))
  {
    hide SM.WellShaped, SM.EverySchema, SM.Throughout, SM.AcceptsHere, Built;
    ContextsAreSound(request, ctx);
    SM.CheckMeaning(arguments, ctx.tools[k].schema.value);
  }
}
