/** Written tool calls are classified, in every format, as those calls with those arguments (src/tools.rs). */
module ClassifiedCalls {
  import opened Wrappers
  import opened Text
  import opened Output
  import JT = JsonText
  import JP = JsonParser
  import JL = JsonLanguage
  import JR = JsonRoundTrip
  import GR = GlmRoundTrip
  import Glm
  import Lenient
  import LenientTheorems
  import LT = LeadingText
  import opened Json
  import Schema
  import opened Classify

  // -------- One call --------

  /** The tool a name stands for: the first of that name. */
  ghost predicate Stands(ctx: ToolContext, name: string, k: int) {
    0 <= k < |ctx.tools| && ctx.tools[k].name == name && forall j :: 0 <= j < k ==> ctx.tools[j].name != name
  }

  ghost predicate SchemaAccepts(ctx: ToolContext, k: int, arguments: Json)
    requires 0 <= k < |ctx.tools|
  {
    ctx.validateJsonSchema && ctx.tools[k].schema.Some? ==>
      Schema.CheckValue(arguments, ctx.tools[k].schema.value).Success?
  }

  /** A call of a declared tool with these arguments is accepted, and comes to `call`. */
  ghost predicate Accepts(ctx: ToolContext, name: string, arguments: string, call: ValidatedToolCall) {
    !Blank(name) && exists k: int, value: Json ::
      && Stands(ctx, name, k) && ctx.parseJson(arguments) == Some(value) && value.JObject?
      && SchemaAccepts(ctx, k, value) && call == ValidatedToolCall(name, ctx.printJson(value))
  }

  /** Why a call is refused: its name first, then its arguments, then its schema. */
  ghost predicate Refuses(ctx: ToolContext, name: string, arguments: string, error: CallError) {
    var parsed := ctx.parseJson(arguments);
    match error
    case EmptyName => Blank(name)
    case UnknownTool => !Blank(name) && forall j :: 0 <= j < |ctx.tools| ==> ctx.tools[j].name != name
    case InvalidJson => !Blank(name) && (exists k: int :: Stands(ctx, name, k)) && parsed.None?
    case ArgumentsNotObject =>
      !Blank(name) && (exists k: int :: Stands(ctx, name, k)) && parsed.Some? && !parsed.value.JObject?
    case SchemaViolation =>
      && !Blank(name) && parsed.Some? && parsed.value.JObject?
      && exists k: int :: Stands(ctx, name, k) && !SchemaAccepts(ctx, k, parsed.value)
    case _ => false
  }

  function CallName(delta: ToolCallDelta): string {
    if delta.name.Some? then delta.name.value else ""
  }

  /** Validation is exact: both what is accepted, and why anything else is not. */
  lemma ValidationIsExact(ctx: ToolContext, delta: ToolCallDelta)
    ensures var name := CallName(delta);
            forall call :: ValidateToolCall(ctx, delta) == Success(call) <==> Accepts(ctx, name, delta.arguments, call)
    ensures var name := CallName(delta);
            forall e :: ValidateToolCall(ctx, delta) == Failure(e) <==> Refuses(ctx, name, delta.arguments, e)
  {
    hide Blank, Schema.CheckValue;
    var name := CallName(delta);
    var k := FindTool(ctx.tools, name);
    if k < |ctx.tools| {
      FirstTool(ctx, name, k);
    }
  }

  lemma FirstTool(ctx: ToolContext, name: string, k: nat)
    requires k == FindTool(ctx.tools, name) < |ctx.tools|
    ensures Stands(ctx, name, k) && forall j: int :: Stands(ctx, name, j) ==> j == k
  {
    FindsFirst(ctx.tools, name);
  }

  lemma {:induction false} FindsFirst(tools: seq<ToolDefinition>, name: string)
    ensures forall j :: 0 <= j < FindTool(tools, name) ==> tools[j].name != name
  {
    if tools != [] && tools[0].name != name {
      FindsFirst(tools[1..], name);
    }
  }

  // -------- All calls --------

  /** Each of these deltas is accepted as the call at its place. */
  ghost predicate AllAccepted(ctx: ToolContext, deltas: seq<ToolCallDelta>, calls: seq<ValidatedToolCall>) {
    && |deltas| == |calls|
    && forall k :: 0 <= k < |deltas| ==> Accepts(ctx, CallName(deltas[k]), deltas[k].arguments, calls[k])
  }

  lemma {:induction false} AcceptedAreValidated(ctx: ToolContext, deltas: seq<ToolCallDelta>,
      calls: seq<ValidatedToolCall>)
    requires AllAccepted(ctx, deltas, calls)
    ensures ValidateAll(ctx, deltas) == Success(calls)
    decreases |deltas|
  {
    hide ValidateToolCall, Accepts, Refuses;
    if deltas != [] {
      ValidationIsExact(ctx, deltas[0]);
      LaterAccepted(ctx, deltas, calls);
      AcceptedAreValidated(ctx, deltas[1..], calls[1..]);
      assert calls == [calls[0]] + calls[1..];
    }
  }

  /** The first call that is refused decides. */
  lemma {:induction false} FirstRefusalDecides(ctx: ToolContext, deltas: seq<ToolCallDelta>,
      calls: seq<ValidatedToolCall>, error: CallError)
    requires |calls| < |deltas| && AllAccepted(ctx, deltas[..|calls|], calls)
    requires var last := deltas[|calls|]; Refuses(ctx, CallName(last), last.arguments, error)
    ensures ValidateAll(ctx, deltas) == Failure(error)
    decreases |deltas|
  {
    hide ValidateToolCall, Accepts, Refuses;
    if calls == [] {
      ValidationIsExact(ctx, deltas[0]);
    } else {
      var front := deltas[..|calls|];
      assert front[0] == deltas[0] && front[1..] == deltas[1..][..|calls[1..]|];
      ValidationIsExact(ctx, deltas[0]);
      LaterAccepted(ctx, front, calls);
      FirstRefusalDecides(ctx, deltas[1..], calls[1..], error);
    }
  }

  lemma LaterAccepted(ctx: ToolContext, deltas: seq<ToolCallDelta>, calls: seq<ValidatedToolCall>)
    requires deltas != [] && AllAccepted(ctx, deltas, calls)
    ensures AllAccepted(ctx, deltas[1..], calls[1..])
  {
    hide Accepts;
    assert forall k :: 0 <= k < |deltas| - 1 ==> deltas[1..][k] == deltas[k + 1] && calls[1..][k] == calls[k + 1];
  }

  // -------- Written Hermes and Qwen calls --------

  function Gap(c: JR.PrintedCall, k: nat): string {
    if k < |c.gaps| then c.gaps[k] else ""
  }

  /** A JSON call as a model writes it, and then `rest`. */
  function WriteCall(c: JR.PrintedCall, rest: string): string {
    c.text + ("<tool_call>" + c.startGap + (WriteHeader(c)
      + (JT.PrintValue(c.arguments) + ("}" + (c.endGap + "</tool_call>" + rest)))))
  }

  function WriteHeader(c: JR.PrintedCall): string {
    Gap(c, 0) + "{" + Gap(c, 1) + "\"name\"" + Gap(c, 2) + ":" + Gap(c, 3) + JT.PrintString(c.name)
    + Gap(c, 4) + "," + Gap(c, 5) + JT.PrintString(c.key) + Gap(c, 6) + ":" + Gap(c, 7)
  }

  function WriteCalls(calls: seq<JR.PrintedCall>, last: string): string {
    if calls == [] then last else WriteCall(calls[0], WriteCalls(calls[1..], last))
  }

  /** Every part of the call can be read, and its second key is "arguments". */
  predicate Writable(ctx: ToolContext, c: JR.PrintedCall) {
    && GR.Lacks(c.text, "<tool_call>")
    && |c.gaps| == 8 && (forall k :: 0 <= k < 8 ==> GR.Gap(c.gaps[k]))
    && JT.ValidUnits(c.name) && ctx.decodeString(JT.PrintString(c.name)).Some?
    && JT.ValidUnits(c.key) && ctx.decodeString(JT.PrintString(c.key)) == Some("arguments")
    && JT.ValidValue(c.arguments) && c.arguments.Object?
  }

  /** Hermes: any white space inside the markers. */
  predicate HermesWritable(ctx: ToolContext, c: JR.PrintedCall) {
    Writable(ctx, c) && GR.Gap(c.startGap) && GR.Gap(c.endGap) && c.gaps[0] == ""
  }

  /** Qwen: a line feed inside each marker. */
  predicate QwenWritable(ctx: ToolContext, c: JR.PrintedCall) {
    Writable(ctx, c) && c.startGap == "\n" && c.endGap == "\n"
  }

  function WrittenName(ctx: ToolContext, c: JR.PrintedCall): string {
    var name := ctx.decodeString(JT.PrintString(c.name));
    if name.Some? then name.value else ""
  }

  /** Call by call, in order: the written name and what the written arguments parse to. */
  ghost predicate Comes(ctx: ToolContext, calls: seq<JR.PrintedCall>, verdict: seq<ValidatedToolCall>) {
    && |calls| == |verdict|
    && forall k :: 0 <= k < |calls| ==>
         Accepts(ctx, WrittenName(ctx, calls[k]), JT.PrintValue(calls[k].arguments), verdict[k])
  }

  lemma HeaderIsWritten(decode: string -> Option<string>, c: JR.PrintedCall)
    requires |c.gaps| == 8
    ensures JL.SpellHeader(JP.HermesConfig(decode), JR.HeaderOf(c)) == WriteHeader(c)
    ensures JL.SpellHeader(JP.QwenConfig(decode), JR.HeaderOf(c)) == WriteHeader(c)
  {
    hide JT.PrintString, Concat;
    var h := JR.HeaderOf(c);
    var tokens := [h.gaps[0], "{", h.gaps[1], "\"", "name", "\"", h.gaps[2], ":", h.gaps[3], h.name, h.gaps[4], ",",
     h.gaps[5], h.key, h.gaps[6], ":", h.gaps[7]];
    assert JL.HeaderTokens(JP.HermesConfig(decode), h) == tokens && JL.HeaderTokens(JP.QwenConfig(decode), h) == tokens;
    Seventeen(tokens);
    var front := c.gaps[0] + "{" + c.gaps[1];
    assert front + "\"" + "name" + "\"" == front + "\"name\"";
  }

  lemma Seventeen(t: seq<string>)
    requires |t| == 17
    ensures Concat(t) == t[0] + t[1] + t[2] + t[3] + t[4] + t[5] + t[6] + t[7] + t[8] + t[9] + t[10] + t[11] + t[12]
                         + t[13] + t[14] + t[15] + t[16]
  {
    hide Concat;
    forall k | 0 <= k < 17 ensures Concat(t[..k + 1]) == Concat(t[..k]) + t[k] {
      ConcatSnoc(t, k);
    }
    ConcatStep([]);
    assert t[..0] == [] && t[..17] == t && "" + t[0] == t[0];
  }

  lemma ConcatSnoc(t: seq<string>, k: nat)
    requires k < |t|
    ensures Concat(t[..k + 1]) == Concat(t[..k]) + t[k]
  {
    hide Concat;
    ConcatAppend(t[..k], [t[k]]);
    ConcatStep([t[k]]);
    ConcatStep([]);
    assert t[..k + 1] == t[..k] + [t[k]] && [t[k]][1..] == [] && t[k] + "" == t[k];
  }

  /** What is written is printed with the formats' own markers, keys and spaces. */
  lemma {:induction false} CallsAreWritten(ctx: ToolContext, calls: seq<JR.PrintedCall>, last: string)
    requires forall k :: 0 <= k < |calls| ==> |calls[k].gaps| == 8
    ensures JR.PrintCalls(JP.HermesConfig(ctx.decodeString), calls, last) == WriteCalls(calls, last)
    ensures JR.PrintCalls(JP.QwenConfig(ctx.decodeString), calls, last) == WriteCalls(calls, last)
    decreases |calls|
  {
    hide JL.SpellHeader, WriteHeader, JT.PrintValue, JR.HeaderOf;
    if calls != [] {
      HeaderIsWritten(ctx.decodeString, calls[0]);
      CallsAreWritten(ctx, calls[1..], last);
    }
  }

  lemma WritableIsPrintable(ctx: ToolContext, c: JR.PrintedCall)
    ensures HermesWritable(ctx, c) ==> JR.Printable(JP.HermesConfig(ctx.decodeString), c)
    ensures QwenWritable(ctx, c) ==> JR.Printable(JP.QwenConfig(ctx.decodeString), c)
    ensures JR.NameOf(JP.HermesConfig(ctx.decodeString), c) == WrittenName(ctx, c)
    ensures JR.NameOf(JP.QwenConfig(ctx.decodeString), c) == WrittenName(ctx, c)
  {
    hide GR.Gap, GR.Lacks, JT.PrintString, JT.ValidUnits, JT.ValidValue;
  }

  /** The deltas a parser gives for written calls. */
  ghost predicate DeltasAre(ctx: ToolContext, calls: seq<JR.PrintedCall>, deltas: seq<ToolCallDelta>) {
    && |deltas| == |calls|
    && forall k :: 0 <= k < |calls| ==>
         deltas[k].name == Some(WrittenName(ctx, calls[k])) && deltas[k].arguments == JT.PrintValue(calls[k].arguments)
  }

  lemma HermesDeltas(ctx: ToolContext, calls: seq<JR.PrintedCall>, last: string)
    requires GR.Lacks(last, TOOL_CALL_START) && forall k :: 0 <= k < |calls| ==> HermesWritable(ctx, calls[k])
    ensures var parsed := ParseWith(ctx, HermesJson, WriteCalls(calls, last));
            parsed.Success? && DeltasAre(ctx, calls, parsed.value.calls)
  {
    hide JR.Printable, JR.PrintCalls, WriteCalls, JR.NameOf, WrittenName, JT.PrintValue, GR.Lacks, Lenient.LenientParse;
    var config := JP.HermesConfig(ctx.decodeString);
    forall k | 0 <= k < |calls|
      ensures |calls[k].gaps| == 8 && JR.Printable(config, calls[k])
      ensures JR.NameOf(config, calls[k]) == WrittenName(ctx, calls[k]) {
      WritableIsPrintable(ctx, calls[k]);
    }
    CallsAreWritten(ctx, calls, last);
    JR.PrintedCallsParseLeniently(ctx.decodeString, calls, last);
    JR.DeltasAreNumbered(config, calls, 0);
  }

  lemma QwenDeltas(ctx: ToolContext, calls: seq<JR.PrintedCall>, last: string)
    requires GR.Lacks(last, TOOL_CALL_START) && forall k :: 0 <= k < |calls| ==> QwenWritable(ctx, calls[k])
    ensures var parsed := ParseWith(ctx, QwenXml, WriteCalls(calls, last));
            parsed.Success? && DeltasAre(ctx, calls, parsed.value.calls)
  {
    hide JR.Printable, JR.PrintCalls, WriteCalls, JR.NameOf, WrittenName, JT.PrintValue, GR.Lacks,
      LenientTheorems.StrictParse;
    var config := JP.QwenConfig(ctx.decodeString);
    forall k | 0 <= k < |calls|
      ensures |calls[k].gaps| == 8 && JR.Printable(config, calls[k])
      ensures JR.NameOf(config, calls[k]) == WrittenName(ctx, calls[k]) {
      WritableIsPrintable(ctx, calls[k]);
    }
    CallsAreWritten(ctx, calls, last);
    JR.FormatsArePlain(ctx.decodeString);
    JR.CallsAreRead(config, calls, last);
    LenientTheorems.StrictParseReadsWhole(config, WriteCalls(calls, last));
    JR.DeltasAreNumbered(config, calls, 0);
  }

  /** A format that finds accepted calls classifies the output as them. */
  lemma FoundCallsClassify(ctx: ToolContext, output: string, calls: seq<JR.PrintedCall>,
      verdict: seq<ValidatedToolCall>)
    requires var parsed := ParseWith(ctx, ctx.format, output);
             parsed.Success? && DeltasAre(ctx, calls, parsed.value.calls)
    requires calls != [] && Comes(ctx, calls, verdict) && |output| <= ctx.maxBytes
    ensures ClassifyOutput(ctx, output) == ToolCalls(verdict)
  {
    hide ParseWith, Accepts, ValidateAll, Find, WrittenName;
    AcceptedAreValidated(ctx, ParseWith(ctx, ctx.format, output).value.calls, verdict);
  }

  /** Written Hermes calls under the Hermes format. */
  lemma HermesCallsClassify(ctx: ToolContext, calls: seq<JR.PrintedCall>, last: string,
      verdict: seq<ValidatedToolCall>)
    requires ctx.format == HermesJson && calls != [] && Comes(ctx, calls, verdict)
    requires GR.Lacks(last, TOOL_CALL_START) && forall k :: 0 <= k < |calls| ==> HermesWritable(ctx, calls[k])
    requires |WriteCalls(calls, last)| <= ctx.maxBytes
    ensures ClassifyOutput(ctx, WriteCalls(calls, last)) == ToolCalls(verdict)
  {
    hide *;
    HermesDeltas(ctx, calls, last);
    FoundCallsClassify(ctx, WriteCalls(calls, last), calls, verdict);
  }

  /** Written Qwen calls under the Qwen format. */
  lemma QwenCallsClassify(ctx: ToolContext, calls: seq<JR.PrintedCall>, last: string, verdict: seq<ValidatedToolCall>)
    requires ctx.format == QwenXml && calls != [] && Comes(ctx, calls, verdict)
    requires GR.Lacks(last, TOOL_CALL_START) && forall k :: 0 <= k < |calls| ==> QwenWritable(ctx, calls[k])
    requires |WriteCalls(calls, last)| <= ctx.maxBytes
    ensures ClassifyOutput(ctx, WriteCalls(calls, last)) == ToolCalls(verdict)
  {
    hide *;
    QwenDeltas(ctx, calls, last);
    FoundCallsClassify(ctx, WriteCalls(calls, last), calls, verdict);
  }

  /** Of written Hermes calls, the first that is refused decides, with its own reason. */
  lemma RefusedCallDecides(ctx: ToolContext, calls: seq<JR.PrintedCall>, last: string,
      accepted: seq<ValidatedToolCall>, error: CallError)
    requires ctx.format == HermesJson && |accepted| < |calls| && Comes(ctx, calls[..|accepted|], accepted)
    requires var c := calls[|accepted|]; Refuses(ctx, WrittenName(ctx, c), JT.PrintValue(c.arguments), error)
    requires GR.Lacks(last, TOOL_CALL_START) && forall k :: 0 <= k < |calls| ==> HermesWritable(ctx, calls[k])
    requires |WriteCalls(calls, last)| <= ctx.maxBytes
    ensures ClassifyOutput(ctx, WriteCalls(calls, last)) == InvalidToolCall(error, WriteCalls(calls, last))
  {
    hide ParseWith, Accepts, Refuses, ValidateAll, Find, WrittenName, WriteCalls, GR.Lacks, HermesWritable;
    HermesDeltas(ctx, calls, last);
    var deltas := ParseWith(ctx, HermesJson, WriteCalls(calls, last)).value.calls;
    FirstRefusalDecides(ctx, deltas, accepted, error);
  }

  // -------- Written GLM calls --------

  /** Call by call, in order: the written name, and what its converted parameters parse to. */
  ghost predicate GlmComes(ctx: ToolContext, calls: seq<GR.PrintedCall>, verdict: seq<ValidatedToolCall>) {
    && |calls| == |verdict|
    && forall k :: 0 <= k < |calls| ==>
         Accepts(ctx, calls[k].name, ctx.convertParams(calls[k].name, GR.Pairs(calls[k].params)), verdict[k])
  }

  /** Written GLM calls under the GLM format. */
  lemma GlmCallsClassify(ctx: ToolContext, text: string, calls: seq<GR.PrintedCall>, verdict: seq<ValidatedToolCall>)
    requires ctx.format == GlmXml && calls != [] && GlmComes(ctx, calls, verdict)
    requires GR.Lacks(text, TOOL_CALL_START) && forall k :: 0 <= k < |calls| ==> GR.Printable(calls[k])
    requires |text + GR.PrintCalls(calls)| <= ctx.maxBytes
    ensures ClassifyOutput(ctx, text + GR.PrintCalls(calls)) == ToolCalls(verdict)
  {
    hide Accepts, ValidateAll, Find, GR.PrintCalls, GR.Deltas, GR.Printable, GR.Lacks, Glm.Parse;
    GR.CallsRoundTrip(ctx.convertParams, text, calls);
    AcceptedAreValidated(ctx, GR.Deltas(ctx.convertParams, calls, 0), verdict);
  }

  // -------- The fallback --------

  /** Where the request's own format finds nothing usable, Hermes calls are found. */
  lemma FallbackClassifies(ctx: ToolContext, output: string, calls: seq<JR.PrintedCall>,
      verdict: seq<ValidatedToolCall>)
    requires ctx.format != HermesJson && calls != [] && Comes(ctx, calls, verdict) && |output| <= ctx.maxBytes
    requires var parsed := ParseWith(ctx, HermesJson, output);
             parsed.Success? && DeltasAre(ctx, calls, parsed.value.calls)
    requires var own := ParseWith(ctx, ctx.format, output);
             || own.Failure?
             || (own.value.calls == [] && Find(output, TOOL_CALL_START).Some?)
             || (own.value.calls != []
                 && exists e :: Refuses(ctx, CallName(own.value.calls[0]), own.value.calls[0].arguments, e))
    ensures ClassifyOutput(ctx, output) == ToolCalls(verdict)
  {
    hide ParseWith, Accepts, Refuses, ValidateToolCall, Find, WrittenName;
    AcceptedAreValidated(ctx, ParseWith(ctx, HermesJson, output).value.calls, verdict);
    var own := ParseWith(ctx, ctx.format, output);
    if own.Success? && own.value.calls != [] {
      ValidationIsExact(ctx, own.value.calls[0]);
    }
  }

  /** The text of a first call that Qwen does not take for one: no line feed follows its marker. */
  lemma QwenStalls(ctx: ToolContext, c: JR.PrintedCall, rest: string)
    requires HermesWritable(ctx, c) && !("\n" <= c.startGap)
    ensures var text := WriteCall(c, rest);
            && Find(text, TOOL_CALL_START) == Some(|c.text|)
            && JL.StaysText(JP.QwenConfig(ctx.decodeString), text)
  {
    hide JT.PrintString, JT.PrintValue, FindFrom, GR.Lacks, WriteHeader, Find;
    var config, text := JP.QwenConfig(ctx.decodeString), WriteCall(c, rest);
    var inside := WriteHeader(c) + (JT.PrintValue(c.arguments) + ("}" + (c.endGap + "</tool_call>" + rest)));
    var block := TOOL_CALL_START + c.startGap + inside;
    WrittenLayout(c, rest);
    JL.FormatsAreTagged(ctx.decodeString);
    JL.MarkerIsFirst(config, c.text, block);
    HeaderBegins(c);
    assert (c.startGap + inside)[0] != '\n';
  }

  lemma WrittenLayout(c: JR.PrintedCall, rest: string)
    ensures var inside := WriteHeader(c) + (JT.PrintValue(c.arguments) + ("}" + (c.endGap + "</tool_call>" + rest)));
            var block, text := TOOL_CALL_START + c.startGap + inside, WriteCall(c, rest);
            text == c.text + block && text[|c.text| + |TOOL_CALL_START|..] == c.startGap + inside
  {
    hide WriteHeader, JT.PrintValue;
  }

  lemma HeaderBegins(c: JR.PrintedCall)
    requires |c.gaps| == 8 && c.gaps[0] == ""
    ensures WriteHeader(c) != "" && WriteHeader(c)[0] == '{'
  {
    hide JT.PrintString;
  }

  /** Written Hermes calls under the Qwen format, where the first marker is not followed by a line feed. */
  lemma QwenFallsBack(ctx: ToolContext, calls: seq<JR.PrintedCall>, last: string, verdict: seq<ValidatedToolCall>)
    requires ctx.format == QwenXml && calls != [] && Comes(ctx, calls, verdict) && !("\n" <= calls[0].startGap)
    requires GR.Lacks(last, TOOL_CALL_START) && forall k :: 0 <= k < |calls| ==> HermesWritable(ctx, calls[k])
    requires |WriteCalls(calls, last)| <= ctx.maxBytes
    ensures ClassifyOutput(ctx, WriteCalls(calls, last)) == ToolCalls(verdict)
  {
    hide Find, HermesWritable, WriteCall, Accepts, JL.StaysText, GR.Lacks, LenientTheorems.StrictParse, ClassifyOutput,
      WrittenName;
    var config, text := JP.QwenConfig(ctx.decodeString), WriteCalls(calls, last);
    HermesDeltas(ctx, calls, last);
    QwenStalls(ctx, calls[0], WriteCalls(calls[1..], last));
    JL.FormatsAreTagged(ctx.decodeString);
    JL.LastIsRead(config, text, 0, NoOutput);
    LenientTheorems.StrictParseReadsWhole(config, text);
    FallbackClassifies(ctx, text, calls, verdict);
  }

  /** The name GLM reads in a block that starts with a brace starts with it, too. */
  lemma GlmReadsBrace(gap: string, more: string, i: nat)
    requires GR.Gap(gap) && Find(gap + ("{" + more), TOOL_CALL_END) == Some(i)
    ensures var body := (gap + ("{" + more))[..i];
            Glm.ParseBody(body).Some? ==> Glm.ParseBody(body).value.0 != "" && Glm.ParseBody(body).value.0[0] == '{'
  {
    hide Find, FindFrom, Glm.ParseParameters, Glm.NameEnd, SkipSpace;
    var s := gap + ("{" + more);
    assert s[i..i + |TOOL_CALL_END|][0] == s[i] && s[|gap|] == '{';
    assert |gap| < i;
    var body := s[..i];
    assert body == "" + gap + body[|gap|..] && body[|gap|..][0] == '{';
    GR.GapIsSkipped("", gap, body[|gap|..]);
  }

  /** GLM finds no call in front of a brace, or one whose name starts with it. */
  lemma GlmMisreads(convert: Glm.Converter, text: string, gap: string, more: string)
    requires GR.Lacks(text, TOOL_CALL_START) && GR.Gap(gap)
    ensures var parsed := Glm.Parse(convert, text + (TOOL_CALL_START + (gap + ("{" + more))));
            parsed.Success? ==>
              && parsed.value.calls != [] && parsed.value.calls[0].name.Some?
              && parsed.value.calls[0].name.value != "" && parsed.value.calls[0].name.value[0] == '{'
  {
    hide GR.Lacks, GR.Gap, Glm.ParseBody, Coalesce, Find, FindFrom, Glm.Drain;
    var inside := gap + ("{" + more);
    var out := NoOutput.AddText(text);
    GR.MarkerIsReached(convert, text, inside);
    var st := Glm.State(inside, Glm.ToolCallMode, 0);
    GlmStep(convert, st, out);
    match Find(inside, TOOL_CALL_END) {
      case None =>
      case Some(i) =>
        GlmReadsBrace(gap, more, i);
        var call := Glm.ParseBody(inside[..i]);
        if call.Some? {
          var first := ToolCallDelta(0, Some(call.value.0), convert(call.value.0, call.value.1));
          var next := Glm.State(inside[i + |TOOL_CALL_END|..], Glm.AfterToolCall, 1);
          var pre := out.AddCall(first);
          assert pre.Append(NoOutput) == pre;
          LT.GlmDrainBefore(convert, next, pre, NoOutput);
          var drained := Glm.Drain(convert, next, NoOutput);
          if drained.Success? {
            var calls := pre.calls + drained.value.1.calls;
            assert calls[0] == first;
            FirstNameStays(calls);
          }
        }
    }
  }

  lemma GlmStep(convert: Glm.Converter, st: Glm.State, out: ToolParserOutput)
    ensures Glm.Drain(convert, st, out) ==
            match Glm.NextEvent(st.buffer, st.mode)
            case Wait => Success((st, out))
            case Bad => Failure(BadSyntax)
            case Ready(event, consumed) =>
              var (next, more) := Glm.Apply(convert, st, out, event, consumed);
              Glm.Drain(convert, next.(buffer := next.buffer[consumed..]), more)
  {
  }

  /** The first call sent is the first of the merged ones, under its name. */
  lemma {:induction false} FirstNameStays(calls: seq<ToolCallDelta>)
    requires calls != [] && calls[0].name.Some?
    ensures Coalesce(calls) != [] && Coalesce(calls)[0].name == calls[0].name
    decreases |calls|
  {
    if |calls| > 1 {
      FirstNameStays(calls[..|calls| - 1]);
    } else {
      assert calls[..0] == [] && Coalesce([]) == [];
    }
  }

  /** Behind its marker and a gap, a written call starts with a brace. */
  lemma CallStartsWithBrace(ctx: ToolContext, c: JR.PrintedCall, rest: string) returns (tail: string)
    requires HermesWritable(ctx, c)
    ensures WriteCall(c, rest) == c.text + (TOOL_CALL_START + (c.startGap + ("{" + tail)))
    ensures GR.Lacks(c.text, TOOL_CALL_START) && GR.Gap(c.startGap)
  {
    hide GR.Lacks, WriteHeader, JT.PrintValue, JT.PrintString, JT.ValidUnits, JT.ValidValue;
    HeaderBegins(c);
    tail := WriteHeader(c)[1..] + (JT.PrintValue(c.arguments) + ("}" + (c.endGap + "</tool_call>" + rest)));
    assert WriteHeader(c) == "{" + WriteHeader(c)[1..];
  }

  /** Written Hermes calls under the GLM format, where no tool has a name that starts with a brace. */
  lemma GlmFallsBack(ctx: ToolContext, calls: seq<JR.PrintedCall>, last: string, verdict: seq<ValidatedToolCall>)
    requires ctx.format == GlmXml && calls != [] && Comes(ctx, calls, verdict)
    requires GR.Lacks(last, TOOL_CALL_START) && forall k :: 0 <= k < |calls| ==> HermesWritable(ctx, calls[k])
    requires forall k :: 0 <= k < |ctx.tools| ==> !("{" <= ctx.tools[k].name)
    requires |WriteCalls(calls, last)| <= ctx.maxBytes
    ensures ClassifyOutput(ctx, WriteCalls(calls, last)) == ToolCalls(verdict)
  {
    hide Find, Accepts, GR.Lacks, GR.Gap, ClassifyOutput, WrittenName, Glm.Parse, WriteCall, HermesWritable, Refuses;
    var text, c := WriteCalls(calls, last), calls[0];
    HermesDeltas(ctx, calls, last);
    var tail := CallStartsWithBrace(ctx, c, WriteCalls(calls[1..], last));
    GlmMisreads(ctx.convertParams, c.text, c.startGap, tail);
    var own := ParseWith(ctx, GlmXml, text);
    if own.Success? {
      var first := own.value.calls[0];
      BraceIsNoTool(ctx, CallName(first), first.arguments);
    }
    FallbackClassifies(ctx, text, calls, verdict);
  }

  lemma BraceIsNoTool(ctx: ToolContext, name: string, arguments: string)
    requires name != "" && name[0] == '{'
    requires forall k :: 0 <= k < |ctx.tools| ==> !("{" <= ctx.tools[k].name)
    ensures Refuses(ctx, name, arguments, UnknownTool)
  {
    assert SpaceLen(name, 0) == 0;
  }

  // -------- The whole verdict --------

  /** What a format's parse comes to: its error, the first refusal, or all calls. */
  ghost predicate ComesTo(ctx: ToolContext, parsed: Result<ToolParserOutput, ParseError>,
      r: Result<seq<ValidatedToolCall>, CallError>)
  {
    match (parsed, r)
    case (Failure(e), _) => r == Failure(ParsingFailed(e))
    case (Success(out), Success(calls)) => AllAccepted(ctx, out.calls, calls)
    case (Success(out), Failure(error)) =>
      exists calls: seq<ValidatedToolCall> ::
        && |calls| < |out.calls| && AllAccepted(ctx, out.calls[..|calls|], calls)
        && Refuses(ctx, CallName(out.calls[|calls|]), out.calls[|calls|].arguments, error)
  }

  /** Validating a parse comes to that and to nothing else. */
  lemma ParsesComeTo(ctx: ToolContext, format: ToolPromptFormat, output: string,
      r: Result<seq<ValidatedToolCall>, CallError>)
    requires ComesTo(ctx, ParseWith(ctx, format, output), r)
    ensures ParseToolCallsWithFormat(ctx, format, output) == r
  {
    hide ParseWith, ValidateAll, Accepts, Refuses;
    var parsed := ParseWith(ctx, format, output);
    match (parsed, r) {
      case (Success(out), Success(calls)) => AcceptedAreValidated(ctx, out.calls, calls);
      case (Success(out), Failure(error)) =>
        var calls: seq<ValidatedToolCall> :|
          && |calls| < |out.calls| && AllAccepted(ctx, out.calls[..|calls|], calls)
          && Refuses(ctx, CallName(out.calls[|calls|]), out.calls[|calls|].arguments, error);
        FirstRefusalDecides(ctx, out.calls, calls, error);
      case _ =>
    }
  }

  /** Every parse comes to something. */
  lemma EveryParseComes(ctx: ToolContext, parsed: Result<ToolParserOutput, ParseError>)
    returns (r: Result<seq<ValidatedToolCall>, CallError>)
    ensures ComesTo(ctx, parsed, r)
  {
    hide Accepts, Refuses;
    match parsed {
      case Failure(e) => r := Failure(ParsingFailed(e));
      case Success(out) =>
        var calls := AcceptedFront(ctx, out.calls);
        if |calls| == |out.calls| {
          assert out.calls[..|calls|] == out.calls;
          r := Success(calls);
        } else {
          var error :| Refuses(ctx, CallName(out.calls[|calls|]), out.calls[|calls|].arguments, error);
          r := Failure(error);
        }
    }
  }

  /** The calls accepted in front of the first that is refused. */
  lemma {:induction false} AcceptedFront(ctx: ToolContext, deltas: seq<ToolCallDelta>)
    returns (calls: seq<ValidatedToolCall>)
    ensures |calls| <= |deltas| && AllAccepted(ctx, deltas[..|calls|], calls)
    ensures |calls| < |deltas| ==>
              exists e :: Refuses(ctx, CallName(deltas[|calls|]), deltas[|calls|].arguments, e)
    decreases |deltas|
  {
    hide Accepts, Refuses, ValidateToolCall;
    if deltas == [] {
      calls := [];
    } else {
      ValidationIsExact(ctx, deltas[0]);
      if ValidateToolCall(ctx, deltas[0]).Success? {
        var rest := AcceptedFront(ctx, deltas[1..]);
        calls := [ValidateToolCall(ctx, deltas[0]).value] + rest;
        assert deltas[..|calls|] == [deltas[0]] + deltas[1..][..|rest|];
      } else {
        calls := [];
      }
    }
  }

  /**
   Every verdict within the limit: the format's own calls if there are any that are all accepted;
   otherwise, in the other formats and where it failed or found nothing behind a marker, Hermes
   calls if there are any; and otherwise what the format itself came to.
   */
  lemma ClassificationIsExact(ctx: ToolContext, output: string, own: Result<seq<ValidatedToolCall>, CallError>,
      hermes: Result<seq<ValidatedToolCall>, CallError>)
    requires |output| <= ctx.maxBytes
    requires ComesTo(ctx, ParseWith(ctx, ctx.format, output), own)
    requires ComesTo(ctx, ParseWith(ctx, HermesJson, output), hermes)
    ensures var nothing := own.Failure? || (own.value == [] && Find(output, TOOL_CALL_START).Some?);
            ClassifyOutput(ctx, output) ==
            if own.Success? && own.value != [] then ToolCalls(own.value)
            else if ctx.format != HermesJson && nothing && hermes.Success? && hermes.value != [] then
              ToolCalls(hermes.value)
            else if own.Failure? then InvalidToolCall(own.error, output)
            else if ctx.requireToolCall then InvalidToolCall(NoToolCall, output)
            else NormalText
  {
    hide ParseWith, ValidateAll, ComesTo, Find, ParseToolCallsWithFormat;
    ParsesComeTo(ctx, ctx.format, output, own);
    ParsesComeTo(ctx, HermesJson, output, hermes);
  }
}
