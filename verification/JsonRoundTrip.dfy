/** Printed Hermes and Qwen tool calls parse back to themselves, however they arrive. */
module JsonRoundTrip {
  import opened Wrappers
  import opened Text
  import opened Output
  import opened Lexing
  import opened Combinators
  import JT = JsonText
  import opened JsonParser
  import opened Grammar
  import Lenient
  import LenientTheorems
  import GR = GlmRoundTrip
  import opened JsonLanguage

  // -------- Printed calls --------

  lemma {:induction false} UnitsClose(units: seq<JT.StringUnit>, before: string)
    requires JT.ValidUnits(units)
    ensures CloseQuote(before + JT.PrintUnits(units) + "\"", |before|, false) ==
            Some(|before| + |JT.PrintUnits(units)| + 1)
    decreases |units|
  {
    var s := before + JT.PrintUnits(units) + "\"";
    if units == [] {
      assert s[|before|] == '"';
    } else {
      var head := match units[0] case Plain(c) => [c] case Escaped(c) => ['\\', c];
      var tail := JT.PrintUnits(units[1..]);
      assert s == before + head + tail + "\"";
      assert s[|before|] == head[0];
      UnitsClose(units[1..], before + head);
    }
  }

  lemma PrintedIsLiteral(units: seq<JT.StringUnit>)
    requires JT.ValidUnits(units)
    ensures Literally(JT.PrintString(units))
  {
    UnitsClose(units, "\"");
  }

  /** A call with the text in front of it and the white space between its tokens. */
  datatype PrintedCall = PrintedCall(
    text: string, startGap: string, gaps: seq<string>, name: seq<JT.StringUnit>, key: seq<JT.StringUnit>,
    arguments: JT.Value, endGap: string)

  /** Formats like Hermes and Qwen: no delimiter, and markers that cannot overlap themselves. */
  predicate Plain(config: Config) {
    Tagged(config) && config.delimiter.None?
  }

  function HeaderOf(c: PrintedCall): Header {
    Header(c.gaps, JT.PrintString(c.name), JT.PrintString(c.key))
  }

  predicate Printable(config: Config, c: PrintedCall) {
    && GR.Lacks(c.text, config.startMarker)
    && MarkerGap(config, c.startGap) && MarkerGap(config, c.endGap)
    && |c.gaps| == 8 && (forall k :: 0 <= k < 8 ==> GR.Gap(c.gaps[k]))
    && (config.whitespace.Optional? ==> c.gaps[0] == "")
    && JT.ValidUnits(c.name) && config.decode(JT.PrintString(c.name)).Some?
    && JT.ValidUnits(c.key) && config.decode(JT.PrintString(c.key)).Some?
    && config.decode(JT.PrintString(c.key)).value in config.argumentsKeys
    && JT.ValidValue(c.arguments) && c.arguments.Object?
  }

  function PrintCall(config: Config, c: PrintedCall, rest: string): string
    requires |c.gaps| == 8
  {
    c.text + (config.startMarker + c.startGap
              + (SpellHeader(config, HeaderOf(c))
                 + (JT.PrintValue(c.arguments) + ("}" + (c.endGap + config.endMarker + rest)))))
  }

  function PrintCalls(config: Config, calls: seq<PrintedCall>, last: string): string
    requires forall k :: 0 <= k < |calls| ==> |calls[k].gaps| == 8
  {
    if calls == [] then last else PrintCall(config, calls[0], PrintCalls(config, calls[1..], last))
  }

  function NameOf(config: Config, c: PrintedCall): string {
    NameIn(config, HeaderOf(c))
  }

  function DeltaOf(config: Config, c: PrintedCall, index: nat): ToolCallDelta {
    ToolCallDelta(index, Some(NameOf(config, c)), JT.PrintValue(c.arguments))
  }

  /** Printed calls, each in a block of its own. */
  function TreeOf(calls: seq<PrintedCall>, last: string): Tree {
    if calls == [] then Last(last)
    else
      var c := calls[0];
      var closer := Closer.Close(c.endGap, TreeOf(calls[1..], last));
      Block(c.text, c.startGap, Body(HeaderOf(c), JT.PrintValue(c.arguments), closer))
  }

  lemma PrintableIsProper(config: Config, c: PrintedCall)
    requires Printable(config, c)
    ensures ProperHeader(config, HeaderOf(c))
    ensures ScanText(FreshScan, JT.PrintValue(c.arguments)) == Closed(|JT.PrintValue(c.arguments)|)
  {
    PrintedIsLiteral(c.name);
    PrintedIsLiteral(c.key);
    JT.ObjectIsTaken(c.arguments, "");
    assert JT.PrintValue(c.arguments) + "" == JT.PrintValue(c.arguments);
  }

  /** Printed calls are written as the format asks, with any text that lacks the marker behind them. */
  lemma {:induction false} PrintedIsTree(config: Config, calls: seq<PrintedCall>, last: string)
    requires Plain(config) && GR.Lacks(last, config.startMarker)
    requires forall k :: 0 <= k < |calls| ==> |calls[k].gaps| == 8 && Printable(config, calls[k])
    ensures ProperTree(config, TreeOf(calls, last))
    ensures SpellTree(config, TreeOf(calls, last)) == PrintCalls(config, calls, last)
    decreases |calls|
  {
    hide ProperHeader, SpellHeader, ScanText, GR.Lacks, Find, JT.PrintValue, HeaderOf;
    if calls == [] {
      LackingIsUnfound(last, config.startMarker);
    } else {
      PrintedIsTree(config, calls[1..], last);
      PrintedIsBlock(config, calls[0], TreeOf(calls[1..], last));
    }
  }

  /** A printed call in front of any proper text. */
  lemma PrintedIsBlock(config: Config, c: PrintedCall, rest: Tree)
    requires Printable(config, c) && ProperTree(config, rest)
    ensures var closer := Closer.Close(c.endGap, rest);
            var tree := Block(c.text, c.startGap, Body(HeaderOf(c), JT.PrintValue(c.arguments), closer));
            ProperTree(config, tree) && SpellTree(config, tree) == PrintCall(config, c, SpellTree(config, rest))
  {
    hide ProperHeader, SpellHeader, ScanText, GR.Lacks, JT.PrintValue;
    PrintableIsProper(config, c);
    var closer := Closer.Close(c.endGap, rest);
    var body := Body(HeaderOf(c), JT.PrintValue(c.arguments), closer);
    assert ProperCloser(config, closer);
    assert SpellCloser(config, closer) == c.endGap + config.endMarker + SpellTree(config, rest);
    assert ProperBody(config, body);
  }

  lemma LackingIsUnfound(s: string, tag: string)
    requires GR.Lacks(s, tag) && tag != ""
    ensures Find(s, tag) == None
  {
    hide FindFrom;
    assert !Occurs(s, tag, |s|);
  }

  // -------- The round trip --------

  function TextOf(calls: seq<PrintedCall>, last: string): string {
    if calls == [] then last else calls[0].text + TextOf(calls[1..], last)
  }

  function DeltasOf(config: Config, calls: seq<PrintedCall>, first: nat): seq<ToolCallDelta>
    decreases |calls|
  {
    if calls == [] then [] else [DeltaOf(config, calls[0], first)] + DeltasOf(config, calls[1..], first + 1)
  }

  lemma {:induction false} TreeSaysCalls(config: Config, calls: seq<PrintedCall>, last: string, index: nat,
      out: ToolParserOutput)
    ensures TreeSays(config, TreeOf(calls, last), index, out) ==
            ToolParserOutput(out.normalText + TextOf(calls, last), out.calls + DeltasOf(config, calls, index))
    decreases |calls|
  {
    hide NameIn, JT.PrintValue, HeaderOf;
    if calls == [] {
      assert out.calls + [] == out.calls;
    } else {
      var c := calls[0];
      TreeSaysCalls(config, calls[1..], last, index + 1, out.AddText(c.text).AddCall(DeltaOf(config, c, index)));
      assert out.normalText + c.text + TextOf(calls[1..], last) == out.normalText + TextOf(calls, last);
      assert out.calls + [DeltaOf(config, c, index)] + DeltasOf(config, calls[1..], index + 1) ==
        out.calls + DeltasOf(config, calls, index);
    }
  }

  lemma CallsAreRead(config: Config, calls: seq<PrintedCall>, last: string)
    requires Plain(config) && GR.Lacks(last, config.startMarker)
    requires forall k :: 0 <= k < |calls| ==> |calls[k].gaps| == 8 && Printable(config, calls[k])
    ensures ReadText(config, PrintCalls(config, calls, last), 0, NoOutput) ==
            Success(ToolParserOutput(TextOf(calls, last), DeltasOf(config, calls, 0)))
  {
    hide ReadText, ProperTree, SpellTree, TreeSays, TreeOf, Printable, PrintCalls, GR.Lacks;
    PrintedIsTree(config, calls, last);
    TreeIsRead(config, TreeOf(calls, last), 0, NoOutput);
    TreeSaysCalls(config, calls, last, 0, NoOutput);
    assert "" + TextOf(calls, last) == TextOf(calls, last);
    assert [] + DeltasOf(config, calls, 0) == DeltasOf(config, calls, 0);
  }

  lemma {:induction false} DeltasAreNumbered(config: Config, calls: seq<PrintedCall>, first: nat)
    ensures var d := DeltasOf(config, calls, first);
            |d| == |calls| && forall k :: 0 <= k < |d| ==> d[k] == DeltaOf(config, calls[k], first + k)
    decreases |calls|
  {
    hide DeltaOf;
    if calls != [] {
      DeltasAreNumbered(config, calls[1..], first + 1);
    }
  }

  /**
   Calls printed with any white space and any text between them, cut into any chunks,
   parse back to that text and to those names and argument texts, numbered in order.
   */
  lemma PrintedCallsParse(config: Config, calls: seq<PrintedCall>, last: string, chunks: seq<string>)
    requires Plain(config) && GR.Lacks(last, config.startMarker)
    requires forall k :: 0 <= k < |calls| ==> |calls[k].gaps| == 8 && Printable(config, calls[k])
    requires Concat(chunks) == PrintCalls(config, calls, last)
    ensures ParseChunks(config, chunks).Success?
    ensures var parsed := ParseChunks(config, chunks).value;
            && parsed.normalText == TextOf(calls, last) && |parsed.calls| == |calls|
            && forall k :: 0 <= k < |calls| ==>
                 parsed.calls[k] == ToolCallDelta(k, Some(NameOf(config, calls[k])), JT.PrintValue(calls[k].arguments))
  {
    hide ParseChunks, ReadText, PrintCalls, Printable, GR.Lacks, NameOf;
    ParseChunksReadsWhole(config, chunks);
    CallsAreRead(config, calls, last);
    DeltasAreNumbered(config, calls, 0);
  }

  /** Both formats the proxy uses are such formats, and the lenient parser reads printed calls the same way. */
  lemma PrintedCallsParseLeniently(decode: Decoder, calls: seq<PrintedCall>, last: string)
    requires var config := HermesConfig(decode);
             && GR.Lacks(last, TOOL_CALL_START)
             && forall k :: 0 <= k < |calls| ==> |calls[k].gaps| == 8 && Printable(config, calls[k])
    ensures var config := HermesConfig(decode);
            Lenient.LenientParse(config, PrintCalls(config, calls, last)) ==
            Success(ToolParserOutput(TextOf(calls, last), DeltasOf(config, calls, 0)))
    ensures Plain(HermesConfig(decode)) && Plain(QwenConfig(decode))
  {
    hide ReadText, PrintCalls, Printable, GR.Lacks, Lenient.LenientParse, LenientTheorems.StrictParse;
    var config := HermesConfig(decode);
    FormatsArePlain(decode);
    var text := PrintCalls(config, calls, last);
    LenientTheorems.StrictParseReadsWhole(config, text);
    CallsAreRead(config, calls, last);
    LenientTheorems.LenientKeepsStrict(config, text);
  }

  lemma FormatsArePlain(decode: Decoder)
    ensures Plain(HermesConfig(decode)) && Plain(QwenConfig(decode))
  {
    FormatsAreTagged(decode);
  }
}
