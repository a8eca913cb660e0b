/** Printed GLM tool calls parse back to themselves. */
module GlmRoundTrip {
  import opened Wrappers
  import opened Text
  import opened Output
  import opened Combinators
  import opened Glm

  // -------- Tags --------

  /** `<` in front and nowhere else: such a tag cannot overlap another occurrence of itself. */
  predicate TagLike(tag: string) {
    tag != "" && tag[0] == '<' && forall i :: 1 <= i < |tag| ==> tag[i] != '<'
  }

  predicate Lacks(s: string, tag: string) {
    forall i :: 0 <= i < |s| ==> !Occurs(s, tag, i)
  }

  predicate StartsTag(s: string) {
    s != "" && s[0] == '<'
  }

  /** A tag that occurs in `a + b` lies in one of them when `b` starts a tag itself. */
  lemma NoStraddling(a: string, b: string, tag: string, i: nat)
    requires TagLike(tag) && StartsTag(b) && Occurs(a + b, tag, i) && i < |a|
    ensures Occurs(a, tag, i)
  {
    assert (a + b)[|a|] == b[0];
    assert forall k :: 0 <= k < |tag| ==> tag[k] == (a + b)[i + k];
    OccursInPrefix(a, b, tag, i);
  }

  lemma LacksJoin(a: string, b: string, tag: string)
    requires TagLike(tag) && StartsTag(b) && Lacks(a, tag) && Lacks(b, tag)
    ensures Lacks(a + b, tag)
  {
    forall i | 0 <= i < |a + b| ensures !Occurs(a + b, tag, i) {
      if |a| <= i {
        OccursInSuffix(a, b, tag, i - |a|);
      } else if Occurs(a + b, tag, i) {
        NoStraddling(a, b, tag, i);
      }
    }
  }

  /** Another tag in front of text without `tag`. */
  lemma LacksAfterTag(other: string, content: string, tag: string, j: nat)
    requires TagLike(tag) && TagLike(other) && Lacks(content, tag)
    requires j < |other| && j < |tag| && other[j] != tag[j]
    ensures Lacks(other + content, tag)
  {
    var s := other + content;
    forall i | 0 <= i < |s| ensures !Occurs(s, tag, i) {
      assert i + |tag| <= |s| ==> s[i..i + |tag|][0] == s[i] && s[i..i + |tag|][j] == s[i + j];
      if |other| <= i {
        OccursInSuffix(other, content, tag, i - |other|);
      }
    }
  }

  lemma LacksWithoutAngle(s: string, tag: string)
    requires TagLike(tag) && forall i :: 0 <= i < |s| ==> s[i] != '<'
    ensures Lacks(s, tag)
  {
    forall i | 0 <= i < |s| ensures !Occurs(s, tag, i) {
      assert i + |tag| <= |s| ==> s[i..i + |tag|][0] == s[i];
    }
  }

  /** Reading until a tag stops at the tag written after text that lacks it. */
  lemma TagIsFound(before: string, s: string, tag: string, rest: string)
    requires TagLike(tag) && Lacks(s, tag)
    ensures FindFrom(before + s + tag + rest, tag, |before|) == Some(|before| + |s|)
  {
    var whole := before + s + tag + rest;
    var at := |before| + |s|;
    assert whole[at..at + |tag|] == tag;
    forall i | |before| <= i < at ensures !Occurs(whole, tag, i) {
      var j := i - |before|;
      assert whole == before + (s + (tag + rest));
      OccursInSuffix(before, s + (tag + rest), tag, j);
      if Occurs(s + (tag + rest), tag, j) {
        NoStraddling(s, tag + rest, tag, j);
      }
    }
    FirstFrom(whole, tag, |before|, at);
  }

  lemma FirstFrom(s: string, p: string, from: nat, at: nat)
    requires from <= at && Occurs(s, p, at)
    requires forall i :: from <= i < at ==> !Occurs(s, p, i)
    ensures FindFrom(s, p, from) == Some(at)
  {
  }

  // -------- Printed calls --------

  predicate Gap(s: string) {
    forall i :: 0 <= i < |s| ==> AsciiSpace(s[i])
  }

  /** A parameter with the white space printed after its key's tag and after its value's. */
  datatype PrintedParam = PrintedParam(key: string, keyGap: string, value: string, valueGap: string)

  datatype PrintedCall = PrintedCall(
    lead: string, name: string, nameGap: string, params: seq<PrintedParam>, callGap: string)

  /** Key and value end at their own closing tags, and the key is not empty. */
  predicate ProperParam(p: PrintedParam) {
    && p.key != "" && Lacks(p.key, ARG_KEY_END) && Lacks(p.value, ARG_VALUE_END)
    && Gap(p.keyGap) && Gap(p.valueGap)
  }

  predicate PrintableParam(p: PrintedParam) {
    ProperParam(p) && Lacks(p.key, TOOL_CALL_END) && Lacks(p.value, TOOL_CALL_END)
  }

  predicate PrintableName(name: string) {
    name != "" && forall i :: 0 <= i < |name| ==> name[i] != '<' && SpaceLen(name, i) == 0
  }

  predicate ProperBody(c: PrintedCall) {
    && Gap(c.lead) && PrintableName(c.name) && Gap(c.nameGap)
    && forall i :: 0 <= i < |c.params| ==> ProperParam(c.params[i])
  }

  predicate Printable(c: PrintedCall) {
    ProperBody(c) && Gap(c.callGap) && forall i :: 0 <= i < |c.params| ==> PrintableParam(c.params[i])
  }

  function PrintParam(p: PrintedParam): string {
    ARG_KEY_START + p.key + ARG_KEY_END + p.keyGap + ARG_VALUE_START + p.value + ARG_VALUE_END + p.valueGap
  }

  function PrintParams(params: seq<PrintedParam>): string {
    if params == [] then "" else PrintParam(params[0]) + PrintParams(params[1..])
  }

  function PrintBody(c: PrintedCall): string {
    c.lead + c.name + c.nameGap + PrintParams(c.params)
  }

  function PrintCall(c: PrintedCall): string {
    TOOL_CALL_START + PrintBody(c) + TOOL_CALL_END + c.callGap
  }

  function PrintCalls(calls: seq<PrintedCall>): string {
    if calls == [] then "" else PrintCall(calls[0]) + PrintCalls(calls[1..])
  }

  /** Keys and values without the white space around them. */
  function Pairs(params: seq<PrintedParam>): RawParams {
    if params == [] then [] else [(Trim(params[0].key), Trim(params[0].value))] + Pairs(params[1..])
  }

  // -------- Bodies --------

  lemma GapIsSkipped(before: string, gap: string, rest: string)
    requires Gap(gap) && (rest == "" || !AsciiSpace(rest[0]))
    ensures SkipSpace(before + gap + rest, |before|) == |before| + |gap|
  {
    var s := before + gap + rest;
    assert forall i :: |before| <= i < |before| + |gap| ==> s[i] == gap[i - |before|];
    SkipSpaceIs(s, |before|, |before| + |gap|);
  }

  lemma SolidTags()
    ensures TagLike(TOOL_CALL_START) && TagLike(TOOL_CALL_END)
    ensures TagLike(ARG_KEY_START) && TagLike(ARG_KEY_END) && TagLike(ARG_VALUE_START) && TagLike(ARG_VALUE_END)
  {
  }

  /** Content between two tags, in place. */
  lemma TaggedIsRead(before: string, tag: string, content: string, close: string, rest: string)
    requires TagLike(close) && Lacks(content, close)
    ensures var s := before + tag + content + close + rest;
            var at := |before| + |tag|;
            && Occurs(s, tag, |before|)
            && FindFrom(s, close, at) == Some(at + |content|)
            && s[at..at + |content|] == content
  {
    hide Lacks, TagLike, FindFrom;
    TagIsFound(before + tag, content, close, rest);
  }

  lemma ParamLayout(before: string, p: PrintedParam, rest: string)
    ensures var s := before + PrintParam(p) + rest;
            var value := ARG_VALUE_START + p.value + ARG_VALUE_END + (p.valueGap + rest);
            var keyed := before + ARG_KEY_START + p.key + ARG_KEY_END;
            && s == keyed + (p.keyGap + value)
            && s == keyed + p.keyGap + value
            && s == keyed + p.keyGap + ARG_VALUE_START + p.value + ARG_VALUE_END + (p.valueGap + rest)
  {
    var keyed := ARG_KEY_START + p.key + ARG_KEY_END;
    RegroupParam(before, ARG_KEY_START, p.key, ARG_KEY_END, p.keyGap, ARG_VALUE_START + p.value + ARG_VALUE_END,
      p.valueGap, rest);
    Regroup(keyed + p.keyGap, ARG_VALUE_START, p.value, ARG_VALUE_END, p.valueGap);
    assert PrintParam(p) == keyed + p.keyGap + (ARG_VALUE_START + p.value + ARG_VALUE_END) + p.valueGap;
    var front := before + ARG_KEY_START + p.key + ARG_KEY_END + p.keyGap;
    assert front + (ARG_VALUE_START + p.value + ARG_VALUE_END + (p.valueGap + rest))
        == front + ARG_VALUE_START + p.value + ARG_VALUE_END + (p.valueGap + rest);
  }

  lemma RegroupParam(before: string, a: string, b: string, c: string, d: string, e: string, f: string, rest: string)
    ensures before + (a + b + c + d + e + f) + rest == before + a + b + c + (d + (e + (f + rest)))
    ensures before + (a + b + c + d + e + f) + rest == before + a + b + c + d + (e + (f + rest))
  {
  }

  /** One printed parameter, in place. */
  lemma ParamParses(before: string, p: PrintedParam, rest: string)
    requires ProperParam(p)
    ensures ParseParameter(before + PrintParam(p) + rest, |before|) ==
            Some(Parameter((Trim(p.key), Trim(p.value)), |before| + |PrintParam(p)| - |p.valueGap|))
  {
    hide Trim, Lacks, PrintParam, Occurs, FindFrom, SkipSpace;
    SolidTags();
    ParamLayout(before, p, rest);
    ParamLength(p);
    var tail := p.valueGap + rest;
    var value := ARG_VALUE_START + p.value + ARG_VALUE_END + tail;
    var keyed := before + ARG_KEY_START + p.key + ARG_KEY_END;
    TaggedIsRead(before, ARG_KEY_START, p.key, ARG_KEY_END, p.keyGap + value);
    GapIsSkipped(keyed, p.keyGap, value);
    TaggedIsRead(keyed + p.keyGap, ARG_VALUE_START, p.value, ARG_VALUE_END, tail);
  }

  lemma ParamLength(p: PrintedParam)
    ensures |PrintParam(p)| == |ARG_KEY_START| + |p.key| + |ARG_KEY_END| + |p.keyGap|
                               + |ARG_VALUE_START| + |p.value| + |ARG_VALUE_END| + |p.valueGap|
  {
  }

  lemma {:induction false} ParamsParse(before: string, params: seq<PrintedParam>)
    requires forall i :: 0 <= i < |params| ==> ProperParam(params[i])
    ensures ParseParameters(before + PrintParams(params), |before|) == (Pairs(params), |before + PrintParams(params)|)
    decreases |params|
  {
    hide ParseParameter, ProperParam, PrintParam, SkipSpace, Find, FindFrom, Lacks, TagLike, Gap, Trim;
    var s := before + PrintParams(params);
    if params == [] {
      NoParameterAtEnd(s);
    } else {
      var p, rest := params[0], PrintParams(params[1..]);
      var upTo := before + PrintParam(p);
      assert s == upTo + rest;
      ParamParses(before, p, rest);
      ParamsStart(params[1..]);
      ParamGapIsSkipped(before, p, rest);
      ParamsParse(upTo, params[1..]);
    }
  }

  lemma ParamGapIsSkipped(before: string, p: PrintedParam, rest: string)
    requires ProperParam(p) && (rest == "" || !AsciiSpace(rest[0]))
    ensures var upTo := before + PrintParam(p);
            |p.valueGap| <= |PrintParam(p)| && SkipSpace(upTo + rest, |upTo| - |p.valueGap|) == |upTo|
  {
    hide PrintParam, SkipSpace, Lacks, Gap;
    ParamGap(p);
    var upTo := before + PrintParam(p);
    var bare := upTo[..|upTo| - |p.valueGap|];
    assert upTo == bare + p.valueGap;
    GapIsSkipped(bare, p.valueGap, rest);
  }

  lemma ParamGap(p: PrintedParam)
    requires ProperParam(p)
    ensures |p.valueGap| <= |PrintParam(p)| && PrintParam(p)[|PrintParam(p)| - |p.valueGap|..] == p.valueGap
            && Gap(p.valueGap)
  {
  }

  lemma NoParameterAtEnd(s: string)
    ensures ParseParameter(s, |s|) == None
  {
  }

  lemma ParamsStart(params: seq<PrintedParam>)
    ensures params == [] ==> PrintParams(params) == ""
    ensures params != [] ==> StartsTag(PrintParams(params))
  {
  }

  /** The name ends where its gap, or the first tag, begins. */
  lemma NameIsRead(before: string, name: string, rest: string, at: nat)
    requires PrintableName(name) && at <= |name|
    requires rest == "" || rest[0] == '<' || AsciiSpace(rest[0])
    ensures NameEnd(before + name + rest, |before| + at) == |before| + |name|
    decreases |name| - at
  {
    var s := before + name + rest;
    if at < |name| {
      assert s[|before| + at] == name[at];
      assert SpaceLen(s, |before| + at) == 0 by {
        assert SpaceLen(name, at) == 0;
        assert forall k :: at <= k < |name| ==> s[|before| + k] == name[k];
        assert rest != "" ==> s[|before| + |name|] == rest[0];
      }
      NameIsRead(before, name, rest, at + 1);
    } else if rest != "" {
      assert s[|before| + at] == rest[0];
    }
  }

  lemma BodyParses(c: PrintedCall)
    requires ProperBody(c)
    ensures ParseBody(PrintBody(c)) == Some((c.name, Pairs(c.params)))
  {
    hide ParseParameters, ProperParam, NameEnd, SpaceLen, PrintParams, SkipSpace, Pairs;
    var body := PrintBody(c);
    BodyStarts(c);
    ParamsParse(c.lead + c.name + c.nameGap, c.params);
    NothingToSkip(body, |body|);
    assert body[|c.lead|..|c.lead| + |c.name|] == c.name;
  }

  lemma NothingToSkip(s: string, at: nat)
    requires at <= |s| && (at < |s| ==> !AsciiSpace(s[at]))
    ensures SkipSpace(s, at) == at
  {
  }

  lemma BodyStarts(c: PrintedCall)
    requires ProperBody(c)
    ensures var body, at := PrintBody(c), |c.lead|;
            && SkipSpace(body, 0) == at && NameEnd(body, at) == at + |c.name| && 0 < |c.name|
            && SkipSpace(body, at + |c.name|) == |c.lead + c.name + c.nameGap|
  {
    hide ProperParam, SpaceLen, PrintParams, SkipSpace, NameEnd;
    var body, params := PrintBody(c), PrintParams(c.params);
    ParamsStart(c.params);
    NameFirst(c.name);
    assert body == "" + c.lead + (c.name + (c.nameGap + params));
    GapIsSkipped("", c.lead, c.name + (c.nameGap + params));
    assert body == c.lead + c.name + (c.nameGap + params);
    NameIsRead(c.lead, c.name, c.nameGap + params, 0);
    GapIsSkipped(c.lead + c.name, c.nameGap, params);
  }

  lemma NameFirst(name: string)
    requires PrintableName(name)
    ensures name != "" && !AsciiSpace(name[0])
  {
    assert SpaceLen(name, 0) == 0;
  }

  lemma ParamLacksEnd(p: PrintedParam)
    requires PrintableParam(p)
    ensures Lacks(PrintParam(p), TOOL_CALL_END)
  {
    hide Lacks, Trim;
    SolidTags();
    var k1, k2 := ARG_KEY_START + p.key, ARG_KEY_END + p.keyGap;
    var v1, v2 := ARG_VALUE_START + p.value, ARG_VALUE_END + p.valueGap;
    LacksWithoutAngle(p.keyGap, TOOL_CALL_END);
    LacksWithoutAngle(p.valueGap, TOOL_CALL_END);
    LacksAfterTag(ARG_KEY_START, p.key, TOOL_CALL_END, 1);
    LacksAfterTag(ARG_KEY_END, p.keyGap, TOOL_CALL_END, 2);
    LacksAfterTag(ARG_VALUE_START, p.value, TOOL_CALL_END, 1);
    LacksAfterTag(ARG_VALUE_END, p.valueGap, TOOL_CALL_END, 2);
    LacksJoin(v1, v2, TOOL_CALL_END);
    LacksJoin(k2, v1 + v2, TOOL_CALL_END);
    LacksJoin(k1, k2 + (v1 + v2), TOOL_CALL_END);
    assert PrintParam(p) == k1 + (k2 + (v1 + v2));
  }

  lemma {:induction false} ParamsLackEnd(params: seq<PrintedParam>)
    requires forall i :: 0 <= i < |params| ==> PrintableParam(params[i])
    ensures Lacks(PrintParams(params), TOOL_CALL_END)
  {
    hide PrintableParam;
    if params != [] {
      SolidTags();
      ParamLacksEnd(params[0]);
      ParamsLackEnd(params[1..]);
      ParamsStart(params[1..]);
      if params[1..] == [] {
        assert PrintParam(params[0]) + "" == PrintParam(params[0]);
      } else {
        LacksJoin(PrintParam(params[0]), PrintParams(params[1..]), TOOL_CALL_END);
      }
    }
  }

  lemma BodyLacksEnd(c: PrintedCall)
    requires Printable(c)
    ensures Lacks(PrintBody(c), TOOL_CALL_END)
  {
    hide PrintableParam, Lacks;
    SolidTags();
    LacksWithoutAngle(c.lead + c.name + c.nameGap, TOOL_CALL_END);
    ParamsLackEnd(c.params);
    ParamsStart(c.params);
    if c.params == [] {
      assert c.lead + c.name + c.nameGap + "" == c.lead + c.name + c.nameGap;
    } else {
      LacksJoin(c.lead + c.name + c.nameGap, PrintParams(c.params), TOOL_CALL_END);
    }
  }

  // -------- Whole outputs --------

  function Deltas(convert: Converter, calls: seq<PrintedCall>, from: nat): seq<ToolCallDelta> {
    if calls == [] then []
    else [ToolCallDelta(from, Some(calls[0].name), convert(calls[0].name, Pairs(calls[0].params)))]
         + Deltas(convert, calls[1..], from + 1)
  }

  /** Inside a call block: the body is read, then whatever follows. */
  lemma CallIsRead(convert: Converter, c: PrintedCall, rest: string, count: nat, out: ToolParserOutput)
    requires Printable(c)
    ensures Drain(convert, State(PrintBody(c) + TOOL_CALL_END + rest, ToolCallMode, count), out) ==
            Drain(convert, State(rest, AfterToolCall, count + 1),
                  out.AddCall(ToolCallDelta(count, Some(c.name), convert(c.name, Pairs(c.params)))))
  {
    hide ParseBody, PrintBody, Printable, NextEvent, Pairs;
    BlockEvent(c, rest);
  }

  lemma PrintableIsProper(c: PrintedCall)
    requires Printable(c)
    ensures ProperBody(c)
  {
  }

  lemma BlockEvent(c: PrintedCall, rest: string)
    requires Printable(c)
    ensures var s, n := PrintBody(c) + TOOL_CALL_END + rest, |PrintBody(c)| + |TOOL_CALL_END|;
            NextEvent(s, ToolCallMode) == Ready(Call(c.name, Pairs(c.params)), n) && s[n..] == rest
  {
    hide ParseBody, PrintBody, Printable, ProperBody, Lacks, Pairs, FindFrom, Occurs;
    SolidTags();
    BodyLacksEnd(c);
    PrintableIsProper(c);
    BodyParses(c);
    var body := PrintBody(c);
    TagIsFound("", body, TOOL_CALL_END, rest);
    assert "" + body + TOOL_CALL_END + rest == body + TOOL_CALL_END + rest;
    assert (body + TOOL_CALL_END + rest)[..|body|] == body;
  }

  /** What follows the start marker of the first block. */
  function Inside(calls: seq<PrintedCall>): string
    requires calls != []
  {
    PrintBody(calls[0]) + TOOL_CALL_END + (calls[0].callGap + PrintCalls(calls[1..]))
  }

  lemma CallsLayout(calls: seq<PrintedCall>)
    requires calls != []
    ensures PrintCalls(calls) == TOOL_CALL_START + Inside(calls)
  {
    hide PrintBody;
    Regroup(TOOL_CALL_START, PrintBody(calls[0]), TOOL_CALL_END, calls[0].callGap, PrintCalls(calls[1..]));
  }

  lemma Regroup(a: string, b: string, c: string, d: string, e: string)
    ensures a + b + c + d + e == a + (b + c + (d + e))
  {
  }

  lemma GapThenMarker(gap: string, inside: string)
    requires Gap(gap)
    ensures NextEvent(gap + (TOOL_CALL_START + inside), AfterToolCall) == Ready(CallStart, |gap| + |TOOL_CALL_START|)
    ensures (gap + (TOOL_CALL_START + inside))[|gap| + |TOOL_CALL_START|..] == inside
  {
    var s := gap + (TOOL_CALL_START + inside);
    assert s == "" + gap + (TOOL_CALL_START + inside);
    GapIsSkipped("", gap, TOOL_CALL_START + inside);
    OccursInPrefix(TOOL_CALL_START, inside, TOOL_CALL_START, 0);
    OccursInSuffix(gap, TOOL_CALL_START + inside, TOOL_CALL_START, 0);
  }

  lemma GapThenEnd(gap: string)
    requires Gap(gap)
    ensures NextEvent(gap, AfterToolCall) == Wait
  {
    assert gap == "" + gap + "";
    GapIsSkipped("", gap, "");
  }

  /** After a call: a gap, then the next block or the end of the text. */
  lemma {:induction false} CallsAreRead(convert: Converter, gap: string, calls: seq<PrintedCall>, count: nat,
      out: ToolParserOutput)
    requires Gap(gap) && forall i :: 0 <= i < |calls| ==> Printable(calls[i])
    ensures var st := State(gap + PrintCalls(calls), AfterToolCall, count);
            Drain(convert, st, out).Success?
            && Drain(convert, st, out).value.0.mode == AfterToolCall
            && Drain(convert, st, out).value.1 == out.(calls := out.calls + Deltas(convert, calls, count))
    decreases |calls|
  {
    hide Printable, NextEvent, Inside;
    if calls == [] {
      GapThenEnd(gap);
      assert gap + "" == gap;
      assert out.calls + [] == out.calls;
    } else {
      CallsLayout(calls);
      GapThenMarker(gap, Inside(calls));
      BlockIsRead(convert, calls, count, out);
    }
  }

  lemma {:induction false} BlockIsRead(convert: Converter, calls: seq<PrintedCall>, count: nat, out: ToolParserOutput)
    requires calls != [] && forall i :: 0 <= i < |calls| ==> Printable(calls[i])
    ensures var c := calls[0];
            var st := State(Inside(calls), ToolCallMode, count);
            Drain(convert, st, out).Success?
            && Drain(convert, st, out).value.0.mode == AfterToolCall
            && Drain(convert, st, out).value.1 == out.(calls := out.calls + Deltas(convert, calls, count))
    decreases |calls|, 0
  {
    hide Drain, Deltas, PrintCalls, PrintBody, Printable;
    var c := calls[0];
    DeltasCons(convert, calls, count, out.calls);
    CallGapIsGap(c);
    CallIsRead(convert, c, c.callGap + PrintCalls(calls[1..]), count, out);
    var delta := ToolCallDelta(count, Some(c.name), convert(c.name, Pairs(c.params)));
    CallsAreRead(convert, c.callGap, calls[1..], count + 1, out.AddCall(delta));
  }

  lemma CallGapIsGap(c: PrintedCall)
    requires Printable(c)
    ensures Gap(c.callGap)
  {
  }

  lemma DeltasCons(convert: Converter, calls: seq<PrintedCall>, count: nat, before: seq<ToolCallDelta>)
    requires calls != []
    ensures var delta := ToolCallDelta(count, Some(calls[0].name), convert(calls[0].name, Pairs(calls[0].params)));
            before + Deltas(convert, calls, count) == before + [delta] + Deltas(convert, calls[1..], count + 1)
  {
  }

  /** Deltas numbered from 0 with one delta each merge to themselves. */
  lemma {:induction false} NumberedAreMerged(d: seq<ToolCallDelta>)
    requires forall k :: 0 <= k < |d| ==> d[k].toolIndex == k
    ensures Coalesce(d) == d
  {
    if d != [] {
      var init, last := d[..|d| - 1], d[|d| - 1];
      NumberedAreMerged(init);
      assert Slot(init, last.toolIndex) == |init|;
      assert d == init + [last];
    }
  }

  lemma {:induction false} DeltaIndices(convert: Converter, calls: seq<PrintedCall>, from: nat)
    ensures var d := Deltas(convert, calls, from);
            |d| == |calls| && forall k :: 0 <= k < |d| ==>
              d[k] == ToolCallDelta(from + k, Some(calls[k].name), convert(calls[k].name, Pairs(calls[k].params)))
  {
    if calls != [] {
      DeltaIndices(convert, calls[1..], from + 1);
    }
  }

  /**
   Text without the start marker, then printed calls with white space after
   each, parses in one push to that text and exactly those calls, numbered in order.
   */
  lemma CallsRoundTrip(convert: Converter, text: string, calls: seq<PrintedCall>)
    requires Lacks(text, TOOL_CALL_START) && calls != []
    requires forall i :: 0 <= i < |calls| ==> Printable(calls[i])
    ensures Parse(convert, text + PrintCalls(calls)) == Success(ToolParserOutput(text, Deltas(convert, calls, 0)))
    ensures |Deltas(convert, calls, 0)| == |calls|
    ensures forall k :: 0 <= k < |calls| ==>
              Deltas(convert, calls, 0)[k] ==
                ToolCallDelta(k, Some(calls[k].name), convert(calls[k].name, Pairs(calls[k].params)))
  {
    hide Printable, NextEvent, Lacks, Drain, Inside, Coalesce, PrintCalls, Deltas;
    CallsLayout(calls);
    MarkerIsReached(convert, text, Inside(calls));
    BlockIsRead(convert, calls, 0, NoOutput.AddText(text));
    DeltaIndices(convert, calls, 0);
    var d := Deltas(convert, calls, 0);
    NumberedAreMerged(d);
    assert [] + d == d && "" + text == text;
  }

  /** Text up to the first marker is released, and the block is entered. */
  lemma MarkerIsReached(convert: Converter, text: string, inside: string)
    requires Lacks(text, TOOL_CALL_START)
    ensures Drain(convert, State(text + (TOOL_CALL_START + inside), TextMode, 0), NoOutput) ==
            Drain(convert, State(inside, ToolCallMode, 0), NoOutput.AddText(text))
  {
    hide Lacks;
    var s, block := text + (TOOL_CALL_START + inside), TOOL_CALL_START + inside;
    SolidTags();
    TagIsFound("", text, TOOL_CALL_START, inside);
    assert "" + text + TOOL_CALL_START + inside == s;
    assert Occurs(block, TOOL_CALL_START, 0) by {
      OccursInPrefix(TOOL_CALL_START, inside, TOOL_CALL_START, 0);
    }
    assert NextEvent(block, TextMode) == Ready(CallStart, |TOOL_CALL_START|);
    assert block[|TOOL_CALL_START|..] == inside;
    if text == "" {
      assert s == block && NoOutput.AddText(text) == NoOutput;
    } else {
      NotAtMarker(text, block);
      assert NextEvent(s, TextMode) == Ready(TextRun(|text|), |text|);
      assert s[|text|..] == block && s[..|text|] == text;
    }
  }

  lemma NotAtMarker(text: string, block: string)
    requires Find(text + block, TOOL_CALL_START) == Some(|text|) && text != ""
    requires Occurs(block, TOOL_CALL_START, 0)
    ensures Literal(text + block, 0, TOOL_CALL_START) == Backtrack
  {
  }
}
