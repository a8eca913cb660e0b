/** Every call the lenient parser returns is whole (src/tools.rs, src/vllm_tool_parser/json/mod.rs). */
module WholeCalls {
  import opened Wrappers
  import opened Text
  import opened Output
  import opened Lexing
  import opened JsonParser
  import opened Lenient
  import LenientTheorems

  // -------- The two argument scanners in step --------

  /** One depth counts what the other splits into objects and arrays; strings and escapes agree. */
  ghost predicate InStep(args: ArgsScan, scan: Scan) {
    && args.inString == scan.inString && args.escaped == scan.escape
    && args.depth == scan.objectDepth + scan.arrayDepth
    && args.started == (scan.phase != Initial)
    && Sound(scan)
  }

  lemma CompleteTogether(args: ArgsScan, scan: Scan)
    requires InStep(args, scan)
    ensures args.Complete() <==> scan.phase == Complete
  {
  }

  /** The scan state at the end of a fragment, closed or not. */
  ghost function EndOf(r: TextScan): Scan {
    match r case Closed(_) => ClosedScan case Open(scan) => scan case Failed => FreshScan
  }

  lemma InStepIsSound(args: ArgsScan, scan: Scan)
    requires InStep(args, scan)
    ensures Sound(scan)
  {
  }

  lemma StringUnitInStep(args: ArgsScan, scan: Scan, c: char, space: bool)
    requires InStep(args, scan) && scan.inString && ScanUnit(scan, c).Continue?
    ensures InStep(FeedUnit(args, c, space), ScanUnit(scan, c).next)
  {
  }

  lemma FirstUnitInStep(args: ArgsScan, scan: Scan, c: char, space: bool)
    requires InStep(args, scan) && scan.phase == Initial && ScanUnit(scan, c).Continue?
    ensures InStep(FeedUnit(args, c, space), ScanUnit(scan, c).next)
  {
  }

  lemma NestingInStep(args: ArgsScan, scan: Scan, c: char, space: bool)
    requires InStep(args, scan) && scan.phase == Scanning && !scan.inString && c != '}' && c != ']'
    ensures InStep(FeedUnit(args, c, space), ScanUnit(scan, c).next)
  {
  }

  lemma BracketInStep(args: ArgsScan, scan: Scan, space: bool)
    requires InStep(args, scan) && scan.phase == Scanning && !scan.inString && ScanUnit(scan, ']').Continue?
    ensures InStep(FeedUnit(args, ']', space), ScanUnit(scan, ']').next)
  {
  }

  lemma BraceInStep(args: ArgsScan, scan: Scan, space: bool)
    requires InStep(args, scan) && scan.phase == Scanning && !scan.inString && !ScanUnit(scan, '}').Broken?
    ensures var next := if ScanUnit(scan, '}').Close? then ClosedScan else ScanUnit(scan, '}').next;
            InStep(FeedUnit(args, '}', space), next)
  {
  }

  lemma OnlyBracesClose(scan: Scan, c: char)
    requires ScanUnit(scan, c).Close?
    ensures c == '}' && scan.phase != Initial && !scan.inString
  {
  }

  lemma UnitInStep(args: ArgsScan, scan: Scan, c: char, space: bool)
    requires InStep(args, scan) && scan.phase != Complete && !ScanUnit(scan, c).Broken?
    ensures InStep(FeedUnit(args, c, space), if ScanUnit(scan, c).Close? then ClosedScan else ScanUnit(scan, c).next)
  {
    hide ScanUnit, FeedUnit;
    if ScanUnit(scan, c).Close? {
      OnlyBracesClose(scan, c);
    }
    if scan.phase == Initial {
      FirstUnitInStep(args, scan, c, space);
    } else if scan.inString {
      StringUnitInStep(args, scan, c, space);
    } else if c == '}' {
      BraceInStep(args, scan, space);
    } else if c == ']' {
      BracketInStep(args, scan, space);
    } else {
      NestingInStep(args, scan, c, space);
    }
  }

  /** Fed the same fragment, both scanners stay in step, up to and including the closing brace. */
  lemma {:induction false} FragmentInStep(args: ArgsScan, scan: Scan, s: string, n: nat)
    requires InStep(args, scan) && scan.phase != Complete && n <= |s|
    requires ScanText(scan, s[..n]).Open? || ScanText(scan, s[..n]) == Closed(n)
    ensures InStep(Feed(args, s, n), EndOf(ScanText(scan, s[..n])))
  {
    hide ScanUnit, FeedUnit, InStep, InSpace;
    if n > 0 {
      var before := ScanText(scan, s[..n - 1]);
      ScanTextSplit(scan, s[..n - 1], [s[n - 1]]);
      assert s[..n] == s[..n - 1] + [s[n - 1]];
      assert before.Open?;
      InStepIsSound(args, scan);
      ScanTextSound(scan, s[..n - 1]);
      FragmentInStep(args, scan, s, n - 1);
      UnitInStep(Feed(args, s, n - 1), before.scan, s[n - 1], InSpace(s, n - 1));
    }
  }

  // -------- Calls collected so far --------

  /** `args` is one JSON object and nothing else, as far as the scan can tell. */
  predicate WholeObject(args: string) {
    ScanText(FreshScan, args) == Closed(|args|)
  }

  /** The scan state the mode implies for the last call. */
  ghost function LastScan(st: State): Scan {
    if st.mode.ArgumentsMode? then st.mode.scan else ClosedScan
  }

  /** Calls are numbered from 0 and named, and all but the last are whole. */
  ghost predicate Numbered(m: seq<ToolCallDelta>) {
    && (forall k :: 0 <= k < |m| ==> m[k].toolIndex == k && m[k].name.Some?)
    && (forall k :: 0 <= k < |m| - 1 ==> WholeObject(m[k].arguments))
  }

  /** The last call and the completeness scanner stand where `scan` says. */
  ghost predicate LastStands(m: seq<ToolCallDelta>, args: ArgsScan, scan: Scan) {
    if m == [] then args == FreshArgs
    else
      && InStep(args, scan)
      && (if scan.phase == Complete then WholeObject(m[|m| - 1].arguments)
          else ScanText(FreshScan, m[|m| - 1].arguments) == Open(scan))
  }

  /** The calls collected so far agree with the parser's mode and count. */
  ghost predicate Tally(st: State, out: ToolParserOutput) {
    var m := Coalesce(out.calls);
    && |m| == st.emittedToolCount
    && Numbered(m)
    && (st.mode.ArgumentsMode? ==> 0 < |m| && st.activeToolIndex == Some(|m| - 1))
    && LastStands(m, Track(FreshArgs, out.calls), LastScan(st))
  }

  /** The scanner reports completeness exactly when the last call collected is whole. */
  lemma CompleteMeansWhole(st: State, out: ToolParserOutput)
    requires Tally(st, out)
    ensures var m := Coalesce(out.calls);
            Track(FreshArgs, out.calls).Complete() <==> m != [] && WholeObject(m[|m| - 1].arguments)
  {
    hide Coalesce, Track, ScanText, InStep;
    if Coalesce(out.calls) != [] {
      CompleteTogether(Track(FreshArgs, out.calls), LastScan(st));
    }
  }

  ghost predicate AllWhole(calls: seq<ToolCallDelta>) {
    forall k :: 0 <= k < |calls| ==> calls[k].toolIndex == k && calls[k].name.Some? && WholeObject(calls[k].arguments)
  }

  lemma NewCallStands(m: seq<ToolCallDelta>, args: ArgsScan, call: ToolCallDelta)
    requires Numbered(m) && LastStands(m, args, ClosedScan)
    requires call.toolIndex == |m| && call.name.Some? && call.arguments == ""
    ensures Numbered(m + [call]) && LastStands(m + [call], FreshArgs, FreshScan)
  {
    hide ScanText, WholeObject, InStep;
    EmptyScan(FreshScan);
    FreshInStep();
  }

  lemma FreshInStep()
    ensures InStep(FreshArgs, FreshScan)
  {
  }

  lemma LongerCallStands(m: seq<ToolCallDelta>, args: ArgsScan, scan: Scan, fragment: string, args': ArgsScan,
      next: Scan)
    requires m != [] && Numbered(m) && LastStands(m, args, scan) && scan.phase != Complete
    requires ScanText(scan, fragment) == Open(next)
             || (ScanText(scan, fragment) == Closed(|fragment|) && next == ClosedScan)
    requires InStep(args', next)
    ensures var longer := m[|m| - 1 := m[|m| - 1].(arguments := m[|m| - 1].arguments + fragment)];
            Numbered(longer) && LastStands(longer, args', next)
  {
    hide ScanText, InStep;
    ScanTextSplit(FreshScan, m[|m| - 1].arguments, fragment);
    InStepIsSound(args, scan);
    ScanTextSound(scan, fragment);
  }

  lemma LastInStep(m: seq<ToolCallDelta>, args: ArgsScan, scan: Scan)
    requires m != [] && LastStands(m, args, scan)
    ensures InStep(args, scan)
  {
  }

  lemma HeaderKeepsTally(st: State, out: ToolParserOutput, name: string)
    requires Tally(st, out) && st.mode == HeaderMode
    ensures var index := st.emittedToolCount;
            Tally(st.(mode := ArgumentsMode(FreshScan), activeToolIndex := Some(index), emittedToolCount := index + 1),
                  out.AddCall(ToolCallDelta(index, Some(name), "")))
  {
    hide Numbered, LastStands, Coalesce, Track, Absorb;
    var call := ToolCallDelta(st.emittedToolCount, Some(name), "");
    NewCallStands(Coalesce(out.calls), Track(FreshArgs, out.calls), call);
    CoalesceSnoc(out.calls, call);
    AbsorbNew(Coalesce(out.calls), call);
    TrackNew(out.calls, call);
  }

  lemma AbsorbNew(m: seq<ToolCallDelta>, call: ToolCallDelta)
    requires Numbered(m) && call.toolIndex == |m|
    ensures Absorb(m, call) == m + [call]
  {
    hide ScanText;
  }

  lemma TrackNew(calls: seq<ToolCallDelta>, call: ToolCallDelta)
    requires call.name.Some? && call.arguments == ""
    ensures Track(FreshArgs, calls + [call]) == FreshArgs
  {
    assert (calls + [call])[..|calls|] == calls;
  }

  lemma EmptyScan(scan: Scan)
    ensures ScanText(scan, "") == Open(scan)
  {
  }

  lemma ArgumentsKeepTally(st: State, out: ToolParserOutput, fragment: string, next: Scan)
    requires Tally(st, out) && st.mode.ArgumentsMode? && st.mode.scan.phase != Complete
    requires ScanText(st.mode.scan, fragment) == Open(next)
             || (ScanText(st.mode.scan, fragment) == Closed(|fragment|) && next == ClosedScan)
    ensures Tally(st.(mode := ArgumentsMode(next)),
                  out.AddCall(ToolCallDelta(st.activeToolIndex.value, None, fragment)))
  {
    hide LastStands, Coalesce, Track, ScanText, InStep, WholeObject;
    var m, call := Coalesce(out.calls), ToolCallDelta(st.activeToolIndex.value, None, fragment);
    LastInStep(m, Track(FreshArgs, out.calls), st.mode.scan);
    TrackFragment(out.calls, call, st.mode.scan);
    MergeFragment(out.calls, call);
    LongerCallStands(m, Track(FreshArgs, out.calls), st.mode.scan, fragment, Track(FreshArgs, out.calls + [call]),
      next);
  }

  lemma TrackFragment(calls: seq<ToolCallDelta>, call: ToolCallDelta, scan: Scan)
    requires InStep(Track(FreshArgs, calls), scan) && scan.phase != Complete && call.name.None?
    requires ScanText(scan, call.arguments).Open? || ScanText(scan, call.arguments) == Closed(|call.arguments|)
    ensures InStep(Track(FreshArgs, calls + [call]), EndOf(ScanText(scan, call.arguments)))
  {
    hide ScanText, InStep, Feed;
    var fragment := call.arguments;
    assert (calls + [call])[..|calls|] == calls;
    assert fragment[..|fragment|] == fragment;
    FragmentInStep(Track(FreshArgs, calls), scan, fragment, |fragment|);
  }

  /** A fragment of the last call extends that call. */
  lemma MergeFragment(calls: seq<ToolCallDelta>, call: ToolCallDelta)
    requires var m := Coalesce(calls);
             m != [] && (forall k :: 0 <= k < |m| ==> m[k].toolIndex == k && m[k].name.Some?)
             && call.toolIndex == |m| - 1
    ensures var m := Coalesce(calls);
            Coalesce(calls + [call]) == m[|m| - 1 := m[|m| - 1].(arguments := m[|m| - 1].arguments + call.arguments)]
  {
    var m := Coalesce(calls);
    CoalesceSnoc(calls, call);
    SlotIs(m, call.toolIndex, |m| - 1);
  }

  lemma EventKeepsTally(config: Config, st: State, out: ToolParserOutput)
    requires Tally(st, out) && st.Valid() && NextEvent(config, st.buffer, st.mode).Ready?
    ensures var next := NextEvent(config, st.buffer, st.mode);
            var applied := Apply(st, out, next.event, next.consumed);
            applied.Success? && Tally(applied.value.0, applied.value.1)
  {
    hide Coalesce, Track, ScanText;
    var next := NextEvent(config, st.buffer, st.mode);
    EventFitsMode(config, st.buffer, st.mode);
    match next.event {
      case CallHeader(name) => HeaderKeepsTally(st, out, name);
      case ArgumentsRun(_, scan) => ArgumentsKeepTally(st, out, st.buffer[..next.consumed], scan);
      case _ =>
    }
  }

  lemma EventFitsMode(config: Config, s: string, mode: Mode)
    ensures var next := NextEvent(config, s, mode);
            next.Ready? ==>
              match next.event
              case TextRun(_) => mode == TextMode
              case CallStart => mode == TextMode
              case CallHeader(_) => mode == HeaderMode
              case ArgumentsRun(n, scan) =>
                && mode.ArgumentsMode? && mode.scan.phase != Complete && n == next.consumed
                && (ScanText(mode.scan, s[..n]) == Open(scan)
                    || (ScanText(mode.scan, s[..n]) == Closed(n) && scan == ClosedScan))
              case CallDelimiter => mode.ArgumentsMode? && mode.scan.phase == Complete
              case CallEnd => mode.ArgumentsMode? && mode.scan.phase == Complete
  {
    var next := NextEvent(config, s, mode);
    if next.Ready? && next.event.ArgumentsRun? {
      var n := next.consumed;
      ScanTextSplit(mode.scan, s[..n], s[n..]);
      assert s == s[..n] + s[n..];
    }
  }

  lemma {:induction false} DrainKeepsTally(config: Config, st: State, out: ToolParserOutput)
    requires Tally(st, out) && st.Valid()
    ensures Drain(config, st, out).Success? ==>
              var d := Drain(config, st, out).value; Tally(d.0, d.1) && d.0.Valid()
    decreases |st.buffer|
  {
    hide NextEvent, Tally;
    var next := NextEvent(config, st.buffer, st.mode);
    if next.Ready? {
      EventKeepsTally(config, st, out);
      EventKeepsValid(config, st, out);
      var (st1, out1) := Apply(st, out, next.event, next.consumed).value;
      SkipKeepsTally(st1, out1, next.consumed);
      DrainKeepsTally(config, st1.Skip(next.consumed), out1);
    }
  }

  lemma SkipKeepsTally(st: State, out: ToolParserOutput, n: nat)
    requires Tally(st, out) && n <= |st.buffer|
    ensures Tally(st.Skip(n), out)
  {
  }

  // -------- Whole lenient runs --------

  /** A drained run holds whole calls only; any other run is tallied, with the scanner fed all its calls. */
  ghost predicate LenientTally(st: LenientState, merged: ToolParserOutput) {
    if st.drained then AllWhole(Coalesce(merged.calls))
    else st.inner.Valid() && Tally(st.inner, merged) && st.args == Track(FreshArgs, merged.calls)
  }

  lemma TallyComplete(st: State, out: ToolParserOutput)
    requires Tally(st, out)
    requires Track(FreshArgs, out.calls).Complete() || !st.mode.ArgumentsMode?
    ensures AllWhole(Coalesce(out.calls))
  {
    hide Coalesce, Track, ScanText, InStep, WholeObject;
    CompleteMeansWhole(st, out);
  }

  lemma PushKeepsTally(config: Config, st: LenientState, piece: string, merged: ToolParserOutput)
    requires !st.drained && LenientTally(st, merged) && Push(config, st.inner, piece, NoOutput).Success?
    ensures var d := Push(config, st.inner, piece, NoOutput).value;
            LenientTally(LenientState(d.0, Track(st.args, d.1.calls), false), merged.Append(d.1))
  {
    hide Tally, Drain, Track;
    var d := Push(config, st.inner, piece, NoOutput).value;
    LenientTheorems.PushBefore(config, st.inner, piece, merged);
    TallyExtends(st.inner, merged, piece);
    DrainKeepsTally(config, st.inner.Extend(piece), merged);
    TrackAppend(FreshArgs, merged.calls, d.1.calls);
  }

  lemma TallyExtends(st: State, out: ToolParserOutput, piece: string)
    requires Tally(st, out)
    ensures Tally(st.Extend(piece), out)
  {
    hide Coalesce, Track, Numbered, LastStands;
  }

  lemma {:induction false} PiecesKeepTally(config: Config, st: LenientState, pieces: seq<string>,
      merged: ToolParserOutput)
    requires !st.drained && LenientTally(st, merged)
    ensures PushPieces(config, st, pieces, merged).Success? ==>
              var d := PushPieces(config, st, pieces, merged).value; LenientTally(d.0, d.1)
    decreases |pieces|
  {
    hide Tally, Push, Track, AllWhole;
    if pieces != [] {
      var pushed := Push(config, st.inner, pieces[0], NoOutput);
      if pushed.Success? {
        var d := pushed.value;
        PushKeepsTally(config, st, pieces[0], merged);
        PiecesKeepTally(config, LenientState(d.0, Track(st.args, d.1.calls), false), pieces[1..], merged.Append(d.1));
      } else if st.args.Complete() {
        TallyComplete(st.inner, merged);
      }
    }
  }

  lemma AppendTextKeepsCalls(a: ToolParserOutput, text: string)
    ensures a.Append(NoOutput.AddText(text)).calls == a.calls
  {
  }

  /** Finishing a tallied run leaves whole calls only. */
  lemma FinishedIsWhole(config: Config, st: LenientState, merged: ToolParserOutput)
    requires LenientTally(st, merged) && LenientFinish(config, st).Success?
    ensures AllWhole(Coalesce(merged.Append(LenientFinish(config, st).value).calls))
  {
    hide Tally, Push, Track, AllWhole, Coalesce;
    var finished := LenientFinish(config, st).value;
    if st.drained {
      assert merged.Append(finished).calls == merged.calls;
    } else if st.inner.mode == TextMode {
      TallyComplete(st.inner, merged);
      AppendTextKeepsCalls(merged, st.inner.buffer);
    } else {
      var recovered := Push(config, st.inner, TOOL_CALL_END, NoOutput).value;
      PushKeepsTally(config, st, TOOL_CALL_END, merged);
      TallyComplete(recovered.0, merged.Append(recovered.1));
      assert merged.Append(finished).calls == merged.Append(recovered.1).calls;
    }
  }

  /**
   Whatever the lenient parser returns, drained or not, consists of calls
   numbered 0, 1, ... in order, each with a name and one complete argument object.
   */
  lemma LenientCallsAreWhole(config: Config, text: string)
    requires LenientParse(config, text).Success?
    ensures AllWhole(LenientParse(config, text).value.calls)
  {
    hide Push, AllWhole, PushPieces, LenientFinish;
    assert LenientTally(InitialLenient, NoOutput) by {
      assert Coalesce([]) == [];
    }
    PiecesKeepTally(config, InitialLenient, TagPieces(text), NoOutput);
    var d := LenientPush(config, InitialLenient, text).value;
    FinishedIsWhole(config, d.0, d.1);
  }

  /** While the lenient parser has not drained, its scanner is complete exactly when the last call is whole. */
  lemma LenientScannerIsExact(config: Config, text: string)
    requires LenientPush(config, InitialLenient, text).Success?
    ensures var d := LenientPush(config, InitialLenient, text).value;
            var m := Coalesce(d.1.calls);
            !d.0.drained ==>
              && (d.0.args.Complete() <==> m != [] && WholeObject(m[|m| - 1].arguments))
              && (d.0.inner.mode.ArgumentsMode? ==> (d.0.args.Complete() <==> d.0.inner.mode.scan.phase == Complete))
  {
    hide Push, PushPieces, WholeObject, Coalesce, InStep;
    assert LenientTally(InitialLenient, NoOutput) by {
      NothingCollected();
    }
    PiecesKeepTally(config, InitialLenient, TagPieces(text), NoOutput);
    var d := LenientPush(config, InitialLenient, text).value;
    if !d.0.drained {
      CompleteMeansWhole(d.0.inner, d.1);
      if d.0.inner.mode.ArgumentsMode? {
        CompleteTogether(d.0.args, d.0.inner.mode.scan);
      }
    }
  }

  lemma NothingCollected()
    ensures Tally(InitialState, NoOutput) && Track(FreshArgs, []) == FreshArgs
  {
  }
}
