/** Feeding the JSON tool-call parser in pieces gives what feeding it whole gives. */
module ChunkInvariance {
  import opened Wrappers
  import opened Text
  import opened Output
  import opened Lexing
  import opened Combinators
  import opened JsonParser

  // -------- What "the same result" means --------

  /** Equal text and equal merged calls. */
  ghost predicate SameOutput(a: ToolParserOutput, b: ToolParserOutput) {
    a.normalText == b.normalText && Coalesce(a.calls) == Coalesce(b.calls)
  }

  /** Both fail with one error, or both reach one state with the same output. */
  ghost predicate SameRun(a: Result<(State, ToolParserOutput), ParseError>,
      b: Result<(State, ToolParserOutput), ParseError>)
  {
    match (a, b)
    case (Success(x), Success(y)) => x.0 == y.0 && SameOutput(x.1, y.1)
    case (Failure(e), Failure(f)) => e == f
    case _ => false
  }

  lemma AddCallRespectsOutput(a: ToolParserOutput, b: ToolParserOutput, call: ToolCallDelta)
    requires SameOutput(a, b)
    ensures SameOutput(a.AddCall(call), b.AddCall(call))
  {
    hide Coalesce;
    CoalesceAppend(a.calls, b.calls, [call]);
  }

  lemma ApplyRespectsOutput(st: State, a: ToolParserOutput, b: ToolParserOutput, event: Event, consumed: nat)
    requires consumed <= |st.buffer| && SameOutput(a, b)
    ensures SameRun(Apply(st, a, event, consumed), Apply(st, b, event, consumed))
  {
    hide Coalesce;
    match event {
      case CallHeader(name) =>
        AddCallRespectsOutput(a, b, ToolCallDelta(st.emittedToolCount, Some(name), ""));
      case ArgumentsRun(_, _) =>
        if st.activeToolIndex.Some? {
          AddCallRespectsOutput(a, b, ToolCallDelta(st.activeToolIndex.value, None, st.buffer[..consumed]));
        }
      case _ =>
    }
  }

  lemma {:induction false} DrainRespectsOutput(config: Config, st: State, a: ToolParserOutput, b: ToolParserOutput)
    requires SameOutput(a, b)
    ensures SameRun(Drain(config, st, a), Drain(config, st, b))
    decreases |st.buffer|
  {
    var next := NextEvent(config, st.buffer, st.mode);
    if next.Ready? {
      ApplyRespectsOutput(st, a, b, next.event, next.consumed);
      var x, y := Apply(st, a, next.event, next.consumed), Apply(st, b, next.event, next.consumed);
      if x.Success? {
        DrainRespectsOutput(config, x.value.0.Skip(next.consumed), x.value.1, y.value.1);
      }
    }
  }

  // -------- Events that more input cannot change --------

  lemma HeaderStable(config: Config, s: string, more: string)
    requires !NextInHeader(config, s).Wait?
    ensures NextInHeader(config, s + more) == NextInHeader(config, s)
  {
    ItemsStable(s, more, 0, HeaderItems(config), config.decode);
  }

  lemma AfterArgumentsStable(config: Config, s: string, more: string)
    requires !NextAfterArguments(config, s).Wait?
    ensures NextAfterArguments(config, s + more) == NextAfterArguments(config, s)
  {
    LiteralStable(s, more, 0, "}");
    var close := Literal(s, 0, "}");
    if close.Done? {
      var at := close.value;
      ItemsStable(s, more, at, EndItems(config), config.decode);
      if config.delimiter.Some? && ParseItems(s, at, EndItems(config), config.decode).Backtrack? {
        ItemsStable(s, more, at, DelimiterItems(config.delimiter.value), config.decode);
      }
    }
  }

  // -------- Text mode in one step --------

  /** What text mode does to a buffer: release up to the first marker, or all but a possible start of one. */
  lemma TextModeDrains(config: Config, st: State, out: ToolParserOutput)
    requires config.WellFormed() && st.mode == TextMode
    ensures var s := st.buffer;
            var n := SafeTextLen(s, config.startMarker);
            match Find(s, config.startMarker)
            case None => Drain(config, st, out) == Success((st.Skip(n), out.AddText(s[..n])))
            case Some(i) => Drain(config, st, out) == Drain(config, st.Skip(i), out.AddText(s[..i]))
  {
    hide NextInText, Find, FindFrom;
    var s, m := st.buffer, config.startMarker;
    var n := SafeTextLen(s, m);
    StartOrText(config, s);
    if n == 0 {
      assert st.Skip(0) == st && out.AddText(s[..0]) == out;
    } else if Find(s, m).None? {
      var kept := s[n..];
      assert s[..n] + kept == s;
      SuffixIsUnmarked(s[..n], kept, m);
      KeptIsHeld(s, m);
      hide SafeTextLen;
      StartOrText(config, kept);
      assert Drain(config, st.Skip(n), out.AddText(s[..n])) == Success((st.Skip(n), out.AddText(s[..n])));
    }
  }

  lemma SuffixIsUnmarked(a: string, s: string, marker: string)
    requires Find(a + s, marker).None?
    ensures Find(s, marker).None?
  {
    hide FindFrom;
    forall i ensures !Occurs(s, marker, i) {
      if 0 <= i {
        OccursInSuffix(a, s, marker, i);
      }
    }
  }

  /** Held-back text is all held back when looked at again. */
  lemma KeptIsHeld(s: string, marker: string)
    requires marker != "" && Find(s, marker).None?
    ensures var kept := s[SafeTextLen(s, marker)..];
            |kept| < |marker| && kept == marker[..|kept|]
  {
  }

  lemma StartOrText(config: Config, s: string)
    requires config.WellFormed()
    ensures var m := config.startMarker;
            var n := SafeTextLen(s, m);
            && ((Find(s, m) != Some(0) && 0 < n && !(|s| < |m| && s == m[..|s|])) ==>
                  NextInText(config, s) == Ready(TextRun(n), n))
            && (Find(s, m).None? && (n == 0 || (|s| < |m| && s == m[..|s|])) ==> NextInText(config, s) == Wait)
            && (Find(s, m).None? && |s| < |m| && s == m[..|s|] ==> n == 0)
  {
    var m := config.startMarker;
    var n := SafeTextLen(s, m);
    if Find(s, m).None? {
      assert !Occurs(s, m, 0);
      if |s| < |m| && s == m[..|s|] {
        assert s[..] == s;
        assert CharBoundary(m, |s|);
        assert Held(s, m, |s|);
        assert Literal(s, 0, m) == Incomplete;
      }
    }
  }

  // -------- Splitting the input --------

  ghost predicate SplitAgrees(config: Config, st: State, out: ToolParserOutput, more: string) {
    match Drain(config, st, out)
    case Failure(e) => Drain(config, st.Extend(more), out) == Failure(e)
    case Success(d) => SameRun(Drain(config, d.0.Extend(more), d.1), Drain(config, st.Extend(more), out))
  }

  lemma SameRunReflexive(a: Result<(State, ToolParserOutput), ParseError>)
    ensures SameRun(a, a)
  {
  }

  /** Releasing text early moves neither the first marker nor the end of the released text. */
  lemma ReleaseContinues(s: string, more: string, m: string)
    requires m != "" && Ascii(m) && Find(s, m).None?
    ensures var n := SafeTextLen(s, m);
            && SafeTextLen(s + more, m) == n + SafeTextLen(s[n..] + more, m)
            && (Find(s + more, m).Some? <==> Find(s[n..] + more, m).Some?)
  {
    var n := SafeTextLen(s, m);
    assert s + more == s[..n] + (s[n..] + more);
    forall i | 0 <= i < n ensures !Occurs(s + more, m, i) {
      MarkerNotReleased(s, more, m, i);
    }
    FindAfter(s[..n], s[n..] + more, m);
    if Find(s + more, m).None? {
      HeldBackAgain(s, more, m);
    }
  }

  /** Text without a marker so far, then more input. */
  lemma TextSplit(config: Config, st: State, out: ToolParserOutput, more: string)
    requires config.WellFormed() && st.mode == TextMode
    requires Find(st.buffer, config.startMarker).None?
    ensures SplitAgrees(config, st, out, more)
  {
    hide Drain, NextEvent, Find, SafeTextLen, Coalesce, Ascii;
    var s, m := st.buffer, config.startMarker;
    var n := SafeTextLen(s, m);
    ReleaseContinues(s, more, m);
    var rest := s[n..] + more;
    var j := SafeTextLen(rest, m);
    TextModeDrains(config, st, out);
    TextModeDrains(config, st.Extend(more), out);
    TextModeDrains(config, st.Skip(n).Extend(more), out.AddText(s[..n]));
    SafeTextAtMarker(rest, m);
    SafeTextAtMarker(s + more, m);
    assert s + more == s[..n] + rest;
    assert (s + more)[..n + j] == s[..n] + rest[..j];
    assert out.normalText + s[..n] + rest[..j] == out.normalText + (s[..n] + rest[..j]);
    assert (s + more)[n + j..] == rest[j..];
  }

  lemma SafeTextAtMarker(s: string, m: string)
    ensures Find(s, m).Some? ==> SafeTextLen(s, m) == Find(s, m).value
  {
  }

  /** An ASCII marker cannot start in released text, whatever units follow. */
  lemma MarkerNotReleased(s: string, more: string, m: string, i: nat)
    requires m != "" && Ascii(m) && i < SafeTextLen(s, m)
    ensures !Occurs(s + more, m, i)
  {
    if i + |m| <= |s| {
      OccursInPrefix(s, more, m, i);
    } else if Occurs(s + more, m, i) {
      assert more == "" || m[|s| - i] == (s + more)[i..i + |m|][|s| - i] == more[0];
      SafeTextIsSafe(s, m, more, i);
    }
  }

  /** One argument event, stepped over. */
  lemma ArgumentsStep(config: Config, st: State, out: ToolParserOutput)
    requires st.Valid() && st.mode.ArgumentsMode? && st.mode.scan.phase != Complete
    requires TakeObject(st.buffer, st.mode.scan).Take?
    ensures var Take(n, next) := TakeObject(st.buffer, st.mode.scan);
            Drain(config, st, out) ==
            Drain(config, st.(mode := ArgumentsMode(next), buffer := st.buffer[n..]),
                  out.AddCall(ToolCallDelta(st.activeToolIndex.value, None, st.buffer[..n])))
  {
    hide NextAfterArguments, TakeObject;
  }

  /** Argument text read so far, then more input. */
  lemma ArgumentsSplit(config: Config, st: State, out: ToolParserOutput, more: string)
    requires config.WellFormed() && st.Valid()
    requires st.mode.ArgumentsMode? && st.mode.scan.phase != Complete
    requires st.buffer != "" && ScanText(st.mode.scan, st.buffer).Open?
    ensures SplitAgrees(config, st, out, more)
  {
    hide NextInText, NextInHeader, NextAfterArguments, ScanText;
    var s, scan, index := st.buffer, st.mode.scan, st.activeToolIndex.value;
    var mid := ScanText(scan, s).scan;
    ScanTextSound(scan, s);
    var st1, out1 := st.(mode := ArgumentsMode(mid), buffer := ""), out.AddCall(ToolCallDelta(index, None, s));
    assert s[..|s|] == s;
    ArgumentsStep(config, st, out);
    assert Drain(config, st, out) == Success((st1, out1));
    assert st1.Extend(more) == st1.(buffer := more);
    if more == "" {
      assert st.Extend(more) == st && st1.Extend(more) == st1;
    } else {
      MoreArguments(config, st, out, more);
    }
  }

  lemma MoreArguments(config: Config, st: State, out: ToolParserOutput, more: string)
    requires st.Valid() && st.mode.ArgumentsMode? && st.mode.scan.phase != Complete
    requires st.buffer != "" && ScanText(st.mode.scan, st.buffer).Open? && more != ""
    ensures var mid := ScanText(st.mode.scan, st.buffer).scan;
            var out1 := out.AddCall(ToolCallDelta(st.activeToolIndex.value, None, st.buffer));
            SameRun(Drain(config, st.(mode := ArgumentsMode(mid), buffer := more), out1),
                    Drain(config, st.Extend(more), out))
  {
    hide NextAfterArguments, ScanText;
    var s, scan := st.buffer, st.mode.scan;
    ScanTextSound(scan, s);
    ScanTextSplit(scan, s, more);
    if !ScanText(ScanText(scan, s).scan, more).Failed? {
      MoreArgumentsTaken(config, st, out, more);
    }
  }

  lemma MoreArgumentsTaken(config: Config, st: State, out: ToolParserOutput, more: string)
    requires st.Valid() && st.mode.ArgumentsMode? && st.mode.scan.phase != Complete
    requires ScanText(st.mode.scan, st.buffer).Open?
    requires var mid := ScanText(st.mode.scan, st.buffer).scan;
             && Sound(mid) && mid.phase != Complete
             && TakeObject(more, mid).Take?
             && TakeObject(st.buffer + more, st.mode.scan)
                == Take(|st.buffer| + TakeObject(more, mid).len, TakeObject(more, mid).scan)
    ensures var mid := ScanText(st.mode.scan, st.buffer).scan;
            var out1 := out.AddCall(ToolCallDelta(st.activeToolIndex.value, None, st.buffer));
            SameRun(Drain(config, st.(mode := ArgumentsMode(mid), buffer := more), out1),
                    Drain(config, st.Extend(more), out))
  {
    hide Drain, TakeObject, ScanText;
    var s, index := st.buffer, st.activeToolIndex.value;
    var mid := ScanText(st.mode.scan, s).scan;
    var out1 := out.AddCall(ToolCallDelta(index, None, s));
    ArgumentsStep(config, st.(mode := ArgumentsMode(mid), buffer := more), out1);
    ArgumentsStep(config, st.Extend(more), out);
    var Take(k, next) := TakeObject(more, mid);
    assert (s + more)[..|s| + k] == s + more[..k];
    assert (s + more)[|s| + k..] == more[k..];
    CoalesceJoin(out.calls, index, s, more[..k]);
    DrainRespectsOutput(config, st.(mode := ArgumentsMode(next), buffer := more[k..]),
                        out1.AddCall(ToolCallDelta(index, None, more[..k])),
                        out.AddCall(ToolCallDelta(index, None, s + more[..k])));
  }

  /** An event that stays the same on the longer buffer. */
  lemma SameEventSplit(config: Config, st: State, out: ToolParserOutput, more: string)
    requires st.Valid()
    requires var next := NextEvent(config, st.buffer, st.mode);
             next.Ready? && NextEvent(config, st.buffer + more, st.mode) == next
    requires var next := NextEvent(config, st.buffer, st.mode);
             var applied := Apply(st, out, next.event, next.consumed);
             applied.Success? && SplitAgrees(config, applied.value.0.Skip(next.consumed), applied.value.1, more)
    ensures SplitAgrees(config, st, out, more)
  {
    hide NextEvent;
    var next := NextEvent(config, st.buffer, st.mode);
    var (st1, out1) := Apply(st, out, next.event, next.consumed).value;
    assert (st.buffer + more)[..next.consumed] == st.buffer[..next.consumed];
    assert Apply(st.Extend(more), out, next.event, next.consumed) == Success((st1.Extend(more), out1));
    assert st1.Extend(more).Skip(next.consumed) == st1.Skip(next.consumed).Extend(more);
  }

  /** No event yet: the longer buffer is where draining resumes. */
  lemma WaitSplit(config: Config, st: State, out: ToolParserOutput, more: string)
    requires NextEvent(config, st.buffer, st.mode).Wait?
    ensures SplitAgrees(config, st, out, more)
  {
    hide NextEvent;
    SameRunReflexive(Drain(config, st.Extend(more), out));
  }

  lemma BadSplit(config: Config, st: State, out: ToolParserOutput, more: string)
    requires NextEvent(config, st.buffer, st.mode).Bad?
    requires NextEvent(config, st.buffer + more, st.mode).Bad?
    ensures SplitAgrees(config, st, out, more)
  {
    hide NextEvent;
  }

  /** Except for runs of text and of unfinished arguments, an event or error stays on a longer buffer. */
  lemma EventStable(config: Config, st: State, more: string)
    requires config.WellFormed() && st.Valid()
    requires !NextEvent(config, st.buffer, st.mode).Wait?
    requires st.mode.TextMode? ==> Find(st.buffer, config.startMarker).Some?
    requires st.mode.ArgumentsMode? && st.mode.scan.phase != Complete ==> !ScanText(st.mode.scan, st.buffer).Open?
    ensures NextEvent(config, st.buffer + more, st.mode) == NextEvent(config, st.buffer, st.mode)
  {
    hide NextInText, NextInHeader, NextAfterArguments;
    match st.mode {
      case TextMode => TextEventStable(config, st.buffer, more);
      case HeaderMode => HeaderStable(config, st.buffer, more);
      case ArgumentsMode(scan) =>
        if scan.phase == Complete {
          AfterArgumentsStable(config, st.buffer, more);
        } else {
          ScanTextSplit(scan, st.buffer, more);
        }
    }
  }

  /** The central fact: draining early and then going on equals draining late. */
  lemma {:induction false} DrainSplit(config: Config, st: State, out: ToolParserOutput, more: string)
    requires config.WellFormed() && st.Valid()
    ensures SplitAgrees(config, st, out, more)
    decreases |st.buffer|
  {
    hide Drain, NextInText, NextInHeader, NextAfterArguments, SplitAgrees;
    var next := NextEvent(config, st.buffer, st.mode);
    if next.Wait? {
      WaitSplit(config, st, out, more);
    } else if st.mode.TextMode? && Find(st.buffer, config.startMarker).None? {
      TextSplit(config, st, out, more);
    } else if st.mode.ArgumentsMode? && st.mode.scan.phase != Complete && ScanText(st.mode.scan, st.buffer).Open? {
      ArgumentsSplit(config, st, out, more);
    } else {
      EventStable(config, st, more);
      if next.Bad? {
        BadSplit(config, st, out, more);
      } else {
        EventKeepsValid(config, st, out);
        var (st1, out1) := Apply(st, out, next.event, next.consumed).value;
        DrainSplit(config, st1.Skip(next.consumed), out1, more);
        SameEventSplit(config, st, out, more);
      }
    }
  }

  lemma TextEventStable(config: Config, s: string, more: string)
    requires config.WellFormed()
    requires Find(s, config.startMarker).Some? && !NextInText(config, s).Wait?
    ensures NextInText(config, s + more) == NextInText(config, s)
  {
    FindExtends(s, more, config.startMarker);
    ItemsStable(s, more, 0, StartItems(config), config.decode);
  }
}
