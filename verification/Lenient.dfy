/** The lenient Hermes parser and its argument scanner (src/tools.rs). */
module Lenient {
  import opened Wrappers
  import opened Text
  import opened Output
  import opened Combinators
  import opened JsonParser
  import opened Grammar

  // -------- Pieces that start at a tag --------

  function NextTag(text: string, from: nat): (n: nat)
    requires from <= |text|
    ensures from <= n <= |text|
    ensures forall i :: from <= i < n ==> text[i] != '<'
    ensures n < |text| ==> text[n] == '<'
    decreases |text| - from
  {
    if from == |text| || text[from] == '<' then from else NextTag(text, from + 1)
  }

  lemma NextTagIs(text: string, from: nat, n: nat)
    requires from <= n <= |text|
    requires forall i :: from <= i < n ==> text[i] != '<'
    requires n < |text| ==> text[n] == '<'
    ensures NextTag(text, from) == n
    decreases n - from
  {
    if from < n {
      NextTagIs(text, from + 1, n);
    }
  }

  /** Non-empty pieces that concatenate to the text and have `<` only in front. */
  function TagPieces(text: string): (pieces: seq<string>)
    ensures Concat(pieces) == text
    ensures forall k :: 0 <= k < |pieces| ==> pieces[k] != "" && forall i :: 1 <= i < |pieces[k]| ==>
            pieces[k][i] != '<'
    ensures forall k :: 1 <= k < |pieces| ==> pieces[k][0] == '<'
    decreases |text|
  {
    if text == "" then []
    else
      var n := NextTag(text, 1);
      assert text == text[..n] + text[n..];
      [text[..n]] + TagPieces(text[n..])
  }

  lemma NoPieces()
    ensures TagPieces("") == []
  {
  }

  lemma FirstPiece(text: string, start: nat, end: nat)
    requires start < end <= |text|
    requires forall i :: start < i < end ==> text[i] != '<'
    requires end < |text| ==> text[end] == '<'
    ensures TagPieces(text[start..]) == [text[start..end]] + TagPieces(text[end..])
  {
    var s, n := text[start..], end - start;
    NextTagIs(s, 1, n);
    assert s[..n] == text[start..end] && s[n..] == text[end..];
  }

  /** The text before `start` is cut into `pieces`. */
  ghost predicate Cut(text: string, pieces: seq<string>, start: nat) {
    start <= |text| && pieces + TagPieces(text[start..]) == TagPieces(text)
  }

  lemma NothingCut(text: string)
    ensures Cut(text, [], 0)
  {
    hide TagPieces;
    assert text[0..] == text && [] + TagPieces(text) == TagPieces(text);
  }

  lemma AllCut(text: string, pieces: seq<string>)
    requires Cut(text, pieces, |text|)
    ensures pieces == TagPieces(text)
  {
    NoPieces();
    hide TagPieces;
    assert text[|text|..] == "" && pieces + [] == pieces;
  }

  lemma CutStep(text: string, pieces: seq<string>, start: nat, end: nat)
    requires start < end <= |text| && Cut(text, pieces, start)
    requires forall i :: start < i < end ==> text[i] != '<'
    requires end < |text| ==> text[end] == '<'
    ensures Cut(text, pieces + [text[start..end]], end)
  {
    hide TagPieces;
    FirstPiece(text, start, end);
    var later := TagPieces(text[end..]);
    assert pieces + ([text[start..end]] + later) == pieces + [text[start..end]] + later;
  }

  /** `split_before_tag_starts`. */
  method SplitBeforeTagStarts(text: string) returns (pieces: seq<string>)
    ensures pieces == TagPieces(text)
  {
    hide TagPieces, Cut;
    pieces := [];
    var start := 0;
    NothingCut(text);
    for index := 0 to |text|
      invariant start <= index
      invariant forall i :: start < i < index ==> text[i] != '<'
      invariant Cut(text, pieces, start)
    {
      if text[index] == '<' {
        if start < index {
          CutStep(text, pieces, start, index);
          pieces := pieces + [text[start..index]];
        }
        start := index;
      }
    }
    if start < |text| {
      CutStep(text, pieces, start, |text|);
      assert text[start..|text|] == text[start..];
      pieces := pieces + [text[start..]];
    }
    AllCut(text, pieces);
  }

  // -------- The completeness scanner --------

  datatype ArgsScan = ArgsScan(started: bool, depth: nat, inString: bool, escaped: bool) {
    predicate Complete() {
      started && depth == 0 && !inString
    }
  }

  const FreshArgs := ArgsScan(false, 0, false, false)

  function FeedUnit(args: ArgsScan, c: char, space: bool): ArgsScan {
    if args.escaped then args.(escaped := false)
    else if args.inString then
      if c == '\\' then args.(escaped := true) else if c == '"' then args.(inString := false) else args
    else if c == '"' then args.(inString := true, started := true)
    else if c == '{' || c == '[' then args.(depth := args.depth + 1, started := true)
    else if c == '}' || c == ']' then args.(depth := if args.depth == 0 then 0 else args.depth - 1)
    else if !space then args.(started := true)
    else args
  }

  function Feed(args: ArgsScan, fragment: string, n: nat): ArgsScan
    requires n <= |fragment|
  {
    if n == 0 then args else FeedUnit(Feed(args, fragment, n - 1), fragment[n - 1], InSpace(fragment, n - 1))
  }

  function TrackCall(args: ArgsScan, call: ToolCallDelta): ArgsScan {
    Feed(if call.name.Some? then FreshArgs else args, call.arguments, |call.arguments|)
  }

  function Track(args: ArgsScan, calls: seq<ToolCallDelta>): ArgsScan {
    if calls == [] then args else TrackCall(Track(args, calls[..|calls| - 1]), calls[|calls| - 1])
  }

  lemma {:induction false} TrackAppend(args: ArgsScan, a: seq<ToolCallDelta>, b: seq<ToolCallDelta>)
    ensures Track(args, a + b) == Track(Track(args, a), b)
  {
    if b == [] {
      assert a + b == a;
    } else {
      TrackAppend(args, a, b[..|b| - 1]);
      assert (a + b)[..|a + b| - 1] == a + b[..|b| - 1];
    }
  }

  class ArgsCompletenessScanner {
    var started: bool
    var depth: nat
    var inString: bool
    var escaped: bool

    function Snapshot(): ArgsScan
      reads this
    {
      ArgsScan(started, depth, inString, escaped)
    }

    constructor ()
      ensures Snapshot() == FreshArgs
    {
      started, depth, inString, escaped := false, 0, false, false;
    }

    method Reset()
      modifies this
      ensures Snapshot() == FreshArgs
    {
      started, depth, inString, escaped := false, 0, false, false;
    }

    method TrackOutput(result: ToolParserOutput)
      modifies this
      ensures Snapshot() == Track(old(Snapshot()), result.calls)
    {
      for n := 0 to |result.calls|
        invariant Snapshot() == Track(old(Snapshot()), result.calls[..n])
      {
        var call := result.calls[n];
        assert result.calls[..n + 1][..n] == result.calls[..n];
        if call.name.Some? {
          Reset();
        }
        FeedFragment(call.arguments);
      }
      assert result.calls[..|result.calls|] == result.calls;
    }

    method FeedFragment(fragment: string)
      modifies this
      ensures Snapshot() == Feed(old(Snapshot()), fragment, |fragment|)
    {
      for n := 0 to |fragment|
        invariant Snapshot() == Feed(old(Snapshot()), fragment, n)
      {
        var c := fragment[n];
        if escaped {
          escaped := false;
          continue;
        }
        if inString {
          if c == '\\' {
            escaped := true;
          } else if c == '"' {
            inString := false;
          }
          continue;
        }
        if c == '"' {
          inString := true;
          started := true;
        } else if c == '{' || c == '[' {
          depth := depth + 1;
          started := true;
        } else if c == '}' || c == ']' {
          depth := if depth == 0 then 0 else depth - 1;
        } else if !InSpace(fragment, n) {
          started := true;
        }
      }
    }
  }

  // -------- The lenient parser --------

  datatype LenientState = LenientState(inner: State, args: ArgsScan, drained: bool)

  const InitialLenient := LenientState(InitialState, FreshArgs, false)

  function PushPieces(config: Config, st: LenientState, pieces: seq<string>, merged: ToolParserOutput)
    : Result<(LenientState, ToolParserOutput), ParseError>
    decreases |pieces|
  {
    if pieces == [] then Success((st, merged))
    else match Push(config, st.inner, pieces[0], NoOutput)
      case Success(d) =>
        PushPieces(config, LenientState(d.0, Track(st.args, d.1.calls), st.drained), pieces[1..], merged.Append(d.1))
      case Failure(e) =>
        if st.args.Complete() then Success((st.(drained := true), merged)) else Failure(e)
  }

  function LenientPush(config: Config, st: LenientState, chunk: string)
    : Result<(LenientState, ToolParserOutput), ParseError>
  {
    if st.drained then Success((st, NoOutput)) else PushPieces(config, st, TagPieces(chunk), NoOutput)
  }

  function LenientFinish(config: Config, st: LenientState): Result<ToolParserOutput, ParseError> {
    if st.drained then Success(NoOutput)
    else match Finish(st.inner, NoOutput)
      case Success(result) => Success(result)
      case Failure(e) =>
        match Push(config, st.inner, TOOL_CALL_END, NoOutput)
        case Failure(_) => Failure(e)
        case Success(recovered) =>
          match Finish(recovered.0, NoOutput)
          case Failure(_) => Failure(e)
          case Success(finished) => Success(recovered.1.Append(finished))
  }

  /** `parse_complete` of the lenient parser: one push, a finish, and the merged calls. */
  function LenientParse(config: Config, text: string): Result<ToolParserOutput, ParseError> {
    match LenientPush(config, InitialLenient, text)
    case Failure(e) => Failure(e)
    case Success(d) =>
      match LenientFinish(config, d.0)
      case Failure(e) => Failure(e)
      case Success(finished) => Success(Merged(d.1.Append(finished)))
  }

  class LenientToolParser {
    const inner: JsonToolCallParser
    const argsScanner: ArgsCompletenessScanner
    var drained: bool

    ghost predicate Valid()
      reads this, inner
    {
      inner.config.WellFormed() && (!drained ==> inner.Snapshot().Valid())
    }

    function Snapshot(): LenientState
      reads this, inner, argsScanner
    {
      LenientState(inner.Snapshot(), argsScanner.Snapshot(), drained)
    }

    constructor (decode: Decoder)
      ensures Valid() && fresh(inner) && fresh(argsScanner)
      ensures inner.config == HermesConfig(decode) && Snapshot() == InitialLenient
    {
      inner := new JsonToolCallParser(HermesConfig(decode));
      argsScanner := new ArgsCompletenessScanner();
      drained := false;
    }

    /** After a drain nothing is read from the inner parser again. */
    ghost predicate Reflects(st: LenientState)
      reads this, inner, argsScanner
    {
      drained == st.drained && (!drained ==> Snapshot() == st)
    }

    method Push(chunk: string) returns (r: Result<ToolParserOutput, ParseError>)
      requires Valid()
      modifies this, inner, argsScanner
      ensures match LenientPush(inner.config, old(Snapshot()), chunk)
              case Failure(e) => r == Failure(e)
              case Success(d) => r == Success(d.1) && Valid() && Reflects(d.0)
    {
      var merged := NoOutput;
      if drained {
        return Success(merged);
      }
      var pieces := SplitBeforeTagStarts(chunk);
      for n := 0 to |pieces|
        invariant Valid() && !drained
        invariant PushPieces(inner.config, old(Snapshot()), pieces, NoOutput)
               == PushPieces(inner.config, Snapshot(), pieces[n..], merged)
      {
        ghost var before := Snapshot();
        assert pieces[n..][1..] == pieces[n + 1..];
        var pushed := inner.ParseInto(pieces[n], NoOutput);
        if pushed.Success? {
          argsScanner.TrackOutput(pushed.value);
          merged := merged.Append(pushed.value);
        } else {
          if !(argsScanner.started && argsScanner.depth == 0 && !argsScanner.inString) {
            return pushed;
          }
          drained := true;
          return Success(merged);
        }
      }
      return Success(merged);
    }

    method FinishParse() returns (r: Result<ToolParserOutput, ParseError>)
      requires Valid()
      modifies this, inner, argsScanner
      ensures r == LenientFinish(inner.config, old(Snapshot()))
    {
      if drained {
        return Success(NoOutput);
      }
      var finished := inner.FinishParse();
      if finished.Success? {
        return finished;
      }
      var recovered := inner.ParseInto(TOOL_CALL_END, NoOutput);
      if recovered.Failure? {
        return finished;
      }
      var again := inner.FinishParse();
      if again.Failure? {
        return finished;
      }
      return Success(recovered.value.Append(again.value));
    }
  }

  /** `parse_complete` with a new lenient parser. */
  method ParseLeniently(decode: Decoder, text: string) returns (r: Result<ToolParserOutput, ParseError>)
    ensures r == LenientParse(HermesConfig(decode), text)
  {
    var parser := new LenientToolParser(decode);
    var pushed := parser.Push(text);
    if pushed.Failure? {
      return pushed;
    }
    var finished := parser.FinishParse();
    if finished.Failure? {
      return finished;
    }
    var merged := CoalesceCalls(pushed.value.Append(finished.value));
    return Success(merged);
  }
}
