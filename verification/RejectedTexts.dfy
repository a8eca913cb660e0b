/** What the lenient parser makes of texts the strict one rejects before their end (src/tools.rs). */
module RejectedTexts {
  import opened Wrappers
  import opened Text
  import opened Output
  import opened JsonParser
  import opened ChunkInvariance
  import opened Grammar
  import opened Lenient
  import opened LenientTheorems
  import opened WholeCalls

  /** The last of the calls collected is whole. */
  predicate LastIsWhole(calls: seq<ToolCallDelta>) {
    calls != [] && WholeObject(calls[|calls| - 1].arguments)
  }

  /** The strict parser's run over the first `k` tag pieces of a text. */
  function StrictPieces(config: Config, text: string, k: nat): Result<(State, ToolParserOutput), ParseError>
    requires k <= |TagPieces(text)|
  {
    StrictPush(config, Concat(TagPieces(text)[..k]))
  }

  /** Accepted pieces lead the lenient parser to the strict one's state, with its scanner fed. */
  lemma {:induction false} PiecesThrough(config: Config, st: LenientState, accepted: seq<string>, rest: seq<string>,
      merged: ToolParserOutput) returns (next: LenientState, out: ToolParserOutput)
    requires !st.drained && LenientTally(st, merged) && PushAll(config, st.inner, accepted, merged).Success?
    ensures PushAll(config, st.inner, accepted, merged) == Success((next.inner, out))
    ensures PushPieces(config, st, accepted + rest, merged) == PushPieces(config, next, rest, out)
    ensures !next.drained && LenientTally(next, out)
    decreases |accepted|
  {
    hide Push, Tally, Track;
    if accepted == [] {
      assert accepted + rest == rest;
      next, out := st, merged;
    } else {
      PushBefore(config, st.inner, accepted[0], merged);
      PushKeepsTally(config, st, accepted[0], merged);
      var d := Push(config, st.inner, accepted[0], NoOutput).value;
      assert (accepted + rest)[1..] == accepted[1..] + rest;
      next, out := PiecesThrough(config, LenientState(d.0, Track(st.args, d.1.calls), false), accepted[1..], rest,
        merged.Append(d.1));
    }
  }

  /** Of the pieces of a rejected text there is a first one that is rejected. */
  lemma {:induction false} FirstRejected(config: Config, text: string, n: nat) returns (k: nat)
    requires config.WellFormed() && n <= |TagPieces(text)| && StrictPieces(config, text, n).Failure?
    ensures k < n && StrictPieces(config, text, k).Success? && StrictPieces(config, text, k + 1).Failure?
  {
    hide StrictPush, TagPieces;
    NothingIsAccepted(config);
    assert TagPieces(text)[..0] == [];
    assert 0 < n;
    if StrictPieces(config, text, n - 1).Success? {
      k := n - 1;
    } else {
      k := FirstRejected(config, text, n - 1);
    }
  }

  lemma NothingIsAccepted(config: Config)
    requires config.WellFormed()
    ensures StrictPush(config, Concat([])).Success?
  {
    InitialWaits(config);
    assert InitialState.Extend("") == InitialState;
  }

  lemma {:induction false} PushAllAppend(config: Config, st: State, a: seq<string>, b: seq<string>,
      out: ToolParserOutput)
    requires PushAll(config, st, a, out).Success?
    ensures var (mid, sent) := PushAll(config, st, a, out).value;
            PushAll(config, st, a + b, out) == PushAll(config, mid, b, sent)
    decreases |a|
  {
    hide Push;
    if a == [] {
      assert a + b == b;
    } else {
      assert (a + b)[1..] == a[1..] + b;
      var d := Push(config, st, a[0], out).value;
      PushAllAppend(config, d.0, a[1..], b, d.1);
    }
  }

  /** The rejected piece is where both parsers stop: the strict one with an error, the lenient one perhaps without. */
  lemma StopsAt(config: Config, st: LenientState, pieces: seq<string>, out: ToolParserOutput)
    requires pieces != [] && PushAll(config, st.inner, [pieces[0]], out).Failure?
    ensures var stop := PushAll(config, st.inner, [pieces[0]], out);
            && PushAll(config, st.inner, pieces, out) == stop
            && PushPieces(config, st, pieces, out) ==
               if st.args.Complete() then Success((st.(drained := true), out)) else Failure(stop.error)
  {
    hide Push;
    PushBefore(config, st.inner, pieces[0], out);
  }

  /** The strict parser's run in pieces and at once. */
  lemma PiecesLikeWhole(config: Config, pieces: seq<string>)
    requires config.WellFormed()
    ensures SameRun(PushAll(config, InitialState, pieces, NoOutput), StrictPush(config, Concat(pieces)))
  {
    hide NextEvent, Push;
    InitialWaits(config);
    PushAllIsPush(config, InitialState, pieces, NoOutput);
  }

  lemma InitiallyTallied()
    ensures LenientTally(InitialLenient, NoOutput)
  {
    NothingCollected();
  }

  /**
   A text the strict parser rejects in a push, at the first tag piece it rejects: if the last call
   collected before that piece is whole, the lenient parser returns what was collected, and
   otherwise the strict parser's error.
   */
  lemma RejectedTextKeepsWholeCalls(config: Config, text: string) returns (k: nat)
    requires config.WellFormed() && StrictPush(config, text).Failure?
    ensures k < |TagPieces(text)|
    ensures StrictPieces(config, text, k).Success? && StrictPieces(config, text, k + 1).Failure?
    ensures var collected := StrictPieces(config, text, k).value.1;
            LenientParse(config, text) ==
            if LastIsWhole(Coalesce(collected.calls)) then Success(Merged(collected)) else StrictParse(config, text)
  {
    hide Push, PushAll, PushPieces, StrictPush, TagPieces, LenientTally, Coalesce, WholeObject;
    var pieces := TagPieces(text);
    assert pieces[..|pieces|] == pieces;
    k := FirstRejected(config, text, |pieces|);
    var accepted, rest := pieces[..k], pieces[k..];
    assert pieces == accepted + rest && pieces[..k + 1] == accepted + [rest[0]];
    PiecesLikeWhole(config, pieces);
    PiecesLikeWhole(config, accepted);
    PiecesLikeWhole(config, pieces[..k + 1]);
    InitiallyTallied();
    var next, out := PiecesThrough(config, InitialLenient, accepted, rest, NoOutput);
    PushAllAppend(config, InitialState, accepted, [rest[0]], NoOutput);
    PushAllAppend(config, InitialState, accepted, rest, NoOutput);
    StopsAt(config, next, rest, out);
    CompletesWithWhole(next, out);
    assert out.Append(NoOutput) == out;
  }

  lemma CompletesWithWhole(st: LenientState, out: ToolParserOutput)
    requires !st.drained && LenientTally(st, out)
    ensures st.args.Complete() <==> LastIsWhole(Coalesce(out.calls))
  {
    hide Tally, Coalesce, Track, WholeObject;
    CompleteMeansWhole(st.inner, out);
  }
}
