/**
 The winnow combinators the tool grammars are written with, over a partial
 input: `s` is the buffer, `at` the cursor. A parser is done, wants more input,
 lets an alternative try, or cuts the parse off.
 */
module Combinators {
  import opened Wrappers
  import opened Text

  datatype Parsed<+T> = Done(value: T) | Incomplete | Backtrack | Cut {
    predicate IsFailure() {
      !Done?
    }

    function PropagateFailure<U>(): Parsed<U>
      requires !Done?
    {
      match this
      case Incomplete => Incomplete
      case Backtrack => Backtrack
      case Cut => Cut
    }

    function Extract(): T
      requires Done?
    {
      value
    }
  }

  function Literal(s: string, at: nat, t: string): (r: Parsed<nat>)
    requires at <= |s|
    ensures r.Done? ==> r.value == at + |t| && r.value <= |s|
  {
    if Occurs(s, t, at) then Done(at + |t|)
    else if |s| - at < |t| && s[at..] == t[..|s| - at] then Incomplete
    else Backtrack
  }

  /** `multispace0`: the run of spaces must be seen to end. */
  function Space(s: string, at: nat): (r: Parsed<nat>)
    requires at <= |s|
    ensures r.Done? ==> at <= r.value < |s|
  {
    var p := SkipSpace(s, at);
    if p == |s| then Incomplete else Done(p)
  }

  /** Index just past the closing quote of a string body that starts at `at`. */
  function CloseQuote(s: string, at: nat, escape: bool): (r: Option<nat>)
    requires at <= |s|
    ensures r.Some? ==> at < r.value <= |s|
    decreases |s| - at
  {
    if at == |s| then None
    else if escape then CloseQuote(s, at + 1, false)
    else if s[at] == '\\' then CloseQuote(s, at + 1, true)
    else if s[at] == '"' then Some(at + 1)
    else CloseQuote(s, at + 1, false)
  }

  /** serde_json's reading of a quoted string; `None` when it is not a valid one. */
  type Decoder = string -> Option<string>

  /** `json_str`: the decoded literal and the index just past it. */
  function JsonString(s: string, at: nat, decode: Decoder): (r: Parsed<(string, nat)>)
    requires at <= |s|
    ensures r.Done? ==> at + 2 <= r.value.1 <= |s|
  {
    if at == |s| then Incomplete
    else if s[at] != '"' then Cut
    else match CloseQuote(s, at + 1, false)
      case None => Incomplete
      case Some(end) =>
        match decode(s[at..end])
        case None => Cut
        case Some(value) => Done((value, end))
  }

  /** The body of `json_str`: an index loop with an escape flag. */
  method ScanJsonString(s: string, at: nat, decode: Decoder) returns (r: Parsed<(string, nat)>)
    requires at <= |s|
    ensures r == JsonString(s, at, decode)
  {
    if at == |s| {
      return Incomplete;
    }
    if s[at] != '"' {
      return Cut;
    }
    var escape := false;
    var index := at + 1;
    while index < |s|
      invariant at < index <= |s|
      invariant CloseQuote(s, at + 1, false) == CloseQuote(s, index, escape)
    {
      var c := s[index];
      index := index + 1;
      if escape {
        escape := false;
      } else if c == '\\' {
        escape := true;
      } else if c == '"' {
        match decode(s[at..index]) {
          case None => return Cut;
          case Some(value) => return Done((value, index));
        }
      }
    }
    return Incomplete;
  }

  // -------- Sequences of token parsers --------

  /** One step of a `seq!`: spaces, a literal, any string, or a string out of a list. */
  datatype Item = Ws | Lit(t: string) | Str | KeyIn(keys: seq<string>)

  /** Where a sequence ended and the strings it captured. */
  datatype Matched = Matched(end: nat, captured: seq<string>)

  function ParseItem(s: string, at: nat, item: Item, decode: Decoder): (r: Parsed<Matched>)
    requires at <= |s|
    ensures r.Done? ==> at <= r.value.end <= |s|
  {
    match item
    case Ws => var p :- Space(s, at); Done(Matched(p, []))
    case Lit(t) => var p :- Literal(s, at, t); Done(Matched(p, []))
    case Str => var v :- JsonString(s, at, decode); Done(Matched(v.1, [v.0]))
    case KeyIn(keys) =>
      var v :- JsonString(s, at, decode);
      if v.0 in keys then Done(Matched(v.1, [])) else Backtrack
  }

  /** `seq!`: run the items in order. */
  function ParseItems(s: string, at: nat, items: seq<Item>, decode: Decoder): (r: Parsed<Matched>)
    requires at <= |s|
    ensures r.Done? ==> at <= r.value.end <= |s|
    ensures r.Done? && items != [] && items[0].Lit? ==> at + |items[0].t| <= r.value.end
    decreases |items|
  {
    if items == [] then Done(Matched(at, []))
    else
      var head :- ParseItem(s, at, items[0], decode);
      var tail :- ParseItems(s, head.end, items[1..], decode);
      Done(Matched(tail.end, head.captured + tail.captured))
  }

  // -------- A decision, once taken, survives more input --------

  lemma LiteralStable(s: string, more: string, at: nat, t: string)
    requires at <= |s| && !Literal(s, at, t).Incomplete?
    ensures Literal(s + more, at, t) == Literal(s, at, t)
  {
    if at + |t| <= |s| {
      OccursInPrefix(s, more, t, at);
    }
  }

  lemma SpaceStable(s: string, more: string, at: nat)
    requires at <= |s| && !Space(s, at).Incomplete?
    ensures Space(s + more, at) == Space(s, at)
  {
    SkipSpaceIs(s + more, at, SkipSpace(s, at));
  }

  lemma {:induction false} CloseQuoteStable(s: string, more: string, at: nat, escape: bool)
    requires at <= |s| && CloseQuote(s, at, escape).Some?
    ensures CloseQuote(s + more, at, escape) == CloseQuote(s, at, escape)
    decreases |s| - at
  {
    if escape {
      CloseQuoteStable(s, more, at + 1, false);
    } else if s[at] == '\\' {
      CloseQuoteStable(s, more, at + 1, true);
    } else if s[at] != '"' {
      CloseQuoteStable(s, more, at + 1, false);
    }
  }

  lemma JsonStringStable(s: string, more: string, at: nat, decode: Decoder)
    requires at <= |s| && !JsonString(s, at, decode).Incomplete?
    ensures JsonString(s + more, at, decode) == JsonString(s, at, decode)
  {
    if s[at] == '"' {
      CloseQuoteStable(s, more, at + 1, false);
      var end := CloseQuote(s, at + 1, false).value;
      assert (s + more)[at..end] == s[at..end];
    }
  }

  lemma ItemStable(s: string, more: string, at: nat, item: Item, decode: Decoder)
    requires at <= |s| && !ParseItem(s, at, item, decode).Incomplete?
    ensures ParseItem(s + more, at, item, decode) == ParseItem(s, at, item, decode)
  {
    match item {
      case Ws => SpaceStable(s, more, at);
      case Lit(t) => LiteralStable(s, more, at, t);
      case Str => JsonStringStable(s, more, at, decode);
      case KeyIn(_) => JsonStringStable(s, more, at, decode);
    }
  }

  /** Whatever a sequence answers other than "incomplete", it answers on every extension. */
  lemma {:induction false} ItemsStable(s: string, more: string, at: nat, items: seq<Item>, decode: Decoder)
    requires at <= |s| && !ParseItems(s, at, items, decode).Incomplete?
    ensures ParseItems(s + more, at, items, decode) == ParseItems(s, at, items, decode)
    decreases |items|
  {
    if items != [] {
      ItemStable(s, more, at, items[0], decode);
      var head := ParseItem(s, at, items[0], decode);
      if head.Done? {
        ItemsStable(s, more, head.value.end, items[1..], decode);
      }
    }
  }
}
