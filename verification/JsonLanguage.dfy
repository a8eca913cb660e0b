/** Exactly which texts the JSON tool-call formats accept, and what is read in them. */
module JsonLanguage {
  import opened Wrappers
  import opened Text
  import opened Output
  import opened Lexing
  import opened Combinators
  import opened JsonParser
  import opened Grammar
  import GR = GlmRoundTrip

  // -------- Tokens --------

  /** A string literal, quotes included, and nothing after it. */
  predicate Literally(token: string) {
    token != "" && token[0] == '"' && CloseQuote(token, 1, false) == Some(|token|)
  }

  /** A token, in front of `rest`, that the item reads whole. */
  predicate Fits(item: Item, token: string, rest: string, decode: Decoder) {
    match item
    case Ws => GR.Gap(token) && rest != "" && !AsciiSpace(rest[0])
    case Lit(t) => token == t
    case Str => Literally(token) && decode(token).Some?
    case KeyIn(keys) => Literally(token) && decode(token).Some? && decode(token).value in keys
  }

  predicate FitsAll(items: seq<Item>, tokens: seq<string>, rest: string, decode: Decoder)
    decreases |items|
  {
    if items == [] then tokens == []
    else
      && tokens != [] && Fits(items[0], tokens[0], Concat(tokens[1..]) + rest, decode)
      && FitsAll(items[1..], tokens[1..], rest, decode)
  }

  function Captured(items: seq<Item>, tokens: seq<string>, decode: Decoder): seq<string>
    decreases |items|
  {
    if items == [] || tokens == [] then []
    else
      (if items[0].Str? && decode(tokens[0]).Some? then [decode(tokens[0]).value] else [])
      + Captured(items[1..], tokens[1..], decode)
  }

  lemma {:induction false} CloseQuoteShift(before: string, s: string, at: nat, escape: bool)
    requires at <= |s|
    ensures CloseQuote(before + s, |before| + at, escape) ==
            match CloseQuote(s, at, escape) case None => None case Some(end) => Some(|before| + end)
    decreases |s| - at
  {
    if at < |s| {
      assert (before + s)[|before| + at] == s[at];
      CloseQuoteShift(before, s, at + 1, !escape && s[at] == '\\');
    }
  }

  lemma LiteralReads(before: string, token: string, rest: string, decode: Decoder)
    requires Literally(token) && decode(token).Some?
    ensures JsonString(before + token + rest, |before|, decode) == Done((decode(token).value, |before| + |token|))
  {
    var s := before + token + rest;
    assert s[|before|] == token[0];
    CloseQuoteShift(before, token, 1, false);
    CloseQuoteStable(before + token, rest, |before| + 1, false);
    assert s[|before|..|before| + |token|] == token;
  }

  lemma ItemReads(before: string, item: Item, token: string, rest: string, decode: Decoder)
    requires Fits(item, token, rest, decode)
    ensures ParseItem(before + token + rest, |before|, item, decode) ==
            Done(Matched(|before| + |token|, if item.Str? then [decode(token).value] else []))
  {
    match item {
      case Ws => GR.GapIsSkipped(before, token, rest);
      case Lit(t) => assert (before + token + rest)[|before|..|before| + |token|] == token;
      case _ => LiteralReads(before, token, rest, decode);
    }
  }

  /** Printed tokens parse item by item to what was printed. */
  lemma {:induction false} ItemsRoundTrip(before: string, items: seq<Item>, tokens: seq<string>, rest: string,
      decode: Decoder)
    requires FitsAll(items, tokens, rest, decode)
    ensures ParseItems(before + Concat(tokens) + rest, |before|, items, decode) ==
            Done(Matched(|before| + |Concat(tokens)|, Captured(items, tokens, decode)))
    decreases |items|
  {
    hide Fits, ParseItem;
    if items == [] {
      assert Concat(tokens) == "";
    } else {
      var token, tail := tokens[0], Concat(tokens[1..]);
      ItemReads(before, items[0], token, tail + rest, decode);
      assert before + Concat(tokens) + rest == before + token + (tail + rest);
      assert before + token + (tail + rest) == before + token + tail + rest;
      ItemsRoundTrip(before + token, items[1..], tokens[1..], rest, decode);
      FittedCapture(items[0], token, tail + rest, decode);
    }
  }

  lemma FittedCapture(item: Item, token: string, rest: string, decode: Decoder)
    requires Fits(item, token, rest, decode)
    ensures item.Str? ==> decode(token).Some?
  {
  }

  lemma Fitted(item: Item, items: seq<Item>, token: string, tokens: seq<string>, rest: string, decode: Decoder)
    requires Fits(item, token, Concat(tokens) + rest, decode) && FitsAll(items, tokens, rest, decode)
    ensures FitsAll([item] + items, [token] + tokens, rest, decode)
  {
    assert ([item] + items)[1..] == items && ([token] + tokens)[1..] == tokens;
  }

  predicate Visible(token: string) {
    token != "" && !AsciiSpace(token[0])
  }

  /** White space and then a token that does not depend on what follows it. */
  lemma FittedPair(gap: string, item: Item, token: string, items: seq<Item>, tokens: seq<string>, rest: string,
      decode: Decoder)
    requires GR.Gap(gap) && Visible(token) && !item.Ws? && Fits(item, token, Concat(tokens) + rest, decode)
    requires FitsAll(items, tokens, rest, decode)
    ensures FitsAll([Ws, item] + items, [gap, token] + tokens, rest, decode)
  {
    hide FitsAll;
    Fitted(item, items, token, tokens, rest, decode);
    ConcatStep([token] + tokens);
    assert ([token] + tokens)[1..] == tokens;
    assert (Concat([token] + tokens) + rest)[0] == token[0];
    Fitted(Ws, [item] + items, gap, [token] + tokens, rest, decode);
    assert [Ws] + ([item] + items) == [Ws, item] + items && [gap] + ([token] + tokens) == [gap, token] + tokens;
  }

  lemma LastGapFits(gap: string, rest: string, decode: Decoder)
    requires GR.Gap(gap) && Visible(rest)
    ensures FitsAll([Ws], [gap], rest, decode)
  {
    assert "" + rest == rest;
    assert [gap][1..] == [];
  }

  lemma QuotedIsVisible(token: string)
    requires Literally(token)
    ensures Visible(token)
  {
  }

  /** A fixed word, without and with white space in front of it. */
  lemma FittedWord(gap: string, word: string, items: seq<Item>, tokens: seq<string>, rest: string, decode: Decoder)
    requires FitsAll(items, tokens, rest, decode)
    ensures FitsAll([Lit(word)] + items, [word] + tokens, rest, decode)
    ensures GR.Gap(gap) && Visible(word) ==> FitsAll([Ws, Lit(word)] + items, [gap, word] + tokens, rest, decode)
  {
    hide FitsAll;
    Fitted(Lit(word), items, word, tokens, rest, decode);
    if GR.Gap(gap) && Visible(word) {
      FittedPair(gap, Lit(word), word, items, tokens, rest, decode);
    }
  }

  lemma CapturedStep(item: Item, items: seq<Item>, token: string, tokens: seq<string>, decode: Decoder)
    ensures Captured([item] + items, [token] + tokens, decode) ==
            (if item.Str? && decode(token).Some? then [decode(token).value] else []) + Captured(items, tokens, decode)
  {
    assert ([item] + items)[1..] == items && ([token] + tokens)[1..] == tokens;
  }

  lemma {:induction false} NothingCaptured(items: seq<Item>, tokens: seq<string>, decode: Decoder)
    requires forall item <- items :: !item.Str?
    ensures Captured(items, tokens, decode) == []
    decreases |items|
  {
    if items != [] && tokens != [] {
      assert items[0] in items;
      NothingCaptured(items[1..], tokens[1..], decode);
    }
  }

  lemma {:induction false} CapturedAppend(a: seq<Item>, x: seq<string>, items: seq<Item>, tokens: seq<string>,
      decode: Decoder)
    requires |a| == |x|
    ensures Captured(a + items, x + tokens, decode) == Captured(a, x, decode) + Captured(items, tokens, decode)
    decreases |a|
  {
    if a == [] {
      assert a + items == items && x + tokens == tokens;
    } else {
      assert (a + items)[1..] == a[1..] + items && (x + tokens)[1..] == x[1..] + tokens;
      CapturedAppend(a[1..], x[1..], items, tokens, decode);
    }
  }

  lemma PairConcat(a: string, b: string)
    ensures Concat([a, b]) == a + b
  {
    hide Concat;
    ConcatStep([a, b]);
    ConcatStep([b]);
    ConcatStep([]);
    assert [a, b][1..] == [b] && [b][1..] == [] && b + "" == b;
  }

  lemma PairFits(items: seq<Item>, tokens: seq<string>, rest: string, decode: Decoder)
    requires |items| == |tokens| == 2
    requires Fits(items[0], tokens[0], tokens[1] + rest, decode) && Fits(items[1], tokens[1], rest, decode)
    ensures FitsAll(items, tokens, rest, decode)
  {
    hide Fits, Concat;
    ConcatStep(tokens[1..]);
    ConcatStep([]);
    assert tokens[1..][1..] == [] && items[1..][1..] == [] && tokens[1] + "" == tokens[1] && "" + rest == rest;
    NothingFits(rest, decode);
  }

  lemma NothingFits(rest: string, decode: Decoder)
    ensures FitsAll([], [], rest, decode)
  {
  }

  /** Two tokens of which nothing is captured. */
  lemma PairIsRead(before: string, items: seq<Item>, tokens: seq<string>, rest: string, decode: Decoder)
    requires |items| == |tokens| == 2 && !items[0].Str? && !items[1].Str?
    requires Fits(items[0], tokens[0], tokens[1] + rest, decode) && Fits(items[1], tokens[1], rest, decode)
    ensures ParseItems(before + Concat(tokens) + rest, |before|, items, decode) ==
            Done(Matched(|before| + |Concat(tokens)|, []))
  {
    hide *;
    PairFits(items, tokens, rest, decode);
    NothingCaptured(items, tokens, decode);
    ItemsRoundTrip(before, items, tokens, rest, decode);
  }

  // -------- What items have read is tokens --------

  lemma {:induction false} CloseQuoteInside(s: string, at: nat, escape: bool, end: nat)
    requires at <= |s| && CloseQuote(s, at, escape) == Some(end)
    ensures CloseQuote(s[..end], at, escape) == Some(end)
    decreases |s| - at
  {
    assert s[..end][at] == s[at];
    if escape {
      CloseQuoteInside(s, at + 1, false, end);
    } else if s[at] == '\\' {
      CloseQuoteInside(s, at + 1, true, end);
    } else if s[at] != '"' {
      CloseQuoteInside(s, at + 1, false, end);
    }
  }

  lemma ReadIsLiteral(s: string, at: nat, decode: Decoder)
    requires at <= |s| && JsonString(s, at, decode).Done?
    ensures var (value, end) := JsonString(s, at, decode).value;
            Literally(s[at..end]) && decode(s[at..end]) == Some(value)
  {
    var end := JsonString(s, at, decode).value.1;
    CloseQuoteInside(s, at + 1, false, end);
    assert s[..end] == s[..at] + s[at..end];
    CloseQuoteShift(s[..at], s[at..end], 1, false);
  }

  lemma ReadFits(s: string, at: nat, item: Item, decode: Decoder)
    requires at <= |s| && ParseItem(s, at, item, decode).Done?
    ensures var m := ParseItem(s, at, item, decode).value;
            var token := s[at..m.end];
            && Fits(item, token, s[m.end..], decode)
            && m.captured == (if item.Str? then [decode(token).value] else [])
  {
    hide JsonString, SkipSpace, Literally;
    match item {
      case Str => ReadIsLiteral(s, at, decode);
      case KeyIn(_) => ReadIsLiteral(s, at, decode);
      case _ =>
    }
  }

  /** Whatever a sequence has read is tokens that fit it. */
  lemma {:induction false} ItemsAreTokens(s: string, at: nat, items: seq<Item>, decode: Decoder)
    returns (tokens: seq<string>)
    requires at <= |s| && ParseItems(s, at, items, decode).Done?
    ensures var m := ParseItems(s, at, items, decode).value;
            && |tokens| == |items| && FitsAll(items, tokens, s[m.end..], decode)
            && s[at..] == Concat(tokens) + s[m.end..] && m.end == at + |Concat(tokens)|
            && m.captured == Captured(items, tokens, decode)
    decreases |items|
  {
    hide Fits, ParseItem;
    if items == [] {
      tokens := [];
    } else {
      var head := ParseItem(s, at, items[0], decode).value;
      ReadFits(s, at, items[0], decode);
      var rest := ItemsAreTokens(s, head.end, items[1..], decode);
      var token := s[at..head.end];
      tokens := [token] + rest;
      assert tokens[1..] == rest;
      FittedCapture(items[0], token, s[head.end..], decode);
      assert s[at..] == token + s[head.end..];
      var end := ParseItems(s, at, items, decode).value.end;
      assert token + (Concat(rest) + s[end..]) == token + Concat(rest) + s[end..];
    }
  }

  lemma {:induction false} FitsAt(items: seq<Item>, tokens: seq<string>, rest: string, decode: Decoder, k: nat)
    requires FitsAll(items, tokens, rest, decode) && k < |items|
    ensures |tokens| == |items| && Fits(items[k], tokens[k], Concat(tokens[k + 1..]) + rest, decode)
  {
    hide Fits;
    FitsLength(items, tokens, rest, decode);
    if k > 0 {
      FitsAt(items[1..], tokens[1..], rest, decode, k - 1);
      assert tokens[1..][k..] == tokens[k + 1..];
    }
  }

  lemma {:induction false} FitsLength(items: seq<Item>, tokens: seq<string>, rest: string, decode: Decoder)
    requires FitsAll(items, tokens, rest, decode)
    ensures |tokens| == |items|
    decreases |items|
  {
    hide Fits;
    if items != [] {
      FitsLength(items[1..], tokens[1..], rest, decode);
    }
  }

  // -------- Headers --------

  /** A call's header as written: white space between its tokens, and the name's and the key's literals. */
  datatype Header = Header(gaps: seq<string>, name: string, key: string)

  predicate Decodes(token: string, decode: Decoder) {
    Literally(token) && decode(token).Some?
  }

  /** The name is any string, and the key one of those the format allows. */
  predicate ProperHeader(config: Config, h: Header) {
    && |h.gaps| == 8 && (forall k :: 0 <= k < 8 ==> GR.Gap(h.gaps[k]))
    && Decodes(h.name, config.decode)
    && Decodes(h.key, config.decode) && config.decode(h.key).value in config.argumentsKeys
  }

  function HeaderTokens(config: Config, h: Header): seq<string>
    requires |h.gaps| == 8
  {
    [h.gaps[0], "{", h.gaps[1], "\"", config.nameKey, "\"", h.gaps[2], ":", h.gaps[3], h.name, h.gaps[4], ",",
     h.gaps[5], h.key, h.gaps[6], ":", h.gaps[7]]
  }

  function SpellHeader(config: Config, h: Header): string
    requires |h.gaps| == 8
  {
    Concat(HeaderTokens(config, h))
  }

  function NameIn(config: Config, h: Header): string {
    var name := config.decode(h.name);
    if name.Some? then name.value else ""
  }

  /** The second half of a header: the name, the arguments key, and what is between them. */
  lemma HeaderTailFits(config: Config, h: Header, rest: string) returns (items: seq<Item>, tokens: seq<string>)
    requires ProperHeader(config, h) && Visible(rest)
    ensures items == [Ws, Lit(":"), Ws, Str, Ws, Lit(","), Ws, KeyIn(config.argumentsKeys), Ws, Lit(":"), Ws]
    ensures tokens ==
            [h.gaps[2], ":", h.gaps[3], h.name, h.gaps[4], ",", h.gaps[5], h.key, h.gaps[6], ":", h.gaps[7]]
    ensures FitsAll(items, tokens, rest, config.decode)
  {
    hide FitsAll, Concat, Literally;
    var d, g := config.decode, h.gaps;
    QuotedIsVisible(h.name);
    QuotedIsVisible(h.key);
    LastGapFits(g[7], rest, d);
    FittedPair(g[6], Lit(":"), ":", [Ws], [g[7]], rest, d);
    items, tokens := [Ws, Lit(":")] + [Ws], [g[6], ":"] + [g[7]];
    FittedPair(g[5], KeyIn(config.argumentsKeys), h.key, items, tokens, rest, d);
    items, tokens := [Ws, KeyIn(config.argumentsKeys)] + items, [g[5], h.key] + tokens;
    FittedPair(g[4], Lit(","), ",", items, tokens, rest, d);
    items, tokens := [Ws, Lit(",")] + items, [g[4], ","] + tokens;
    FittedPair(g[3], Str, h.name, items, tokens, rest, d);
    items, tokens := [Ws, Str] + items, [g[3], h.name] + tokens;
    FittedPair(g[2], Lit(":"), ":", items, tokens, rest, d);
    items, tokens := [Ws, Lit(":")] + items, [g[2], ":"] + tokens;
  }

  lemma HeaderFits(config: Config, h: Header, rest: string)
    requires ProperHeader(config, h) && Visible(rest)
    ensures FitsAll(HeaderItems(config), HeaderTokens(config, h), rest, config.decode)
  {
    hide FitsAll, Concat, Literally, HeaderItems, HeaderTokens;
    var d, g := config.decode, h.gaps;
    var items, tokens := HeaderTailFits(config, h, rest);
    HeaderLayout(config, h, items, tokens);
    FittedWord("", "\"", items, tokens, rest, d);
    FittedWord("", config.nameKey, [Lit("\"")] + items, ["\""] + tokens, rest, d);
    var items1, tokens1 := [Lit(config.nameKey)] + ([Lit("\"")] + items), [config.nameKey] + (["\""] + tokens);
    FittedWord(g[1], "\"", items1, tokens1, rest, d);
    FittedWord(g[0], "{", [Ws, Lit("\"")] + items1, [g[1], "\""] + tokens1, rest, d);
  }

  lemma HeaderLayout(config: Config, h: Header, items: seq<Item>, tokens: seq<string>)
    requires |h.gaps| == 8
    requires items == [Ws, Lit(":"), Ws, Str, Ws, Lit(","), Ws, KeyIn(config.argumentsKeys), Ws, Lit(":"), Ws]
    requires tokens ==
             [h.gaps[2], ":", h.gaps[3], h.name, h.gaps[4], ",", h.gaps[5], h.key, h.gaps[6], ":", h.gaps[7]]
    ensures HeaderItems(config) == [Ws, Lit("{")] + ([Ws, Lit("\"")] + ([Lit(config.nameKey)] + ([Lit("\"")] + items)))
    ensures HeaderTokens(config, h) == [h.gaps[0], "{"] + ([h.gaps[1], "\""] + ([config.nameKey] + (["\""] + tokens)))
  {
  }

  lemma HeaderCaptures(config: Config, h: Header)
    requires ProperHeader(config, h)
    ensures Captured(HeaderItems(config), HeaderTokens(config, h), config.decode) == [NameIn(config, h)]
  {
    hide Captured;
    var items, tokens, d := HeaderItems(config), HeaderTokens(config, h), config.decode;
    assert items == items[..9] + ([Str] + items[10..]);
    assert tokens == tokens[..9] + ([h.name] + tokens[10..]);
    CapturedAppend(items[..9], tokens[..9], [Str] + items[10..], [h.name] + tokens[10..], d);
    CapturedStep(Str, items[10..], h.name, tokens[10..], d);
    NothingCaptured(items[..9], tokens[..9], d);
    NothingCaptured(items[10..], tokens[10..], d);
  }

  lemma HeaderStarts(config: Config, h: Header)
    requires |h.gaps| == 8
    ensures SpellHeader(config, h) != "" && (h.gaps[0] == "" ==> SpellHeader(config, h)[0] == '{')
  {
    hide Concat;
    var tokens := HeaderTokens(config, h);
    ConcatStep(tokens);
    ConcatStep(tokens[1..]);
    assert tokens[1..][0] == "{";
  }

  lemma HeaderIsRead(config: Config, h: Header, rest: string)
    requires ProperHeader(config, h) && Visible(rest)
    ensures var head := SpellHeader(config, h);
            NextEvent(config, head + rest, HeaderMode) == Ready(CallHeader(NameIn(config, h)), |head|)
              && (head + rest)[|head|..] == rest
  {
    hide ParseItems, FitsAll, HeaderItems, HeaderTokens, Captured;
    var head := SpellHeader(config, h);
    HeaderFits(config, h, rest);
    HeaderCaptures(config, h);
    ItemsRoundTrip("", HeaderItems(config), HeaderTokens(config, h), rest, config.decode);
    assert "" + head + rest == head + rest;
    HeaderStarts(config, h);
  }

  /** What each token of a header is. */
  lemma HeaderToken(config: Config, tokens: seq<string>, rest: string, k: nat)
    requires FitsAll(HeaderItems(config), tokens, rest, config.decode) && k < 17
    ensures |tokens| == 17
    ensures k in {0, 2, 6, 8, 10, 12, 14, 16} ==> GR.Gap(tokens[k])
    ensures k == 1 ==> tokens[k] == "{"
    ensures k in {3, 5} ==> tokens[k] == "\""
    ensures k == 4 ==> tokens[k] == config.nameKey
    ensures k in {7, 15} ==> tokens[k] == ":"
    ensures k == 11 ==> tokens[k] == ","
    ensures k in {9, 13} ==> Decodes(tokens[k], config.decode)
    ensures k == 13 ==> config.decode(tokens[k]).value in config.argumentsKeys
    ensures k == 16 ==> Visible(Concat(tokens[17..]) + rest)
  {
    hide FitsAll, Concat, Literally;
    FitsLength(HeaderItems(config), tokens, rest, config.decode);
    FitsAt(HeaderItems(config), tokens, rest, config.decode, k);
  }

  /** Tokens that fit the header's items are a proper header. */
  lemma TokensAreHeader(config: Config, tokens: seq<string>, rest: string) returns (h: Header)
    requires FitsAll(HeaderItems(config), tokens, rest, config.decode)
    ensures ProperHeader(config, h) && HeaderTokens(config, h) == tokens && Visible(rest)
  {
    hide FitsAll, Concat, Decodes, HeaderItems, GR.Gap;
    HeaderToken(config, tokens, rest, 0);
    h := Header([tokens[0], tokens[2], tokens[6], tokens[8], tokens[10], tokens[12], tokens[14], tokens[16]],
      tokens[9], tokens[13]);
    forall k | 0 <= k < 17 {
      HeaderToken(config, tokens, rest, k);
    }
    assert tokens[17..] == [] && Concat([]) + rest == rest by { ConcatStep([]); }
    assert HeaderTokens(config, h) == tokens;
  }

  /** The text starts with this header, and something visible follows. */
  ghost predicate HeaderAt(config: Config, s: string, h: Header, n: nat) {
    && ProperHeader(config, h)
    && n == |SpellHeader(config, h)| <= |s| && s[..n] == SpellHeader(config, h) && Visible(s[n..])
  }

  /** A header is accepted exactly if it is written as one. */
  lemma HeadersAreExact(config: Config, s: string, name: string, n: nat)
    ensures NextEvent(config, s, HeaderMode) == Ready(CallHeader(name), n) <==>
            exists h: Header :: HeaderAt(config, s, h, n) && NameIn(config, h) == name
  {
    hide ProperHeader, HeaderItems, HeaderTokens, Concat, ParseItems, FitsAll, Captured;
    if NextEvent(config, s, HeaderMode) == Ready(CallHeader(name), n) {
      var h := AcceptedHeader(config, s);
    }
    if h: Header :| HeaderAt(config, s, h, n) && NameIn(config, h) == name {
      HeaderIsRead(config, h, s[n..]);
      assert s == s[..n] + s[n..];
    }
  }

  lemma AcceptedHeader(config: Config, s: string) returns (h: Header)
    requires NextEvent(config, s, HeaderMode).Ready?
    ensures ProperHeader(config, h)
    ensures var n := |SpellHeader(config, h)|;
            HeaderAt(config, s, h, n) && NextEvent(config, s, HeaderMode) == Ready(CallHeader(NameIn(config, h)), n)
  {
    hide ParseItems, FitsAll, HeaderTokens, HeaderItems, Concat, Captured, ProperHeader;
    var m := ParseItems(s, 0, HeaderItems(config), config.decode).value;
    var tokens := ItemsAreTokens(s, 0, HeaderItems(config), config.decode);
    h := TokensAreHeader(config, tokens, s[m.end..]);
    HeaderCaptures(config, h);
    assert s[0..] == s;
    assert s[..m.end] == Concat(tokens);
  }

  // -------- Texts --------

  /** Space after a marker is free, or fixed by the format. */
  predicate MarkerGap(config: Config, gap: string) {
    match config.whitespace case Optional => GR.Gap(gap) case Exact(text) => gap == text
  }

  /**
   Formats with markers that cannot overlap themselves; a delimiter, if there is one, is no marker,
   and stands in free white space.
   */
  predicate Tagged(config: Config) {
    && config.WellFormed() && GR.TagLike(config.startMarker) && GR.TagLike(config.endMarker)
    && (config.delimiter.Some? ==>
          config.whitespace.Optional? && Visible(config.delimiter.value) && config.delimiter.value[0] != '<')
  }

  /** Text without a call, or a block of calls in front of more text. */
  datatype Tree = Last(text: string) | Block(text: string, gap: string, body: Body)

  /** A call, and how it closes: with the end marker, or with a delimiter and another call. */
  datatype Body = Body(header: Header, arguments: string, closer: Closer)

  datatype Closer = Close(gap: string, rest: Tree) | Also(gap: string, more: string, next: Body)

  /** Behind a marker: nothing that could begin a call. */
  predicate Stalls(config: Config, rest: string) {
    match config.whitespace case Optional => GR.Gap(rest) case Exact(text) => !(text <= rest)
  }

  predicate StaysText(config: Config, text: string) {
    match Find(text, config.startMarker)
    case None => true
    case Some(i) => Stalls(config, text[i + |config.startMarker|..])
  }

  predicate ProperTree(config: Config, tree: Tree) {
    match tree
    case Last(text) => StaysText(config, text)
    case Block(text, gap, body) =>
      && GR.Lacks(text, config.startMarker) && MarkerGap(config, gap) && ProperBody(config, body)
      && (config.whitespace.Optional? ==> body.header.gaps[0] == "")
  }

  predicate ProperBody(config: Config, body: Body)
    ensures ProperBody(config, body) ==> |body.header.gaps| == 8
  {
    && ProperHeader(config, body.header)
    && ScanText(FreshScan, body.arguments) == Closed(|body.arguments|)
    && ProperCloser(config, body.closer)
  }

  predicate ProperCloser(config: Config, closer: Closer) {
    match closer
    case Close(gap, rest) => MarkerGap(config, gap) && ProperTree(config, rest)
    case Also(gap, more, next) =>
      && config.delimiter.Some? && GR.Gap(gap) && GR.Gap(more)
      && ProperBody(config, next) && next.header.gaps[0] == ""
  }

  function SpellTree(config: Config, tree: Tree): string
    requires ProperTree(config, tree)
  {
    match tree
    case Last(text) => text
    case Block(text, gap, body) => text + (config.startMarker + gap + SpellBody(config, body))
  }

  function SpellBody(config: Config, body: Body): string
    requires ProperBody(config, body)
  {
    SpellHeader(config, body.header) + (body.arguments + ("}" + SpellCloser(config, body.closer)))
  }

  function SpellCloser(config: Config, closer: Closer): string
    requires ProperCloser(config, closer)
  {
    match closer
    case Close(gap, rest) => gap + config.endMarker + SpellTree(config, rest)
    case Also(gap, more, next) => gap + config.delimiter.value + more + SpellBody(config, next)
  }

  function TreeSays(config: Config, tree: Tree, index: nat, out: ToolParserOutput): ToolParserOutput {
    match tree
    case Last(text) => out.AddText(text)
    case Block(text, _, body) => BodySays(config, body, index, out.AddText(text))
  }

  function BodySays(config: Config, body: Body, index: nat, out: ToolParserOutput): ToolParserOutput {
    var called := out.AddCall(ToolCallDelta(index, Some(NameIn(config, body.header)), body.arguments));
    match body.closer
    case Close(_, rest) => TreeSays(config, rest, index + 1, called)
    case Also(_, _, next) => BodySays(config, next, index + 1, called)
  }

  // -------- Markers --------

  lemma StartIsRead(config: Config, gap: string, rest: string)
    requires Tagged(config) && MarkerGap(config, gap) && (config.whitespace.Optional? ==> Visible(rest))
    ensures var s, n := config.startMarker + gap + rest, |config.startMarker| + |gap|;
            NextInText(config, s) == Ready(CallStart, n) && s[n..] == rest
  {
    hide ParseItems;
    var items, tokens := [Lit(config.startMarker), MarkerSpace(config)], [config.startMarker, gap];
    assert items == StartItems(config);
    PairConcat(config.startMarker, gap);
    PairIsRead("", items, tokens, rest, config.decode);
    assert "" + Concat(tokens) + rest == config.startMarker + gap + rest;
  }

  /** White space up to something visible, or up to the end. */
  lemma GapOfText(s: string)
    ensures var p := SkipSpace(s, 0);
            GR.Gap(s[..p]) && s == s[..p] + s[p..] && (if p == |s| then GR.Gap(s) else Visible(s[p..]) && !GR.Gap(s))
  {
    hide SkipSpace;
    var p := SkipSpace(s, 0);
    if p < |s| {
      assert s[p..][0] == s[p];
    }
  }

  lemma PairIsTokens(s: string, at: nat, items: seq<Item>, decode: Decoder) returns (tokens: seq<string>)
    requires at <= |s| && |items| == 2 && ParseItems(s, at, items, decode).Done?
    ensures var m := ParseItems(s, at, items, decode).value;
            && |tokens| == 2 && s[at..] == tokens[0] + tokens[1] + s[m.end..]
            && m.end == at + |tokens[0]| + |tokens[1]|
            && Fits(items[0], tokens[0], tokens[1] + s[m.end..], decode)
            && Fits(items[1], tokens[1], s[m.end..], decode)
  {
    hide Fits, FitsAll, ParseItems;
    tokens := ItemsAreTokens(s, at, items, decode);
    var rest := s[ParseItems(s, at, items, decode).value.end..];
    FitsAt(items, tokens, rest, decode, 0);
    FitsAt(items, tokens, rest, decode, 1);
    assert tokens == [tokens[0], tokens[1]] && tokens[1..] == [tokens[1]] && tokens[2..] == [];
    PairConcat(tokens[0], tokens[1]);
    assert Concat([]) + rest == rest && Concat([tokens[1]]) == tokens[1] + "" == tokens[1];
  }

  predicate Opens(next: Next) {
    next.Ready? && next.event == CallStart
  }

  /** What has been read as a start is a marker and its gap. */
  lemma StartIsSpelled(config: Config, s: string)
    requires Opens(NextInText(config, s))
    ensures var n, m := NextInText(config, s).consumed, |config.startMarker|;
            && m <= n <= |s| && MarkerGap(config, s[m..n]) && s == config.startMarker + s[m..n] + s[n..]
            && (config.whitespace.Optional? ==> Visible(s[n..]))
  {
    hide SafeTextLen, ParseItems, Visible;
    var tokens := PairIsTokens(s, 0, StartItems(config), config.decode);
    var n, m := NextInText(config, s).consumed, |config.startMarker|;
    assert s[0..] == s && tokens[0] == config.startMarker && s[m..n] == tokens[1];
    VisibleMeans(s[n..]);
  }

  lemma VisibleMeans(s: string)
    ensures Visible(s) <==> s != "" && !AsciiSpace(s[0])
  {
  }

  lemma GapIsNotVisible(gap: string, rest: string)
    requires Visible(rest)
    ensures !GR.Gap(gap + rest)
  {
    assert (gap + rest)[|gap|] == rest[0];
  }

  lemma StartOpens(config: Config, rest: string)
    requires Tagged(config) && !Stalls(config, rest)
    ensures Opens(NextInText(config, config.startMarker + rest))
  {
    hide NextInText, Visible, GR.Gap, SkipSpace;
    GapOfText(rest);
    var marker := config.startMarker;
    match config.whitespace {
      case Optional =>
        var p := SkipSpace(rest, 0);
        StartIsRead(config, rest[..p], rest[p..]);
        assert marker + rest[..p] + rest[p..] == marker + rest;
      case Exact(text) =>
        StartIsRead(config, text, rest[|text|..]);
        assert marker + text + rest[|text|..] == marker + rest;
    }
  }

  lemma StartStalls(config: Config, rest: string)
    requires Opens(NextInText(config, config.startMarker + rest))
    ensures !Stalls(config, rest)
  {
    hide NextInText, Visible, GR.Gap;
    var s, m := config.startMarker + rest, |config.startMarker|;
    StartIsSpelled(config, s);
    var n := NextInText(config, s).consumed;
    assert rest == s[m..n] + s[n..];
    if config.whitespace.Optional? {
      GapIsNotVisible(s[m..n], s[n..]);
    }
  }

  /** At a marker the parser opens a call exactly if it does not stall. */
  lemma StartIsExact(config: Config, rest: string)
    requires Tagged(config)
    ensures Opens(NextInText(config, config.startMarker + rest)) <==> !Stalls(config, rest)
  {
    hide *;
    if Opens(NextInText(config, config.startMarker + rest)) {
      StartStalls(config, rest);
    }
    if !Stalls(config, rest) {
      StartOpens(config, rest);
    }
  }

  lemma EndIsRead(config: Config, gap: string, rest: string)
    requires Tagged(config) && MarkerGap(config, gap)
    ensures var s, n := "}" + (gap + config.endMarker + rest), 1 + |gap| + |config.endMarker|;
            NextEvent(config, s, ArgumentsMode(ClosedScan)) == Ready(CallEnd, n) && s[n..] == rest
  {
    hide ParseItems;
    var items, tokens := [MarkerSpace(config), Lit(config.endMarker)], [gap, config.endMarker];
    assert items == EndItems(config);
    assert (config.endMarker + rest)[0] == '<';
    PairConcat(gap, config.endMarker);
    PairIsRead("}", items, tokens, rest, config.decode);
    var s := "}" + (gap + config.endMarker + rest);
    assert s == "}" + Concat(tokens) + rest && s[0..1] == "}";
  }

  /** Behind a call, a delimiter is no end marker. */
  lemma DelimiterIsNoEnd(config: Config, before: string, gap: string, rest: string)
    requires Tagged(config) && config.whitespace.Optional? && GR.Gap(gap) && Visible(rest) && rest[0] != '<'
    ensures ParseItems(before + gap + rest, |before|, EndItems(config), config.decode) == Backtrack
  {
    hide SkipSpace;
    var s, at := before + gap + rest, |before| + |gap|;
    GR.GapIsSkipped(before, gap, rest);
    var items := EndItems(config);
    assert items[1..] == [Lit(config.endMarker)];
    assert s[at] == rest[0];
    assert at + |config.endMarker| <= |s| ==> s[at..at + |config.endMarker|][0] == s[at];
    assert s[at..][0] == s[at];
    assert ParseItem(s, at, items[1], config.decode) == Backtrack;
  }

  lemma DelimiterIsRead(config: Config, gap: string, more: string, rest: string)
    requires Tagged(config) && config.delimiter.Some? && GR.Gap(gap) && GR.Gap(more) && Visible(rest)
    ensures var d := config.delimiter.value;
            var s, n := "}" + (gap + d + more + rest), 1 + |gap| + |d| + |more|;
            NextEvent(config, s, ArgumentsMode(ClosedScan)) == Ready(CallDelimiter, n) && s[n..] == rest
  {
    hide ParseItems, FitsAll, Concat, Captured, GR.Gap;
    var d := config.delimiter.value;
    var s := "}" + (gap + d + more + rest);
    assert s == "}" + gap + (d + more + rest) && s[0..1] == "}";
    DelimiterIsNoEnd(config, "}", gap, d + more + rest);
    LastGapFits(more, rest, config.decode);
    ThreeTokens(gap, d, more);
    FittedPair(gap, Lit(d), d, [Ws], [more], rest, config.decode);
    var items, tokens := [Ws, Lit(d)] + [Ws], [gap, d] + [more];
    assert items == DelimiterItems(d);
    ItemsRoundTrip("}", items, tokens, rest, config.decode);
    NothingCaptured(items, tokens, config.decode);
    assert "}" + Concat(tokens) + rest == s;
  }

  lemma ThreeTokens(a: string, b: string, c: string)
    ensures Concat([a, b] + [c]) == a + b + c
  {
    hide Concat;
    PairConcat(a, b);
    ConcatAppend([a, b], [c]);
    ConcatStep([c]);
    ConcatStep([]);
    assert [c][1..] == [] && c + "" == c;
  }

  /** What has been read behind a call is one of the two. */
  lemma CloserIsSpelled(config: Config, s: string)
    requires Tagged(config) && NextEvent(config, s, ArgumentsMode(ClosedScan)).Ready?
    ensures var next := NextEvent(config, s, ArgumentsMode(ClosedScan));
            var n := next.consumed;
            && n <= |s| && s != "" && s[0] == '}'
            && match next.event
               case CallEnd =>
                 exists gap :: MarkerGap(config, gap) && s == "}" + (gap + config.endMarker + s[n..])
               case CallDelimiter =>
                 && config.delimiter.Some? && Visible(s[n..])
                 && exists gap, more :: GR.Gap(gap) && GR.Gap(more)
                      && s == "}" + (gap + config.delimiter.value + more + s[n..])
               case _ => false
  {
    hide ParseItems, Visible, GR.Gap;
    var next := NextEvent(config, s, ArgumentsMode(ClosedScan));
    var n := next.consumed;
    assert s[0..1] == "}" && s == "}" + s[1..];
    if next.event.CallEnd? {
      var tokens := PairIsTokens(s, 1, EndItems(config), config.decode);
      assert s == "}" + (tokens[0] + config.endMarker + s[n..]);
    } else {
      var gap, more := DelimiterIsSpelled(config, s);
    }
  }

  lemma DelimiterIsSpelled(config: Config, s: string) returns (gap: string, more: string)
    requires s != "" && config.delimiter.Some?
    requires ParseItems(s, 1, DelimiterItems(config.delimiter.value), config.decode).Done?
    ensures var d, n := config.delimiter.value,
              ParseItems(s, 1, DelimiterItems(config.delimiter.value), config.decode).value.end;
            GR.Gap(gap) && GR.Gap(more) && s[1..] == gap + d + more + s[n..] && Visible(s[n..])
  {
    hide ParseItems, FitsAll, Concat;
    var d := config.delimiter.value;
    var items, n := DelimiterItems(d), ParseItems(s, 1, DelimiterItems(d), config.decode).value.end;
    var tokens := ItemsAreTokens(s, 1, items, config.decode);
    FitsAt(items, tokens, s[n..], config.decode, 0);
    FitsAt(items, tokens, s[n..], config.decode, 1);
    FitsAt(items, tokens, s[n..], config.decode, 2);
    gap, more := tokens[0], tokens[2];
    assert tokens == [gap, d] + [more] && tokens[3..] == [];
    ThreeTokens(gap, d, more);
    ConcatStep([]);
    assert Concat([]) + s[n..] == s[n..];
  }

  // -------- Every proper text is read --------

  /** Arguments start with a brace, so nothing in front of them is taken for space. */
  lemma ArgumentsAreVisible(arguments: string, rest: string)
    requires ScanText(FreshScan, arguments) == Closed(|arguments|)
    ensures Visible(arguments + rest)
    ensures ScanText(FreshScan, arguments + rest) == Closed(|arguments|)
  {
    ScanTextSplit(FreshScan, arguments, rest);
    assert arguments[0] == '{';
  }

  lemma BodyStarts(config: Config, body: Body)
    requires ProperBody(config, body) && body.header.gaps[0] == ""
    ensures Visible(SpellBody(config, body))
  {
    hide SpellHeader;
    HeaderStarts(config, body.header);
  }

  lemma {:induction false} TreeIsRead(config: Config, tree: Tree, index: nat, out: ToolParserOutput)
    requires Tagged(config) && ProperTree(config, tree)
    ensures ReadText(config, SpellTree(config, tree), index, out) == Success(TreeSays(config, tree, index, out))
    decreases tree
  {
    hide NextInText, ReadCall, Find, FindFrom, GR.Lacks, ProperBody, SpellBody, Visible;
    var s := SpellTree(config, tree);
    match tree {
      case Last(text) => LastIsRead(config, text, index, out);
      case Block(text, gap, body) =>
        if config.whitespace.Optional? {
          BodyStarts(config, body);
        }
        var inside := SpellBody(config, body);
        StartIsRead(config, gap, inside);
        var block, n := config.startMarker + gap + inside, |config.startMarker| + |gap|;
        MarkerIsFirst(config, text, block);
        assert s[|text|..] == block && s[..|text|] == text && block[n..] == inside;
        assert s[|text| + n..] == inside;
        BodyIsRead(config, body, index, out.AddText(text));
    }
  }

  lemma MarkerIsFirst(config: Config, text: string, block: string)
    requires Tagged(config) && GR.Lacks(text, config.startMarker) && config.startMarker <= block
    ensures Find(text + block, config.startMarker) == Some(|text|)
  {
    hide FindFrom;
    var rest := block[|config.startMarker|..];
    assert block == config.startMarker + rest;
    assert "" + text + config.startMarker + rest == text + block;
    GR.TagIsFound("", text, config.startMarker, rest);
  }

  lemma LastIsRead(config: Config, text: string, index: nat, out: ToolParserOutput)
    requires Tagged(config) && StaysText(config, text)
    ensures ReadText(config, text, index, out) == Success(out.AddText(text))
  {
    hide NextInText, FindFrom, ReadCall;
    match Find(text, config.startMarker) {
      case None =>
      case Some(i) =>
        var m := |config.startMarker|;
        assert text[i..] == config.startMarker + text[i + m..];
        StartIsExact(config, text[i + m..]);
    }
  }

  lemma {:induction false} BodyIsRead(config: Config, body: Body, index: nat, out: ToolParserOutput)
    requires Tagged(config) && ProperBody(config, body)
    ensures ReadCall(config, SpellBody(config, body), index, out) == Success(BodySays(config, body, index, out))
    decreases body
  {
    hide NextEvent, ScanText, ReadText, SpellHeader, ProperHeader, SpellCloser, TreeSays, ProperTree, Visible;
    var head, args := SpellHeader(config, body.header), body.arguments;
    var close := "}" + SpellCloser(config, body.closer);
    ArgumentsAreVisible(args, close);
    HeaderIsRead(config, body.header, args + close);
    assert SpellBody(config, body) == head + (args + close);
    assert (args + close)[|args|..] == close && (args + close)[..|args|] == args;
    CloserIsRead(config, body.closer, index + 1,
      out.AddCall(ToolCallDelta(index, Some(NameIn(config, body.header)), args)));
  }

  /** What `ReadCall` does behind a call. */
  function ReadCloser(config: Config, s: string, index: nat, out: ToolParserOutput)
    : Result<ToolParserOutput, ParseError>
  {
    match NextEvent(config, s, ArgumentsMode(ClosedScan))
    case Wait => Failure(UnfinishedCall)
    case Ready(CallEnd, m) => ReadText(config, s[m..], index, out)
    case Ready(CallDelimiter, m) => ReadCall(config, s[m..], index, out)
    case _ => Failure(BadSyntax)
  }

  lemma {:induction false} CloserIsRead(config: Config, closer: Closer, index: nat, out: ToolParserOutput)
    requires Tagged(config) && ProperCloser(config, closer)
    ensures ReadCloser(config, "}" + SpellCloser(config, closer), index, out) ==
            Success(match closer
                    case Close(_, rest) => TreeSays(config, rest, index, out)
                    case Also(_, _, next) => BodySays(config, next, index, out))
    decreases closer
  {
    hide NextEvent, ReadText, ReadCall, SpellTree, SpellBody, ProperTree, ProperBody, Visible;
    match closer {
      case Close(gap, rest) =>
        EndIsRead(config, gap, SpellTree(config, rest));
        TreeIsRead(config, rest, index, out);
      case Also(gap, more, next) =>
        BodyStarts(config, next);
        DelimiterIsRead(config, gap, more, SpellBody(config, next));
        BodyIsRead(config, next, index, out);
    }
  }

  // -------- Every text that is read is proper --------

  lemma UnfoundIsLacking(text: string, marker: string, i: nat)
    requires marker != "" && i <= |text| && forall j :: 0 <= j < i ==> !Occurs(text, marker, j)
    ensures GR.Lacks(text[..i], marker)
  {
    forall j | 0 <= j < i ensures !Occurs(text[..i], marker, j) {
      if Occurs(text[..i], marker, j) {
        assert text[..i] + text[i..] == text;
        OccursInPrefix(text[..i], text[i..], marker, j);
      }
    }
  }

  lemma {:induction false} TextIsTree(config: Config, s: string, index: nat, out: ToolParserOutput) returns (tree: Tree)
    requires Tagged(config) && ReadText(config, s, index, out).Success?
    ensures ProperTree(config, tree) && SpellTree(config, tree) == s
    decreases |s|
  {
    hide NextInText, ReadCall, FindFrom, GR.Lacks, Visible, Stalls;
    var found, m := Find(s, config.startMarker), |config.startMarker|;
    if found.None? {
      tree := Last(s);
    } else {
      var i := found.value;
      var block := s[i..];
      assert block == config.startMarker + s[i + m..];
      StartIsExact(config, s[i + m..]);
      if Opens(NextInText(config, block)) {
        StartIsSpelled(config, block);
        var n := NextInText(config, block).consumed;
        var inside, gap := s[i + n..], block[m..n];
        assert block[n..] == inside;
        var body := CallIsBody(config, inside, index, out.AddText(s[..i]));
        UnfoundIsLacking(s, config.startMarker, i);
        if config.whitespace.Optional? {
          FirstGapIsEmpty(config, body.header, inside);
        }
        tree := Block(s[..i], gap, body);
        assert s == s[..i] + (config.startMarker + gap + inside);
      } else {
        tree := Last(s);
      }
    }
  }

  lemma FirstGapIsFirst(config: Config, h: Header)
    requires |h.gaps| == 8
    ensures h.gaps[0] != "" ==> SpellHeader(config, h) != "" && SpellHeader(config, h)[0] == h.gaps[0][0]
  {
    hide Concat;
    ConcatStep(HeaderTokens(config, h));
  }

  /** White space in front of a header has been read with what precedes it. */
  lemma FirstGapIsEmpty(config: Config, h: Header, s: string)
    requires ProperHeader(config, h) && SpellHeader(config, h) <= s && Visible(s)
    ensures h.gaps[0] == ""
  {
    hide SpellHeader, Decodes;
    FirstGapIsFirst(config, h);
  }

  lemma {:induction false} CallIsBody(config: Config, s: string, index: nat, out: ToolParserOutput) returns (body: Body)
    requires Tagged(config) && ReadCall(config, s, index, out).Success?
    ensures ProperBody(config, body) && SpellBody(config, body) == s && SpellHeader(config, body.header) <= s
    decreases |s|, 0
  {
    hide NextEvent, ScanText, ReadText, SpellHeader, ProperHeader, SpellCloser, ProperCloser;
    var h := HeaderOfCall(config, s, index, out);
    var n := |SpellHeader(config, h)|;
    var args := s[n..];
    var k := ScanText(FreshScan, args).len;
    var rest := args[k..];
    TakenOnly(FreshScan, args, k);
    RestIsShorter(config, h, s, k);
    var called := out.AddCall(ToolCallDelta(index, Some(NameIn(config, h)), args[..k]));
    var closer := RestIsCloser(config, rest, index + 1, called);
    body := Body(h, args[..k], closer);
    assert s == SpellHeader(config, h) + (args[..k] + rest);
  }

  /** The header of a call that is read, and that its arguments close. */
  lemma HeaderOfCall(config: Config, s: string, index: nat, out: ToolParserOutput) returns (h: Header)
    requires ReadCall(config, s, index, out).Success?
    ensures |h.gaps| == 8 && ProperHeader(config, h)
    ensures var n := |SpellHeader(config, h)|;
            && n <= |s| && s[..n] == SpellHeader(config, h)
            && var scanned := ScanText(FreshScan, s[n..]);
               && scanned.Closed? && scanned.len <= |s[n..]|
               && var called := out.AddCall(ToolCallDelta(index, Some(NameIn(config, h)), s[n..][..scanned.len]));
                  ReadCall(config, s, index, out) == ReadCloser(config, s[n..][scanned.len..], index + 1, called)
  {
    hide NextEvent, ScanText, ReadText, SpellHeader, ProperHeader;
    h := AcceptedHeader(config, s);
    EightGaps(config, h);
  }

  lemma EightGaps(config: Config, h: Header)
    requires ProperHeader(config, h)
    ensures |h.gaps| == 8
  {
  }

  /** A scan closes at what it has taken. */
  lemma {:induction false} TakenOnly(scan: Scan, args: string, k: nat)
    requires ScanText(scan, args) == Closed(k)
    ensures k <= |args| && ScanText(scan, args[..k]) == Closed(k)
    decreases |args|
  {
    hide ScanUnit;
    if k > 1 {
      var next := ScanUnit(scan, args[0]).next;
      TakenOnly(next, args[1..], k - 1);
      assert args[..k][1..] == args[1..][..k - 1];
    }
  }

  lemma RestIsShorter(config: Config, h: Header, s: string, k: nat)
    requires |h.gaps| == 8 && |SpellHeader(config, h)| + k <= |s|
    ensures |s[|SpellHeader(config, h)|..][k..]| < |s|
  {
    HeaderStarts(config, h);
  }

  lemma {:induction false} RestIsCloser(config: Config, s: string, index: nat, out: ToolParserOutput)
    returns (closer: Closer)
    requires Tagged(config) && ReadCloser(config, s, index, out).Success?
    ensures ProperCloser(config, closer) && s == "}" + SpellCloser(config, closer)
    decreases |s|, 1
  {
    hide NextEvent, ReadText, ReadCall, ProperTree, ProperBody, SpellTree, SpellBody, Visible, GR.Gap;
    CloserIsSpelled(config, s);
    var next := NextEvent(config, s, ArgumentsMode(ClosedScan));
    var rest := s[next.consumed..];
    if next.event.CallEnd? {
      var gap :| MarkerGap(config, gap) && s == "}" + (gap + config.endMarker + rest);
      var tree := TextIsTree(config, rest, index, out);
      closer := Closer.Close(gap, tree);
    } else {
      var gap, more :| GR.Gap(gap) && GR.Gap(more) && s == "}" + (gap + config.delimiter.value + more + rest);
      var body := CallIsBody(config, rest, index, out);
      HeaderOfBody(config, body);
      FirstGapIsEmpty(config, body.header, rest);
      closer := Also(gap, more, body);
    }
  }

  lemma HeaderOfBody(config: Config, body: Body)
    requires ProperBody(config, body)
    ensures ProperHeader(config, body.header)
  {
  }

  // -------- The theorem --------

  /**
   Whatever the chunks: a text is accepted exactly if it is written as text, blocks and calls, and
   what is read is what it is written of.
   */
  lemma LanguageIsExact(config: Config, chunks: seq<string>)
    requires Tagged(config)
    ensures ParseChunks(config, chunks).Success? <==>
            exists tree: Tree :: ProperTree(config, tree) && SpellTree(config, tree) == Concat(chunks)
    ensures forall tree: Tree :: ProperTree(config, tree) && SpellTree(config, tree) == Concat(chunks) ==>
              ParseChunks(config, chunks) == Success(TreeSays(config, tree, 0, NoOutput))
  {
    hide ReadText, ParseChunks, ProperTree, SpellTree, TreeSays;
    ParseChunksReadsWhole(config, chunks);
    if ParseChunks(config, chunks).Success? {
      var tree := TextIsTree(config, Concat(chunks), 0, NoOutput);
    }
    forall tree: Tree | ProperTree(config, tree) && SpellTree(config, tree) == Concat(chunks)
      ensures ParseChunks(config, chunks) == Success(TreeSays(config, tree, 0, NoOutput)) {
      TreeIsRead(config, tree, 0, NoOutput);
    }
  }

  /** What is not accepted is bad where a push fails, and unfinished where every push succeeds. */
  lemma ErrorsAreExact(config: Config, chunks: seq<string>)
    requires config.WellFormed() && ParseChunks(config, chunks).Failure?
    ensures var error := ParseChunks(config, chunks).error;
            error == if PushAll(config, InitialState, chunks, NoOutput).Failure? then BadSyntax else UnfinishedCall
  {
    PushesFailBadly(config, InitialState, chunks, NoOutput);
  }

  lemma {:induction false} PushesFailBadly(config: Config, st: State, chunks: seq<string>, out: ToolParserOutput)
    requires st.Valid()
    ensures PushAll(config, st, chunks, out).Failure? ==> PushAll(config, st, chunks, out) == Failure(BadSyntax)
    decreases |chunks|
  {
    hide Drain;
    if chunks != [] {
      var begun := st.Extend(chunks[0]);
      DrainFailsBadly(config, begun, out);
      DrainKeepsValid(config, begun, out);
      var pushed := Drain(config, begun, out);
      if pushed.Success? {
        PushesFailBadly(config, pushed.value.0, chunks[1..], pushed.value.1);
      }
    }
  }

  lemma {:induction false} DrainFailsBadly(config: Config, st: State, out: ToolParserOutput)
    requires st.Valid()
    ensures Drain(config, st, out).Failure? ==> Drain(config, st, out) == Failure(BadSyntax)
    decreases |st.buffer|
  {
    hide NextEvent;
    var next := NextEvent(config, st.buffer, st.mode);
    if next.Ready? {
      EventKeepsValid(config, st, out);
      var applied := Apply(st, out, next.event, next.consumed).value;
      DrainFailsBadly(config, applied.0.Skip(next.consumed), applied.1);
    }
  }

  lemma FormatsAreTagged(decode: Decoder)
    ensures Tagged(HermesConfig(decode)) && Tagged(QwenConfig(decode))
  {
  }
}
