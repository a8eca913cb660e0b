/** White space on code units is Unicode white space on characters (`char::is_whitespace`, `str::trim`). */
module WhiteSpace {
  import opened Text

  /** A Unicode scalar value. */
  predicate Scalar(c: int) {
    0 <= c < 0xD800 || 0xE000 <= c <= 0x10FFFF
  }

  /** The White_Space property of the Unicode Character Database. */
  predicate White(c: int) {
    || 0x09 <= c <= 0x0D || c == 0x20 || c == 0x85 || c == 0xA0 || c == 0x1680
    || 0x2000 <= c <= 0x200A || c == 0x2028 || c == 0x2029 || c == 0x202F || c == 0x205F || c == 0x3000
  }

  /** A character in UTF-8 (section 3 of RFC 3629). */
  function Utf8(c: int): (s: string)
    requires Scalar(c)
    ensures 1 <= |s| <= 4
  {
    if c < 0x80 then [c as char]
    else if c < 0x800 then [(0xC0 + c / 64) as char, (0x80 + c % 64) as char]
    else if c < 0x10000 then
      [(0xE0 + c / 4096) as char, (0x80 + c / 64 % 64) as char, (0x80 + c % 64) as char]
    else
      [(0xF0 + c / 262144) as char, (0x80 + c / 4096 % 64) as char, (0x80 + c / 64 % 64) as char,
       (0x80 + c % 64) as char]
  }

  function Encoded(cs: seq<int>): string
    requires forall c <- cs :: Scalar(c)
  {
    if cs == [] then "" else Utf8(cs[0]) + Encoded(cs[1..])
  }

  /** A white space character is one of that property, whole. */
  lemma SpaceIsWhite(c: int, rest: string)
    requires Scalar(c)
    ensures SpaceLen(Utf8(c) + rest, 0) == if White(c) then |Utf8(c)| else 0
  {
    var s, t := Utf8(c) + rest, Utf8(c);
    assert forall i :: 0 <= i < |t| ==> s[i] == t[i];
  }

  /** Seen from the end, it is found where the character starts and nowhere in it. */
  lemma LastIsWhite(before: string, c: int)
    requires Scalar(c)
    ensures var s := before + Utf8(c);
            && (SpaceLen(s, |s| - 1) == 1 <==> White(c) && |Utf8(c)| == 1)
            && (2 <= |s| && SpaceLen(s, |s| - 2) == 2 <==> White(c) && |Utf8(c)| == 2)
            && (3 <= |s| && SpaceLen(s, |s| - 3) == 3 <==> White(c) && |Utf8(c)| == 3)
  {
    var s, t := before + Utf8(c), Utf8(c);
    assert forall i :: 0 <= i < |t| ==> s[|before| + i] == t[i];
  }

  // -------- Trimming --------

  function WithoutFront(cs: seq<int>): seq<int> {
    if cs != [] && White(cs[0]) then WithoutFront(cs[1..]) else cs
  }

  function WithoutBack(cs: seq<int>): seq<int> {
    if cs != [] && White(cs[|cs| - 1]) then WithoutBack(cs[..|cs| - 1]) else cs
  }

  lemma {:induction false} FrontIsTrimmed(cs: seq<int>)
    requires forall c <- cs :: Scalar(c)
    ensures forall c <- WithoutFront(cs) :: Scalar(c)
    ensures TrimStart(Encoded(cs)) == Encoded(WithoutFront(cs))
  {
    hide SpaceLen, Utf8;
    if cs != [] {
      SpaceIsWhite(cs[0], Encoded(cs[1..]));
      assert Encoded(cs)[|Utf8(cs[0])|..] == Encoded(cs[1..]);
      FrontIsTrimmed(cs[1..]);
    } else {
      NothingIsSpace();
    }
  }

  lemma NothingIsSpace()
    ensures SpaceLen("", 0) == 0
  {
  }

  lemma EncodedStep(cs: seq<int>)
    requires forall c <- cs :: Scalar(c)
    ensures cs == [] ==> Encoded(cs) == ""
    ensures cs != [] ==> Encoded(cs) == Utf8(cs[0]) + Encoded(cs[1..])
  {
  }

  lemma {:induction false} EncodedSnoc(cs: seq<int>)
    requires cs != [] && forall c <- cs :: Scalar(c)
    ensures Encoded(cs) == Encoded(cs[..|cs| - 1]) + Utf8(cs[|cs| - 1])
  {
    hide Utf8, Encoded;
    var init, rest := cs[..|cs| - 1], cs[1..];
    EncodedStep(cs);
    EncodedStep(init);
    if |cs| == 1 {
      EncodedStep(rest);
      assert Utf8(cs[0]) + "" == "" + Utf8(cs[0]);
    } else {
      EncodedSnoc(rest);
      var middle := rest[..|rest| - 1];
      assert init[1..] == middle && init[0] == cs[0];
      assert Utf8(cs[0]) + (Encoded(middle) + Utf8(cs[|cs| - 1])) == Utf8(cs[0]) + Encoded(middle) + Utf8(cs[|cs| - 1]);
    }
  }

  lemma {:induction false} BackIsTrimmed(cs: seq<int>)
    requires forall c <- cs :: Scalar(c)
    ensures forall c <- WithoutBack(cs) :: Scalar(c)
    ensures TrimEnd(Encoded(cs)) == Encoded(WithoutBack(cs))
    decreases |cs|
  {
    hide SpaceLen, Utf8, White, Encoded;
    EncodedStep(cs);
    if cs != [] {
      var init, c := cs[..|cs| - 1], cs[|cs| - 1];
      EncodedSnoc(cs);
      CharIsTrimmed(Encoded(init), c);
      BackIsTrimmed(init);
    } else {
      assert TrimEnd("") == "";
    }
  }

  lemma CharIsTrimmed(before: string, c: int)
    requires Scalar(c)
    ensures TrimEnd(before + Utf8(c)) == if White(c) then TrimEnd(before) else before + Utf8(c)
  {
    hide SpaceLen, Utf8, White;
    LastIsWhite(before, c);
    var s := before + Utf8(c);
    assert s[..|s| - |Utf8(c)|] == before;
    if White(c) {
      WhiteIsShort(c);
    }
  }

  lemma WhiteIsShort(c: int)
    requires Scalar(c) && White(c)
    ensures |Utf8(c)| <= 3
  {
  }

  /** Trimming a text drops its leading and trailing white space characters and nothing else. */
  lemma TrimMeaning(cs: seq<int>)
    requires forall c <- cs :: Scalar(c)
    ensures forall c <- WithoutBack(WithoutFront(cs)) :: Scalar(c)
    ensures Trim(Encoded(cs)) == Encoded(WithoutBack(WithoutFront(cs)))
  {
    FrontIsTrimmed(cs);
    BackIsTrimmed(WithoutFront(cs));
  }

  lemma {:induction false} WithoutFrontIs(cs: seq<int>)
    ensures var front := WithoutFront(cs);
            |front| <= |cs| && front == cs[|cs| - |front|..] && (front != [] ==> !White(front[0]))
  {
    if cs != [] && White(cs[0]) {
      WithoutFrontIs(cs[1..]);
    }
  }

  lemma {:induction false} WithoutBackIs(cs: seq<int>)
    ensures var back := WithoutBack(cs); back <= cs && (back != [] ==> !White(back[|back| - 1]))
    decreases |cs|
  {
    if cs != [] && White(cs[|cs| - 1]) {
      WithoutBackIs(cs[..|cs| - 1]);
    }
  }

  /** Trimmed text is trimmed. */
  lemma TrimmedStays(cs: seq<int>)
    requires forall c <- cs :: Scalar(c)
    ensures Trim(Trim(Encoded(cs))) == Trim(Encoded(cs))
  {
    hide White, Utf8, TrimEnd, TrimStart;
    TrimMeaning(cs);
    var front := WithoutFront(cs);
    var back := WithoutBack(front);
    WithoutFrontIs(cs);
    WithoutBackIs(front);
    assert back != [] ==> back[0] == front[0];
    assert WithoutFront(back) == back && WithoutBack(back) == back;
    TrimMeaning(back);
  }

  lemma {:induction false} BlankIsWhite(cs: seq<int>)
    requires forall c <- cs :: Scalar(c)
    ensures Blank(Encoded(cs)) <==> WithoutFront(cs) == []
  {
    hide SpaceLen, Utf8;
    NothingIsSpace();
    if cs != [] {
      SpaceIsWhite(cs[0], Encoded(cs[1..]));
      assert Encoded(cs)[|Utf8(cs[0])|..] == Encoded(cs[1..]);
      BlankIsWhite(cs[1..]);
    }
  }

  /** Nothing is left of a text exactly if all of it is white space. */
  lemma TrimmedToNothing(cs: seq<int>)
    requires forall c <- cs :: Scalar(c)
    ensures Trim(Encoded(cs)) == "" <==> Blank(Encoded(cs))
  {
    hide White, Utf8, TrimEnd, TrimStart, Blank;
    TrimMeaning(cs);
    BlankIsWhite(cs);
    WithoutFrontIs(cs);
    FrontIsKept(WithoutFront(cs));
  }

  /** What starts with another character is not trimmed away from the end. */
  lemma {:induction false} FrontIsKept(cs: seq<int>)
    requires (forall c <- cs :: Scalar(c)) && (cs != [] ==> !White(cs[0]))
    ensures forall c <- WithoutBack(cs) :: Scalar(c)
    ensures Encoded(WithoutBack(cs)) == "" <==> cs == []
    decreases |cs|
  {
    hide White, Utf8;
    if cs != [] && White(cs[|cs| - 1]) {
      FrontIsKept(cs[..|cs| - 1]);
    }
  }
}
