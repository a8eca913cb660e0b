/**
 Text as the proxy sees it. A `string` in this project is a sequence of UTF-8
 code units, one `char` per unit, so lengths and indices are byte lengths and
 byte indices as in the Rust source. Every result holds for all sequences of
 units, well-formed or not, unless it asks for `CharAligned` text.
 */
module Text {
  import opened Wrappers

  /** The markers around a tool call, the same in every format. */
  const TOOL_CALL_START := "<tool_call>"
  const TOOL_CALL_END := "</tool_call>"

  /** `p` is found in `s` at index `i`. */
  predicate Occurs(s: string, p: string, i: int) {
    0 <= i && i + |p| <= |s| && s[i..i + |p|] == p
  }

  /** `str::find`: the first index at or after `from` where `p` occurs. */
  function FindFrom(s: string, p: string, from: nat): (r: Option<nat>)
    requires from <= |s|
    ensures r.Some? ==> from <= r.value && Occurs(s, p, r.value)
    ensures r.Some? ==> forall i :: from <= i < r.value ==> !Occurs(s, p, i)
    ensures r.None? ==> forall i :: from <= i ==> !Occurs(s, p, i)
    decreases |s| - from
  {
    if Occurs(s, p, from) then Some(from)
    else if from == |s| then None
    else FindFrom(s, p, from + 1)
  }

  function Find(s: string, p: string): (r: Option<nat>)
    ensures r.Some? ==> Occurs(s, p, r.value)
    ensures r.Some? ==> forall i :: 0 <= i < r.value ==> !Occurs(s, p, i)
    ensures r.None? ==> forall i :: !Occurs(s, p, i)
  {
    FindFrom(s, p, 0)
  }

  lemma FindIsFirst(s: string, p: string, i: nat)
    requires Occurs(s, p, i)
    requires forall j :: 0 <= j < i ==> !Occurs(s, p, j)
    ensures Find(s, p) == Some(i)
  {
  }

  lemma OccursInPrefix(s: string, x: string, p: string, i: int)
    requires i + |p| <= |s|
    ensures Occurs(s + x, p, i) <==> Occurs(s, p, i)
  {
    if 0 <= i {
      assert (s + x)[i..i + |p|] == s[i..i + |p|];
    }
  }

  lemma OccursInSuffix(a: string, s: string, p: string, i: int)
    requires 0 <= i
    ensures Occurs(a + s, p, |a| + i) <==> Occurs(s, p, i)
  {
    if i + |p| <= |s| {
      assert (a + s)[|a| + i..|a| + i + |p|] == s[i..i + |p|];
    }
  }

  /** The first occurrence found in a prefix is the first one in every extension. */
  lemma FindExtends(s: string, x: string, p: string)
    requires Find(s, p).Some?
    ensures Find(s + x, p) == Find(s, p)
  {
    var i := Find(s, p).value;
    OccursInPrefix(s, x, p, i);
    forall j | 0 <= j < i ensures !Occurs(s + x, p, j) {
      OccursInPrefix(s, x, p, j);
    }
    FindIsFirst(s + x, p, i);
  }

  /** Text in which nothing starts can be skipped before searching. */
  lemma FindAfter(a: string, s: string, p: string)
    requires forall j :: 0 <= j < |a| ==> !Occurs(a + s, p, j)
    ensures Find(a + s, p) == match Find(s, p) case None => None case Some(i) => Some(|a| + i)
  {
    hide FindFrom;
    match Find(s, p) {
      case None =>
        forall j ensures !Occurs(a + s, p, j) {
          if |a| <= j {
            OccursInSuffix(a, s, p, j - |a|);
          }
        }
      case Some(i) =>
        OccursInSuffix(a, s, p, i);
        forall j | 0 <= j < |a| + i ensures !Occurs(a + s, p, j) {
          if |a| <= j {
            OccursInSuffix(a, s, p, j - |a|);
          }
        }
        FindIsFirst(a + s, p, |a| + i);
    }
  }

  /** A UTF-8 continuation unit; a character never starts at one. */
  predicate Continuation(c: char) {
    0x80 <= c as int < 0xC0
  }

  /** `str::is_char_boundary`. */
  predicate CharBoundary(s: string, i: nat) {
    i == 0 || i == |s| || (i < |s| && !Continuation(s[i]))
  }

  /** Text that starts at a character, as every `&str` does. */
  predicate CharAligned(s: string) {
    s == "" || !Continuation(s[0])
  }

  predicate Ascii(s: string) {
    forall i :: 0 <= i < |s| ==> s[i] as int < 0x80
  }

  /** The units winnow's `multispace0` skips. */
  predicate AsciiSpace(c: char) {
    c == ' ' || c == '\t' || c == '\r' || c == '\n'
  }

  function SkipSpace(s: string, at: nat): (r: nat)
    requires at <= |s|
    ensures at <= r <= |s|
    ensures forall i :: at <= i < r ==> AsciiSpace(s[i])
    ensures r < |s| ==> !AsciiSpace(s[r])
    decreases |s| - at
  {
    if at < |s| && AsciiSpace(s[at]) then SkipSpace(s, at + 1) else at
  }

  lemma SkipSpaceIs(s: string, at: nat, r: nat)
    requires at <= r <= |s|
    requires forall i :: at <= i < r ==> AsciiSpace(s[i])
    requires r < |s| ==> !AsciiSpace(s[r])
    ensures SkipSpace(s, at) == r
    decreases r - at
  {
    if at < r {
      SkipSpaceIs(s, at + 1, r);
    }
  }

  /** Length of the `char::is_whitespace` character encoded at `i`, or 0 if there is none. */
  function SpaceLen(s: string, i: nat): (n: nat)
    ensures i + n <= |s| || n == 0
  {
    if |s| <= i then 0
    else
      var c := s[i] as int;
      if 0x09 <= c <= 0x0D || c == 0x20 then 1
      else if |s| < i + 2 then 0
      else
        var d := s[i + 1] as int;
        if c == 0xC2 && (d == 0x85 || d == 0xA0) then 2
        else if |s| < i + 3 then 0
        else
          var e := s[i + 2] as int;
          if || (c == 0xE1 && d == 0x9A && e == 0x80)
             || (c == 0xE2 && d == 0x80 && (0x80 <= e <= 0x8A || e == 0xA8 || e == 0xA9 || e == 0xAF))
             || (c == 0xE2 && d == 0x81 && e == 0x9F)
             || (c == 0xE3 && d == 0x80 && e == 0x80)
          then 3
          else 0
  }

  /** Unit `i` belongs to a whitespace character. */
  predicate InSpace(s: string, i: nat) {
    0 < SpaceLen(s, i) || (1 <= i && 1 < SpaceLen(s, i - 1)) || (2 <= i && 2 < SpaceLen(s, i - 2))
  }

  /** `str::trim` leaves nothing. */
  predicate Blank(s: string)
    decreases |s|
  {
    s == "" || (0 < SpaceLen(s, 0) && Blank(s[SpaceLen(s, 0)..]))
  }

  /** Unit `n + i` of a text is unit `i` of what follows its first `n` units. */
  lemma SpaceLenShift(s: string, n: nat, i: nat)
    requires n <= |s|
    ensures SpaceLen(s[n..], i) == SpaceLen(s, n + i)
  {
  }

  /** Behind a white space character, units belong to white space as they do on their own. */
  lemma InSpaceShift(s: string, i: nat)
    requires 0 < SpaceLen(s, 0)
    ensures InSpace(s[SpaceLen(s, 0)..], i) <==> InSpace(s, SpaceLen(s, 0) + i)
  {
    var n := SpaceLen(s, 0);
    SpaceLenShift(s, n, i);
    if 1 <= i {
      SpaceLenShift(s, n, i - 1);
    }
    if 2 <= i {
      SpaceLenShift(s, n, i - 2);
    }
  }

  /** Trimming leaves nothing exactly when every unit belongs to a white space character. */
  lemma {:induction false} BlankMeaning(s: string)
    ensures Blank(s) <==> forall i :: 0 <= i < |s| ==> InSpace(s, i)
    decreases |s|
  {
    hide SpaceLen, InSpace;
    var n := SpaceLen(s, 0);
    if s == "" {
    } else if n == 0 {
      FirstInSpace(s);
    } else {
      InFirstSpace(s);
      BlankMeaning(s[n..]);
      forall i | 0 <= i < |s| - n ensures InSpace(s[n..], i) <==> InSpace(s, n + i) {
        InSpaceShift(s, i);
      }
      if Blank(s) {
        forall i | 0 <= i < |s| ensures InSpace(s, i) {
          if n <= i {
            assert InSpace(s[n..], i - n) && i == n + (i - n);
          }
        }
      }
    }
  }

  lemma FirstInSpace(s: string)
    ensures InSpace(s, 0) <==> 0 < SpaceLen(s, 0)
  {
  }

  lemma InFirstSpace(s: string)
    ensures forall i :: 0 <= i < SpaceLen(s, 0) ==> InSpace(s, i)
  {
  }

  function TrimStart(s: string): string
    decreases |s|
  {
    if 0 < SpaceLen(s, 0) then TrimStart(s[SpaceLen(s, 0)..]) else s
  }

  function TrimEnd(s: string): string
    decreases |s|
  {
    if 1 <= |s| && SpaceLen(s, |s| - 1) == 1 then TrimEnd(s[..|s| - 1])
    else if 2 <= |s| && SpaceLen(s, |s| - 2) == 2 then TrimEnd(s[..|s| - 2])
    else if 3 <= |s| && SpaceLen(s, |s| - 3) == 3 then TrimEnd(s[..|s| - 3])
    else s
  }

  /** `str::trim`. */
  function Trim(s: string): string {
    TrimEnd(TrimStart(s))
  }

  function Concat(pieces: seq<string>): string {
    if pieces == [] then "" else pieces[0] + Concat(pieces[1..])
  }

  lemma ConcatStep(pieces: seq<string>)
    ensures pieces != [] ==> Concat(pieces) == pieces[0] + Concat(pieces[1..])
    ensures pieces == [] ==> Concat(pieces) == ""
  {
  }

  lemma {:induction false} ConcatAppend(a: seq<string>, b: seq<string>)
    ensures Concat(a + b) == Concat(a) + Concat(b)
  {
    hide Concat;
    ConcatStep(a);
    if a == [] {
      assert a + b == b;
      assert "" + Concat(b) == Concat(b);
    } else {
      ConcatAppend(a[1..], b);
      ConcatStep(a + b);
      assert (a + b)[0] == a[0] && (a + b)[1..] == a[1..] + b;
      assert a[0] + (Concat(a[1..]) + Concat(b)) == a[0] + Concat(a[1..]) + Concat(b);
    }
  }
}
