/** Lexical helpers of the tool parsers (src/vllm_tool_parser/utils.rs). */
module Lexing {
  import opened Text

  // -------- Holding back a possible marker --------

  /** The last `k` units of `buffer` are the first `k` of `token`, cut at character boundaries. */
  predicate Held(buffer: string, token: string, k: nat) {
    && k <= |buffer| && k <= |token|
    && token[..k] == buffer[|buffer| - k..]
    && CharBoundary(buffer, |buffer| - k)
    && CharBoundary(token, k)
  }

  function LongestHeld(buffer: string, token: string, most: nat): (k: nat)
    requires most <= |buffer| && most <= |token|
    ensures k <= most && Held(buffer, token, k)
    ensures forall j :: k < j <= most ==> !Held(buffer, token, j)
  {
    if most == 0 || Held(buffer, token, most) then most else LongestHeld(buffer, token, most - 1)
  }

  function PartialPrefixLen(buffer: string, token: string): (k: nat)
    ensures Held(buffer, token, k)
    ensures token != "" ==> k < |token|
    ensures forall j :: k < j < |token| ==> !Held(buffer, token, j)
  {
    if token == "" then 0
    else LongestHeld(buffer, token, if |buffer| <= |token| - 1 then |buffer| else |token| - 1)
  }

  lemma PartialPrefixLenIs(buffer: string, token: string, k: nat)
    requires k < |token| && Held(buffer, token, k)
    requires forall j :: k < j < |token| ==> !Held(buffer, token, j)
    ensures PartialPrefixLen(buffer, token) == k
  {
  }

  /** `partial_prefix_len`: scan from the longest candidate suffix to the shortest. */
  method FindPartialPrefixLen(buffer: string, token: string) returns (len: nat)
    requires CharAligned(token)
    ensures len == PartialPrefixLen(buffer, token)
  {
    if token == "" {
      return 0;
    }
    var maxLen := if |buffer| <= |token| - 1 then |buffer| else |token| - 1;
    var index := |buffer| - maxLen;
    while index < |buffer|
      invariant |buffer| - maxLen <= index <= |buffer|
      invariant forall j :: |buffer| - index < j < |token| ==> !Held(buffer, token, j)
    {
      if buffer[index] == token[0] {
        len := |buffer| - index;
        if CharBoundary(buffer, index) && CharBoundary(token, len) && token[..len] == buffer[index..] {
          PartialPrefixLenIs(buffer, token, len);
          return;
        }
      }
      assert !Held(buffer, token, |buffer| - index);
      index := index + 1;
    }
    PartialPrefixLenIs(buffer, token, 0);
    return 0;
  }

  /** How much text `safe_text_len` releases; 0 stands for its "incomplete" answer too. */
  function SafeTextLen(text: string, marker: string): (n: nat)
    ensures n <= |text|
  {
    match Find(text, marker)
    case Some(i) => i
    case None => |text| - PartialPrefixLen(text, marker)
  }

  /** A marker that starts in `text` and ends in what follows is held back. */
  lemma StraddlingIsHeld(text: string, marker: string, more: string, i: nat)
    requires marker != "" && !Continuation(marker[0]) && CharAligned(more)
    requires i < |text| < i + |marker| && Occurs(text + more, marker, i)
    ensures Held(text, marker, |text| - i)
  {
    var k := |text| - i;
    assert (text + more)[i..i + |marker|][..k] == text[i..];
    assert marker[0] == text[i];
    assert marker[k] == more[0];
  }

  /** No marker ever starts inside released text, however the text goes on. */
  lemma SafeTextIsSafe(text: string, marker: string, more: string, i: nat)
    requires marker != "" && !Continuation(marker[0]) && CharAligned(more)
    requires i < SafeTextLen(text, marker)
    ensures !Occurs(text + more, marker, i)
  {
    if i + |marker| <= |text| {
      OccursInPrefix(text, more, marker, i);
    } else if Occurs(text + more, marker, i) {
      StraddlingIsHeld(text, marker, more, i);
    }
  }

  /** The text may go on, from a character boundary, so that a marker starts right where released text ends. */
  lemma SafeTextIsMost(text: string, marker: string) returns (rest: string)
    requires marker != "" && CharAligned(marker) && Find(text, marker).None?
    ensures CharAligned(rest) && Occurs(text + rest, marker, SafeTextLen(text, marker))
  {
    hide Find, FindFrom, PartialPrefixLen;
    var k := PartialPrefixLen(text, marker);
    rest := marker[k..];
    assert Held(text, marker, k);
    assert CharBoundary(marker, k) && text[|text| - k..] == marker[..k];
    hide Held;
    assert rest == "" || rest[0] == marker[k];
    var released := text[..|text| - k];
    assert released + text[|text| - k..] == text;
    assert text + rest == released + marker;
    assert (released + marker)[|released|..|released| + |marker|] == marker;
  }

  lemma HeldInSuffix(a: string, s: string, marker: string, k: nat)
    requires marker != "" && Ascii(marker) && k <= |s| && k < |marker|
    ensures Held(a + s, marker, k) <==> Held(s, marker, k)
  {
    assert (a + s)[|a + s| - k..] == s[|s| - k..];
    if k > 0 && marker[..k] == s[|s| - k..] {
      assert s[|s| - k] == marker[0];
    }
  }

  lemma HeldBefore(s: string, more: string, marker: string, k: nat)
    requires marker != "" && Ascii(marker) && |more| < k < |marker|
    requires Held(s + more, marker, k)
    ensures Held(s, marker, k - |more|)
  {
    var j := k - |more|;
    assert (s + more)[|s + more| - k..][..j] == s[|s| - j..];
    assert marker[..k][..j] == marker[..j];
    assert s[|s| - j] == marker[..j][0];
  }

  /** With no marker in sight, holding text back over several arrivals equals holding back once. */
  lemma HeldBackAgain(text: string, more: string, marker: string)
    requires marker != "" && Ascii(marker)
    requires Find(text, marker).None?
    ensures var kept := text[SafeTextLen(text, marker)..];
            PartialPrefixLen(kept + more, marker) == PartialPrefixLen(text + more, marker)
  {
    var e := SafeTextLen(text, marker);
    var kept := text[e..];
    assert text + more == text[..e] + (kept + more);
    var k := PartialPrefixLen(text + more, marker);
    if |kept + more| < k {
      HeldBefore(text, more, marker, k);
    }
    assert k <= |kept + more|;
    forall j | k <= j < |marker| && j <= |kept + more|
      ensures Held(kept + more, marker, j) <==> Held(text + more, marker, j)
    {
      HeldInSuffix(text[..e], kept + more, marker, j);
    }
    PartialPrefixLenIs(kept + more, marker, k);
  }

  // -------- Scanning one JSON object --------

  datatype ScanPhase = Initial | Scanning | Complete

  datatype Scan = Scan(objectDepth: nat, arrayDepth: nat, inString: bool, escape: bool, phase: ScanPhase)

  const FreshScan := Scan(0, 0, false, false, Initial)
  const ClosedScan := Scan(0, 0, false, false, Complete)

  datatype UnitScan = Continue(next: Scan) | Close | Broken

  /** The effect of one unit on a scan that is not complete. */
  function ScanUnit(scan: Scan, c: char): UnitScan {
    if scan.phase == Initial then
      if c == '{' then Continue(Scan(1, scan.arrayDepth, scan.inString, scan.escape, Scanning)) else Broken
    else if scan.inString then
      if scan.escape then Continue(scan.(escape := false))
      else if c == '\\' then Continue(scan.(escape := true))
      else if c == '"' then Continue(scan.(inString := false))
      else Continue(scan)
    else if c == '"' then Continue(scan.(inString := true))
    else if c == '{' then Continue(scan.(objectDepth := scan.objectDepth + 1))
    else if c == '}' then
      if scan.objectDepth == 0 then Broken
      else if scan.objectDepth == 1 && scan.arrayDepth == 0 then Close
      else if scan.objectDepth == 1 then Broken
      else Continue(scan.(objectDepth := scan.objectDepth - 1))
    else if c == '[' then Continue(scan.(arrayDepth := scan.arrayDepth + 1))
    else if c == ']' then
      if scan.arrayDepth == 0 then Broken else Continue(scan.(arrayDepth := scan.arrayDepth - 1))
    else Continue(scan)
  }

  datatype TextScan = Closed(len: nat) | Open(scan: Scan) | Failed

  /** Scanning a whole fragment: where the object closes, or how the scan stands at its end. */
  function ScanText(scan: Scan, text: string): (r: TextScan)
    ensures r.Closed? ==> 0 < r.len <= |text|
    decreases |text|
  {
    if text == "" then Open(scan)
    else match ScanUnit(scan, text[0])
      case Broken => Failed
      case Close => Closed(1)
      case Continue(next) =>
        match ScanText(next, text[1..])
        case Closed(n) => Closed(n + 1)
        case other => other
  }

  /** Input split at any point scans like the whole input. */
  lemma {:induction false} ScanTextSplit(scan: Scan, a: string, b: string)
    ensures ScanText(scan, a + b) ==
            match ScanText(scan, a)
            case Open(mid) => (match ScanText(mid, b) case Closed(n) => Closed(|a| + n) case other => other)
            case other => other
    decreases |a|
  {
    if a == "" {
      assert a + b == b;
    } else {
      assert (a + b)[1..] == a[1..] + b;
      match ScanUnit(scan, a[0]) {
        case Continue(next) => ScanTextSplit(next, a[1..], b);
        case _ =>
      }
    }
  }

  /** A scan begun at a brace ends with a complete object or is still open. */
  predicate Sound(scan: Scan) {
    && (scan.phase == Scanning <==> 0 < scan.objectDepth)
    && (scan.phase != Scanning ==> scan.arrayDepth == 0 && !scan.inString)
    && (scan.escape ==> scan.inString)
  }

  lemma ScanTextSound(scan: Scan, text: string)
    requires Sound(scan) && scan.phase != Complete
    ensures ScanText(scan, text).Open? ==>
              && Sound(ScanText(scan, text).scan)
              && ScanText(scan, text).scan.phase != Complete
              && (text != "" ==> ScanText(scan, text).scan.phase == Scanning)
    decreases |text|
  {
    if text != "" && ScanUnit(scan, text[0]).Continue? {
      ScanTextSound(ScanUnit(scan, text[0]).next, text[1..]);
    }
  }

  datatype Taken = Take(len: nat, scan: Scan) | NeedMore | Reject

  /** What `take_json_object` answers, in terms of the scan of the whole text. */
  function TakeObject(text: string, scan: Scan): (r: Taken)
    ensures r.Take? ==> 0 < r.len <= |text|
  {
    if text == "" then NeedMore
    else if scan.phase == Complete then Reject
    else match ScanText(scan, text)
      case Closed(n) => Take(n, ClosedScan)
      case Open(next) => Take(|text|, next)
      case Failed => Reject
  }

  /** What the next unit does to a scan that is open so far. */
  lemma ScanStep(start: Scan, text: string, index: nat, scan: Scan)
    requires index < |text| && ScanText(start, text[..index]) == Open(scan)
    ensures var unit := ScanUnit(scan, text[index]);
            && (unit.Continue? ==> ScanText(start, text[..index + 1]) == Open(unit.next))
            && (unit.Close? ==> ScanText(start, text) == Closed(index + 1))
            && (unit.Broken? ==> ScanText(start, text) == Failed)
  {
    hide ScanUnit;
    ScanTextSplit(start, text[..index], text[index..]);
    assert text[..index] + text[index..] == text;
    ScanTextSplit(start, text[..index], [text[index]]);
    assert text[..index + 1] == text[..index] + [text[index]];
  }

  /** `take_json_object`: the unit-by-unit loop over the scan state. */
  method TakeJsonObject(text: string, start: Scan) returns (r: Taken)
    requires Sound(start)
    ensures r == TakeObject(text, start)
  {
    if text == "" {
      return NeedMore;
    }
    if start.phase == Complete {
      return Reject;
    }
    var scan := start;
    var index := 0;
    assert ScanText(start, text[..0]) == Open(start);
    hide ScanText;
    if start.phase == Initial {
      if text[0] != '{' {
        return Reject;
      }
      scan := scan.(phase := Scanning, objectDepth := 1);
      index := 1;
      ScanStep(start, text, 0, start);
    }
    while index < |text|
      invariant index <= |text|
      invariant scan.phase == Scanning && Sound(scan)
      invariant ScanText(start, text[..index]) == Open(scan)
    {
      var c := text[index];
      ScanStep(start, text, index, scan);
      index := index + 1;
      if scan.inString {
        if scan.escape {
          scan := scan.(escape := false);
        } else if c == '\\' {
          scan := scan.(escape := true);
        } else if c == '"' {
          scan := scan.(inString := false);
        }
      } else if c == '"' {
        scan := scan.(inString := true);
      } else if c == '{' {
        scan := scan.(objectDepth := scan.objectDepth + 1);
      } else if c == '}' {
        if scan.objectDepth == 0 {
          return Reject;
        }
        scan := scan.(objectDepth := scan.objectDepth - 1);
        if scan.objectDepth == 0 && scan.arrayDepth == 0 {
          return Take(index, scan.(phase := Complete));
        }
        if scan.objectDepth == 0 {
          return Reject;
        }
      } else if c == '[' {
        scan := scan.(arrayDepth := scan.arrayDepth + 1);
      } else if c == ']' {
        if scan.arrayDepth == 0 {
          return Reject;
        }
        scan := scan.(arrayDepth := scan.arrayDepth - 1);
      }
    }
    assert text[..index] == text;
    return Take(|text|, scan);
  }
}
