/** What the argument scanner accepts: exactly one JSON object (sections 4 and 7 of RFC 8259). */
module JsonText {
  import opened Text
  import opened Lexing

  // -------- Where the scan stops --------

  datatype Quoting = Quoting(inString: bool, escape: bool)

  /** String and escape state after the first `n` units. */
  function QuotingAt(s: string, n: nat): Quoting
    requires n <= |s|
  {
    if n == 0 then Quoting(false, false)
    else
      var q, c := QuotingAt(s, n - 1), s[n - 1];
      if q.escape then Quoting(q.inString, false)
      else if q.inString then Quoting(c != '"', c == '\\')
      else Quoting(c == '"', false)
  }

  /** Units of kind `up` minus units of kind `down` outside strings, among the first `n`. */
  function Balance(s: string, n: nat, up: char, down: char): int
    requires n <= |s|
  {
    if n == 0 then 0
    else
      var q, c := QuotingAt(s, n - 1), s[n - 1];
      Balance(s, n - 1, up, down) + if q.inString then 0 else if c == up then 1 else if c == down then -1 else 0
  }

  function Braces(s: string, n: nat): int
    requires n <= |s|
  {
    Balance(s, n, '{', '}')
  }

  function Brackets(s: string, n: nat): int
    requires n <= |s|
  {
    Balance(s, n, '[', ']')
  }

  /** The object is open after each of the first `n` units. */
  ghost predicate OpenThrough(s: string, n: nat)
    requires n <= |s|
  {
    0 < n ==> s[0] == '{' && forall j :: 1 <= j <= n ==> 0 < Braces(s, j) && 0 <= Brackets(s, j)
  }

  /** The object, open until then, closes with unit `n`. */
  ghost predicate ClosesAt(s: string, n: nat) {
    1 < n <= |s| && OpenThrough(s, n - 1) && Braces(s, n) == 0 && Brackets(s, n) == 0
  }

  /** Unit `n` is the first that cannot belong to an object. */
  ghost predicate BreaksAt(s: string, n: nat) {
    0 < n <= |s| && OpenThrough(s, n - 1)
    && (if n == 1 then s[0] != '{' else Brackets(s, n) < 0 || (Braces(s, n) == 0 && Brackets(s, n) != 0))
  }

  function ScanAt(s: string, n: nat): Scan
    requires n <= |s| && (0 < n ==> 0 <= Braces(s, n) && 0 <= Brackets(s, n))
  {
    if n == 0 then FreshScan
    else Scan(Braces(s, n), Brackets(s, n), QuotingAt(s, n).inString, QuotingAt(s, n).escape, Scanning)
  }

  lemma {:induction false} QuotingSound(s: string, n: nat)
    requires n <= |s|
    ensures QuotingAt(s, n).escape ==> QuotingAt(s, n).inString
  {
    if n > 0 {
      QuotingSound(s, n - 1);
    }
  }

  lemma {:induction false} OpenScan(s: string, n: nat)
    requires n <= |s| && OpenThrough(s, n)
    ensures ScanText(FreshScan, s[..n]) == Open(ScanAt(s, n))
  {
    if n > 0 {
      OpenScan(s, n - 1);
      QuotingSound(s, n - 1);
      NextUnit(s, n);
      assert 0 < Braces(s, n) && 0 <= Brackets(s, n);
      UnitMoves(s, n);
    }
  }

  /** While the object stays open, one unit moves the scan as it moves the counts. */
  lemma UnitMoves(s: string, n: nat)
    requires 0 < n <= |s| && OpenThrough(s, n)
    requires QuotingAt(s, n - 1).escape ==> QuotingAt(s, n - 1).inString
    ensures ScanUnit(ScanAt(s, n - 1), s[n - 1]) == Continue(ScanAt(s, n))
  {
    assert n > 1 ==> 0 < Braces(s, n - 1) && 0 <= Brackets(s, n - 1);
    assert 0 < Braces(s, n) && 0 <= Brackets(s, n);
    if n == 1 {
      assert Balance(s, 0, '{', '}') == 0 && Balance(s, 0, '[', ']') == 0;
    }
  }

  /** The scan of one more unit, in terms of the scan so far. */
  lemma NextUnit(s: string, n: nat)
    requires 0 < n <= |s| && OpenThrough(s, n - 1)
    requires ScanText(FreshScan, s[..n - 1]) == Open(ScanAt(s, n - 1))
    ensures ScanText(FreshScan, s[..n]) ==
            match ScanUnit(ScanAt(s, n - 1), s[n - 1])
            case Continue(next) => Open(next)
            case Close => Closed(n)
            case Broken => Failed
  {
    ScanTextSplit(FreshScan, s[..n - 1], [s[n - 1]]);
    assert s[..n] == s[..n - 1] + [s[n - 1]];
  }

  lemma {:induction false} FirstStop(s: string, n: nat) returns (stop: nat)
    requires n <= |s| && !OpenThrough(s, n)
    ensures stop <= n && (ClosesAt(s, stop) || BreaksAt(s, stop))
  {
    if OpenThrough(s, n - 1) {
      stop := n;
      assert n > 1 ==> 0 < Braces(s, n - 1) && 0 <= Brackets(s, n - 1);
      assert Balance(s, 0, '{', '}') == 0 && Balance(s, 0, '[', ']') == 0;
    } else {
      stop := FirstStop(s, n - 1);
    }
  }

  lemma StopUnit(s: string, n: nat)
    requires ClosesAt(s, n) || BreaksAt(s, n)
    ensures ClosesAt(s, n) ==> ScanText(FreshScan, s[..n]) == Closed(n)
    ensures BreaksAt(s, n) ==> ScanText(FreshScan, s[..n]) == Failed
  {
    OpenScan(s, n - 1);
    QuotingSound(s, n - 1);
    NextUnit(s, n);
    hide ScanText;
  }

  lemma StopDecides(s: string, n: nat)
    requires ClosesAt(s, n) || BreaksAt(s, n)
    ensures ClosesAt(s, n) ==> ScanText(FreshScan, s) == Closed(n)
    ensures BreaksAt(s, n) ==> ScanText(FreshScan, s) == Failed
  {
    StopUnit(s, n);
    ScanTextSplit(FreshScan, s[..n], s[n..]);
    assert s == s[..n] + s[n..];
  }

  /**
   The scan takes text up to the first point outside strings where brace depth
   returns to zero, provided no bracket is open there; it fails where a bracket
   closes too often or is still open at that point, and otherwise goes on.
   */
  lemma ScanMeaning(s: string)
    ensures forall n :: ScanText(FreshScan, s) == Closed(n) <==> ClosesAt(s, n)
    ensures ScanText(FreshScan, s).Failed? <==> exists n :: BreaksAt(s, n)
    ensures ScanText(FreshScan, s).Open? <==> OpenThrough(s, |s|)
  {
    if OpenThrough(s, |s|) {
      OpenScan(s, |s|);
      assert s[..|s|] == s;
    } else {
      var _ := FirstStop(s, |s|);
    }
    forall n | ClosesAt(s, n) || BreaksAt(s, n)
      ensures ClosesAt(s, n) ==> ScanText(FreshScan, s) == Closed(n)
      ensures BreaksAt(s, n) ==> ScanText(FreshScan, s) == Failed
    {
      StopDecides(s, n);
    }
  }

  // -------- Printed objects --------

  /** A string body unit, or a backslash with the unit it escapes. */
  datatype StringUnit = Plain(c: char) | Escaped(c: char)

  /**
   JSON syntax trees with their white space. Every text of the RFC 8259 grammar
   is the print of one: numbers and the three literal names are scalars, and
   the digits after `\u` are plain units.
   */
  datatype Value =
    | Scalar(text: string)
    | Quoted(units: seq<StringUnit>)
    | Array(gap: string, items: seq<Item>)
    | Object(gap: string, members: seq<Member>)

  datatype Item = Item(before: string, value: Value, after: string)

  datatype Member = Member(before: string, key: seq<StringUnit>, colon: string, item: Item)

  predicate Quiet(text: string) {
    forall i :: 0 <= i < |text| ==> text[i] !in "\"{}[]"
  }

  predicate ValidUnits(units: seq<StringUnit>) {
    forall i :: 0 <= i < |units| ==> units[i].Plain? ==> units[i].c != '"' && units[i].c != '\\'
  }

  predicate ValidValue(v: Value) {
    match v
    case Scalar(text) => Quiet(text)
    case Quoted(units) => ValidUnits(units)
    case Array(gap, items) => Quiet(gap) && forall i :: 0 <= i < |items| ==> ValidItem(items[i])
    case Object(gap, members) => Quiet(gap) && forall i :: 0 <= i < |members| ==> ValidMember(members[i])
  }

  predicate ValidItem(item: Item) {
    Quiet(item.before) && ValidValue(item.value) && Quiet(item.after)
  }

  predicate ValidMember(m: Member) {
    Quiet(m.before) && ValidUnits(m.key) && Quiet(m.colon) && ValidItem(m.item)
  }

  function PrintUnits(units: seq<StringUnit>): string {
    if units == [] then ""
    else (match units[0] case Plain(c) => [c] case Escaped(c) => ['\\', c]) + PrintUnits(units[1..])
  }

  function PrintString(units: seq<StringUnit>): string {
    "\"" + PrintUnits(units) + "\""
  }

  function PrintValue(v: Value): string {
    match v
    case Scalar(text) => text
    case Quoted(units) => PrintString(units)
    case Array(gap, items) => "[" + (if items == [] then gap else PrintItems(items)) + "]"
    case Object(gap, members) => "{" + (if members == [] then gap else PrintMembers(members)) + "}"
  }

  function PrintItem(item: Item): string {
    item.before + PrintValue(item.value) + item.after
  }

  function PrintMember(m: Member): string {
    m.before + PrintString(m.key) + m.colon + ":" + PrintItem(m.item)
  }

  function PrintItems(items: seq<Item>): string
    requires items != []
  {
    if |items| == 1 then PrintItem(items[0]) else PrintItem(items[0]) + "," + PrintItems(items[1..])
  }

  function PrintMembers(members: seq<Member>): string
    requires members != []
  {
    if |members| == 1 then PrintMember(members[0]) else PrintMember(members[0]) + "," + PrintMembers(members[1..])
  }

  /** Inside an object and outside its strings. */
  predicate Inside(scan: Scan) {
    scan.phase == Scanning && 0 < scan.objectDepth && !scan.inString && !scan.escape
  }

  ghost predicate Neutral(scan: Scan, text: string) {
    ScanText(scan, text) == Open(scan)
  }

  lemma NeutralJoin(scan: Scan, a: string, b: string)
    requires Neutral(scan, a) && Neutral(scan, b)
    ensures Neutral(scan, a + b)
  {
    ScanTextSplit(scan, a, b);
  }

  lemma {:induction false} QuietIsNeutral(scan: Scan, text: string)
    requires Inside(scan) && Quiet(text)
    ensures Neutral(scan, text)
    decreases |text|
  {
    if text != "" {
      QuietIsNeutral(scan, text[1..]);
    }
  }

  lemma {:induction false} UnitsStayInString(scan: Scan, units: seq<StringUnit>)
    requires scan.phase == Scanning && scan.inString && !scan.escape && ValidUnits(units)
    ensures Neutral(scan, PrintUnits(units))
    decreases |units|
  {
    if units != [] {
      UnitsStayInString(scan, units[1..]);
      var head := match units[0] case Plain(c) => [c] case Escaped(c) => ['\\', c];
      if units[0].Escaped? {
        assert head[1..] == [units[0].c];
        assert ScanText(scan, head) == ScanText(scan.(escape := true), head[1..]);
      }
      NeutralJoin(scan, head, PrintUnits(units[1..]));
    }
  }

  /** Text wrapped in an opening and a closing unit. */
  lemma Wrapped(scan: Scan, inner: Scan, first: char, body: string, last: char)
    requires ScanUnit(scan, first) == Continue(inner)
    requires Neutral(inner, body)
    ensures ScanText(scan, [first] + body + [last]) ==
            match ScanUnit(inner, last)
            case Continue(next) => Open(next)
            case Close => Closed(|body| + 2)
            case Broken => Failed
  {
    assert ScanText(scan, [first]) == Open(inner);
    var enclosed := body + [last];
    ScanTextSplit(inner, body, [last]);
    ScanTextSplit(scan, [first], enclosed);
    assert [first] + body + [last] == [first] + enclosed;
  }

  lemma StringIsNeutral(scan: Scan, units: seq<StringUnit>)
    requires Inside(scan) && ValidUnits(units)
    ensures Neutral(scan, PrintString(units))
  {
    var inner := scan.(inString := true);
    UnitsStayInString(inner, units);
    Wrapped(scan, inner, '"', PrintUnits(units), '"');
  }

  lemma {:induction false} ValueIsNeutral(scan: Scan, v: Value)
    requires Inside(scan) && ValidValue(v)
    ensures Neutral(scan, PrintValue(v))
    decreases v, 1
  {
    match v {
      case Scalar(text) => QuietIsNeutral(scan, text);
      case Quoted(units) => StringIsNeutral(scan, units);
      case Array(gap, items) =>
        var inner := scan.(arrayDepth := scan.arrayDepth + 1);
        QuietIsNeutral(inner, gap);
        if items != [] {
          ItemsAreNeutral(inner, items);
        }
        Wrapped(scan, inner, '[', if items == [] then gap else PrintItems(items), ']');
      case Object(gap, members) =>
        var inner := scan.(objectDepth := scan.objectDepth + 1);
        ObjectBody(inner, v);
        Wrapped(scan, inner, '{', if members == [] then gap else PrintMembers(members), '}');
    }
  }

  lemma {:induction false} ObjectBody(inner: Scan, v: Value)
    requires Inside(inner) && ValidValue(v) && v.Object?
    ensures Neutral(inner, if v.members == [] then v.gap else PrintMembers(v.members))
    decreases v, 0
  {
    QuietIsNeutral(inner, v.gap);
    if v.members != [] {
      MembersAreNeutral(inner, v.members);
    }
  }

  lemma {:induction false} ItemIsNeutral(scan: Scan, item: Item)
    requires Inside(scan) && ValidItem(item)
    ensures Neutral(scan, PrintItem(item))
    decreases item
  {
    QuietIsNeutral(scan, item.before);
    ValueIsNeutral(scan, item.value);
    QuietIsNeutral(scan, item.after);
    NeutralJoin(scan, item.before, PrintValue(item.value));
    NeutralJoin(scan, item.before + PrintValue(item.value), item.after);
  }

  lemma {:induction false} ItemsAreNeutral(scan: Scan, items: seq<Item>)
    requires Inside(scan) && items != [] && forall i :: 0 <= i < |items| ==> ValidItem(items[i])
    ensures Neutral(scan, PrintItems(items))
    decreases items
  {
    ItemIsNeutral(scan, items[0]);
    if |items| > 1 {
      ItemsAreNeutral(scan, items[1..]);
      QuietIsNeutral(scan, ",");
      NeutralJoin(scan, PrintItem(items[0]), ",");
      NeutralJoin(scan, PrintItem(items[0]) + ",", PrintItems(items[1..]));
    }
  }

  lemma {:induction false} MemberIsNeutral(scan: Scan, m: Member)
    requires Inside(scan) && ValidMember(m)
    ensures Neutral(scan, PrintMember(m))
    decreases m
  {
    var key := PrintString(m.key);
    QuietIsNeutral(scan, m.before);
    StringIsNeutral(scan, m.key);
    QuietIsNeutral(scan, m.colon);
    QuietIsNeutral(scan, ":");
    ItemIsNeutral(scan, m.item);
    NeutralJoin(scan, m.before, key);
    NeutralJoin(scan, m.before + key, m.colon);
    NeutralJoin(scan, m.before + key + m.colon, ":");
    NeutralJoin(scan, m.before + key + m.colon + ":", PrintItem(m.item));
  }

  lemma {:induction false} MembersAreNeutral(scan: Scan, members: seq<Member>)
    requires Inside(scan) && members != [] && forall i :: 0 <= i < |members| ==> ValidMember(members[i])
    ensures Neutral(scan, PrintMembers(members))
    decreases members
  {
    MemberIsNeutral(scan, members[0]);
    if |members| > 1 {
      MembersAreNeutral(scan, members[1..]);
      QuietIsNeutral(scan, ",");
      NeutralJoin(scan, PrintMember(members[0]), ",");
      NeutralJoin(scan, PrintMember(members[0]) + ",", PrintMembers(members[1..]));
    }
  }

  /** A printed object followed by anything: the scan takes exactly the object. */
  lemma ObjectIsTaken(v: Value, rest: string)
    requires ValidValue(v) && v.Object?
    ensures ScanText(FreshScan, PrintValue(v) + rest) == Closed(|PrintValue(v)|)
  {
    var inner := Scan(1, 0, false, false, Scanning);
    ObjectBody(inner, v);
    Wrapped(FreshScan, inner, '{', if v.members == [] then v.gap else PrintMembers(v.members), '}');
    ScanTextSplit(FreshScan, PrintValue(v), rest);
  }

  /** Scanning piece by piece until the object closes. */
  function ScanPieces(scan: Scan, pieces: seq<string>): TextScan
    decreases |pieces|
  {
    if pieces == [] then Open(scan)
    else match ScanText(scan, pieces[0])
      case Open(mid) => (
        match ScanPieces(mid, pieces[1..])
        case Closed(n) => Closed(|pieces[0]| + n)
        case other => other)
      case other => other
  }

  lemma {:induction false} PiecesScanLikeWhole(scan: Scan, pieces: seq<string>)
    ensures ScanPieces(scan, pieces) == ScanText(scan, Concat(pieces))
    decreases |pieces|
  {
    if pieces != [] {
      ScanTextSplit(scan, pieces[0], Concat(pieces[1..]));
      if ScanText(scan, pieces[0]).Open? {
        PiecesScanLikeWhole(ScanText(scan, pieces[0]).scan, pieces[1..]);
      }
    }
  }

  /** However an object and what follows it arrive, exactly the object is taken. */
  lemma ObjectIsTakenFromPieces(v: Value, rest: string, pieces: seq<string>)
    requires ValidValue(v) && v.Object?
    requires Concat(pieces) == PrintValue(v) + rest
    ensures ScanPieces(FreshScan, pieces) == Closed(|PrintValue(v)|)
  {
    PiecesScanLikeWhole(FreshScan, pieces);
    ObjectIsTaken(v, rest);
  }
}
