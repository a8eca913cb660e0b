/** Server-sent events as they are written line by line, and what framing reads back from them (src/http.rs). */
module SseLines {
  import opened Wrappers
  import opened Text
  import opened Sse

  // -------- Lines and what they say --------

  /** What follows a field's name: nothing, a colon and the value, or a colon, a space and the value. */
  datatype Value = Bare | Tight(text: string) | Spaced(text: string)

  datatype Line = Empty | Comment(text: string) | Field(name: string, value: Value)

  function TextOf(value: Value): string {
    if value.Bare? then "" else value.text
  }

  function Spelled(line: Line): string {
    match line
    case Empty => ""
    case Comment(text) => ":" + text
    case Field(name, Bare) => name
    case Field(name, Tight(text)) => name + ":" + text
    case Field(name, Spaced(text)) => name + ": " + text
  }

  predicate Spellable(line: Line) {
    line.Field? ==>
      && line.name != "" && (forall i :: 0 <= i < |line.name| ==> line.name[i] != ':')
      && (line.value.Tight? && line.value.text != "" ==> line.value.text[0] != ' ')
  }

  /** The values of all fields of one name, in order. */
  function Values(lines: seq<Line>, name: string): seq<string> {
    if lines == [] then []
    else (if lines[0].Field? && lines[0].name == name then [TextOf(lines[0].value)] else []) + Values(lines[1..], name)
  }

  predicate Supported(line: Line) {
    line.Field? ==> line.name in ["event", "data", "id", "retry"]
  }

  ghost predicate AllSupported(lines: seq<Line>) {
    forall line <- lines :: Supported(line)
  }

  ghost predicate SomeField(lines: seq<Line>) {
    exists line <- lines :: line.Field?
  }

  function LastOf(values: seq<string>): Option<string> {
    if values == [] then None else Some(values[|values| - 1])
  }

  /** What an event's lines say: the last type, and all data; comments alone say nothing. */
  ghost function Said(lines: seq<Line>): Result<Option<RawSseEvent>, SseError> {
    if !AllSupported(lines) then Failure(UnsupportedField)
    else if Values(lines, "data") != [] then
      Success(Some(RawSseEvent(LastOf(Values(lines, "event")), Join(Values(lines, "data")))))
    else if SomeField(lines) then Failure(MissingData)
    else Success(None)
  }

  // -------- Reading one line --------

  predicate HasNoFeed(s: string) {
    forall i :: 0 <= i < |s| ==> s[i] != '\n'
  }

  predicate EndsInReturn(s: string) {
    s != "" && s[|s| - 1] == '\r'
  }

  /** Carriage returns. */
  function Returns(n: nat): string {
    seq(n, i => '\r')
  }

  function FieldsAfter(fields: Fields, line: Line): Fields {
    match line
    case Field("event", value) => fields.(event := Some(TextOf(value)), sawField := true)
    case Field("data", value) => fields.(data := fields.data + [TextOf(value)], sawField := true)
    case Field(_, _) => fields.(sawField := true)
    case _ => fields
  }

  lemma ColonIsFound(name: string, rest: string)
    requires forall i :: 0 <= i < |name| ==> name[i] != ':'
    ensures Find(name + ":" + rest, ":") == Some(|name|)
  {
    var s := name + ":" + rest;
    assert s[|name|..|name| + 1] == ":";
    forall j | 0 <= j < |name| ensures !Occurs(s, ":", j) {
      assert s[j..j + 1] == [name[j]];
    }
    FindIsFirst(s, ":", |name|);
  }

  lemma NoColon(name: string)
    requires forall i :: 0 <= i < |name| ==> name[i] != ':'
    ensures Find(name, ":") == None
  {
    forall j | 0 <= j < |name| ensures !Occurs(name, ":", j) {
      assert name[j..j + 1] == [name[j]];
    }
  }

  lemma FieldIsSplit(line: Line)
    requires Spellable(line) && line.Field?
    ensures var s, colon := Spelled(line), Find(Spelled(line), ":");
            && s != "" && s[0] != ':'
            && (if colon.Some? then s[..colon.value] else s) == line.name
            && (if colon.Some? then FieldValue(s, colon.value) else "") == TextOf(line.value)
  {
    hide Find, FindFrom;
    var s, name := Spelled(line), line.name;
    match line.value {
      case Bare => NoColon(name);
      case Tight(text) =>
        ColonIsFound(name, text);
        assert s[..|name|] == name && s[|name| + 1..] == text;
      case Spaced(text) =>
        assert s == name + ":" + (" " + text);
        ColonIsFound(name, " " + text);
        assert s[..|name|] == name && s[|name| + 2..] == text;
    }
  }

  /** A raw line is read as what it spells without its last return. */
  lemma SpelledIsRead(fields: Fields, raw: string, line: Line)
    requires Spellable(line) && DropReturn(raw) == Spelled(line)
    ensures ReadLine(fields, raw) ==
            if Supported(line) then Success(FieldsAfter(fields, line)) else Failure(UnsupportedField)
  {
    hide Find, Spelled, FieldValue, DropReturn;
    if line.Field? {
      FieldIsSplit(line);
    } else {
      SilentLine(line);
    }
  }

  lemma SilentLine(line: Line)
    requires !line.Field?
    ensures Spelled(line) == "" || Spelled(line)[0] == ':'
  {
  }

  // -------- Reading all of them --------

  /** A line with the returns written behind it. */
  datatype Written = Written(line: Line, crs: nat)

  /** The lines of an event, a line feed between each and the next. */
  function RawOf(lines: seq<Written>): string {
    if lines == [] then ""
    else
      var first := Spelled(lines[0].line) + Returns(lines[0].crs);
      if |lines| == 1 then first else first + "\n" + RawOf(lines[1..])
  }

  /** Up to `most` returns belong to the end of the line. */
  predicate Proper(w: Written, most: nat) {
    && Spellable(w.line) && HasNoFeed(Spelled(w.line)) && w.crs <= most
    && (w.crs != most ==> !EndsInReturn(Spelled(w.line)))
  }

  /** Two returns in front of a line feed are dropped, and one at the end of the event. */
  predicate AllProper(lines: seq<Written>) {
    forall k :: 0 <= k < |lines| ==> Proper(lines[k], if k == |lines| - 1 then 1 else 2)
  }

  function LinesOf(lines: seq<Written>): seq<Line> {
    if lines == [] then [] else [lines[0].line] + LinesOf(lines[1..])
  }

  function ReadSpelled(fields: Fields, lines: seq<Line>): Result<Fields, SseError>
    decreases |lines|
  {
    if lines == [] then Success(fields)
    else if !Supported(lines[0]) then Failure(UnsupportedField)
    else ReadSpelled(FieldsAfter(fields, lines[0]), lines[1..])
  }

  /** Dropping the returns of a line, once where it ends the event and twice in front of a line feed. */
  lemma ReturnsAreDropped(w: Written, most: nat)
    requires 1 <= most <= 2 && Proper(w, most)
    ensures var raw := Spelled(w.line) + Returns(w.crs);
            && DropReturn(if most == 1 then raw else DropReturn(raw)) == Spelled(w.line)
            && HasNoFeed(raw)
  {
    hide Spelled;
    var s := Spelled(w.line);
    assert s + "" == s && Returns(1) == "\r" && Returns(2) == "\r\r";
    if w.crs == 1 {
      assert (s + "\r")[..|s|] == s;
    } else if w.crs == 2 {
      assert (s + "\r\r")[..|s| + 1] == s + "\r" && (s + "\r")[..|s|] == s;
    }
  }

  lemma FeedIsFound(line: string, rest: string)
    requires HasNoFeed(line)
    ensures Lines(line + "\n" + rest) == [DropReturn(line)] + Lines(rest)
    ensures line != "" ==> Lines(line) == [line]
  {
    hide FindFrom, DropReturn;
    var s := line + "\n" + rest;
    assert s[|line|..|line| + 1] == "\n";
    forall j | 0 <= j < |line| ensures !Occurs(s, "\n", j) && !Occurs(line, "\n", j) {
      assert s[j..j + 1] == [line[j]] == line[j..j + 1];
    }
    FindIsFirst(s, "\n", |line|);
    assert s[..|line|] == line && s[|line| + 1..] == rest;
    assert Find(line, "\n") == None;
  }

  lemma NothingToRead()
    ensures Lines("") == []
  {
  }

  lemma {:induction false} WrittenIsRead(fields: Fields, lines: seq<Written>)
    requires AllProper(lines)
    ensures ReadLines(fields, Lines(RawOf(lines))) == ReadSpelled(fields, LinesOf(lines))
    decreases |lines|
  {
    hide Lines, Spelled, ReadLine, DropReturn, Returns, Proper, Supported, FieldsAfter;
    NothingToRead();
    if lines != [] {
      var w, rest, most := lines[0], lines[1..], if |lines| == 1 then 1 else 2;
      assert Proper(w, most);
      var raw := Spelled(w.line) + Returns(w.crs);
      ReturnsAreDropped(w, most);
      ProperIsSpellable(w, most);
      assert AllProper(rest) by {
        assert forall k :: 0 <= k < |rest| ==> rest[k] == lines[k + 1];
      }
      WrittenIsRead(FieldsAfter(fields, w.line), rest);
      FeedIsFound(raw, RawOf(rest));
      if most == 1 {
        assert rest == [] && LinesOf(rest) == [];
        SpelledIsRead(fields, raw, w.line);
        if raw == "" {
          EmptyIsSilent(fields, w);
        } else {
          assert [raw][1..] == [];
        }
      } else {
        SpelledIsRead(fields, DropReturn(raw), w.line);
        var later := Lines(RawOf(rest));
        assert ([DropReturn(raw)] + later)[1..] == later;
      }
    }
  }

  lemma ProperIsSpellable(w: Written, most: nat)
    requires Proper(w, most)
    ensures Spellable(w.line)
  {
  }

  lemma EmptyIsSilent(fields: Fields, w: Written)
    requires Spelled(w.line) + Returns(w.crs) == "" && Spellable(w.line)
    ensures Supported(w.line) && FieldsAfter(fields, w.line) == fields
  {
  }

  lemma FirstLine(lines: seq<Line>)
    requires lines != []
    ensures AllSupported(lines) <==> Supported(lines[0]) && AllSupported(lines[1..])
    ensures SomeField(lines) <==> lines[0].Field? || SomeField(lines[1..])
  {
    hide Supported;
    assert lines[0] in lines && forall line <- lines :: line == lines[0] || line in lines[1..];
    assert forall line <- lines[1..] :: line in lines;
  }

  lemma OneLineMeans(fields: Fields, line: Line, later: seq<Line>)
    requires Supported(line)
    ensures var next, lines := FieldsAfter(fields, line), [line] + later;
            && next.sawField == (fields.sawField || line.Field?)
            && next.data + Values(later, "data") == fields.data + Values(lines, "data")
            && (if Values(later, "event") == [] then next.event else LastOf(Values(later, "event"))) ==
               (if Values(lines, "event") == [] then fields.event else LastOf(Values(lines, "event")))
  {
    var lines := [line] + later;
    assert lines[0] == line && lines[1..] == later;
    var mine := if line.Field? && line.name == "data" then [TextOf(line.value)] else [];
    assert FieldsAfter(fields, line).data == fields.data + mine;
    assert fields.data + mine + Values(later, "data") == fields.data + (mine + Values(later, "data"));
  }

  /** Reading line by line finds what the lines say together. */
  lemma {:induction false} SpelledMeans(fields: Fields, lines: seq<Line>)
    ensures ReadSpelled(fields, lines) ==
            if AllSupported(lines) then
              Success(Fields(
                if Values(lines, "event") == [] then fields.event else LastOf(Values(lines, "event")),
                fields.data + Values(lines, "data"), fields.sawField || SomeField(lines)))
            else Failure(UnsupportedField)
    decreases |lines|
  {
    hide Supported, AllSupported, SomeField, FieldsAfter, Values, LastOf;
    if lines == [] {
      NoLinesMean(fields);
    } else {
      FirstLine(lines);
      if Supported(lines[0]) {
        SpelledMeans(FieldsAfter(fields, lines[0]), lines[1..]);
        assert lines == [lines[0]] + lines[1..];
        OneLineMeans(fields, lines[0], lines[1..]);
      }
    }
  }

  lemma NoLinesMean(fields: Fields)
    ensures AllSupported([]) && !SomeField([])
    ensures Values([], "event") == [] && fields.data + Values([], "data") == fields.data
  {
  }

  /** An event is read as what its lines say, whatever returns are written behind them. */
  lemma LinesSay(lines: seq<Written>)
    requires AllProper(lines)
    ensures ParseSseEvent(RawOf(lines)) == Said(LinesOf(lines))
  {
    hide Lines, ReadLines, RawOf, LinesOf, ReadSpelled, AllSupported, SomeField, Values;
    WrittenIsRead(NoFields, lines);
    SpelledMeans(NoFields, LinesOf(lines));
    var data := Values(LinesOf(lines), "data");
    assert [] + data == data;
  }

  // -------- Every event is lines --------

  lemma LineIsSpelled(s: string) returns (line: Line)
    ensures Spellable(line) && Spelled(line) == s
  {
    hide Find, FindFrom;
    var colon := Find(s, ":");
    if s == "" {
      line := Empty;
    } else if s[0] == ':' {
      line := Comment(s[1..]);
    } else if colon.None? {
      line := Field(s, Bare);
      NoColonMeans(s, |s|);
    } else {
      var name, rest := s[..colon.value], s[colon.value + 1..];
      NoColonMeans(s, colon.value);
      assert s[colon.value..colon.value + 1] == ":";
      assert s == name + ":" + rest;
      if rest != "" && rest[0] == ' ' {
        line := Field(name, Spaced(rest[1..]));
        assert rest == " " + rest[1..];
      } else {
        line := Field(name, Tight(rest));
      }
    }
  }

  lemma NoColonMeans(s: string, n: nat)
    requires n <= |s| && forall j :: 0 <= j < n ==> !Occurs(s, ":", j)
    ensures forall j :: 0 <= j < n ==> s[j] != ':'
  {
    forall j | 0 <= j < n ensures s[j] != ':' {
      assert !Occurs(s, ":", j);
      assert s[j..j + 1] == [s[j]];
    }
  }

  /** Up to `most` returns are taken off a line's end. */
  lemma ReturnsAreTaken(s: string, most: nat) returns (w: Written)
    requires HasNoFeed(s) && most <= 2
    ensures Proper(w, most) && Spelled(w.line) + Returns(w.crs) == s
    decreases most
  {
    hide Spelled, Spellable;
    if most == 0 || !EndsInReturn(s) {
      var line := LineIsSpelled(s);
      w := Written(line, 0);
      assert s + "" == s && Returns(0) == "";
    } else {
      var v := ReturnsAreTaken(s[..|s| - 1], most - 1);
      w := Written(v.line, v.crs + 1);
      assert Returns(v.crs) + "\r" == Returns(v.crs + 1);
      assert s == s[..|s| - 1] + "\r" == Spelled(v.line) + (Returns(v.crs) + "\r");
    }
  }

  /** Any event at all is written by some lines, so what they say is all there is to reading one. */
  lemma {:induction false} EveryEventIsWritten(raw: string) returns (lines: seq<Written>)
    ensures AllProper(lines) && RawOf(lines) == raw && lines != []
    decreases |raw|
  {
    hide Proper, Spelled, FindFrom, Returns;
    var feed := Find(raw, "\n");
    if feed.None? {
      NoFeedMeans(raw, |raw|);
      var w := ReturnsAreTaken(raw, 1);
      lines := [w];
    } else {
      var head, rest := raw[..feed.value], raw[feed.value + 1..];
      NoFeedMeans(raw, feed.value);
      assert raw[feed.value..feed.value + 1] == "\n";
      assert raw == head + "\n" + rest;
      var w := ReturnsAreTaken(head, 2);
      var later := EveryEventIsWritten(rest);
      lines := [w] + later;
      assert lines[1..] == later;
    }
  }

  lemma NoFeedMeans(s: string, n: nat)
    requires n <= |s| && forall j :: 0 <= j < n ==> !Occurs(s, "\n", j)
    ensures HasNoFeed(s[..n])
  {
    forall j | 0 <= j < n ensures s[j] != '\n' {
      assert !Occurs(s, "\n", j);
      assert s[j..j + 1] == [s[j]];
    }
  }

  // -------- Rendered streams --------

  /** An event's lines, each but the last ended by a line feed or a return and one, and the delimiter that closes it. */
  datatype Rendered = Rendered(lines: seq<Written>, closing: string)

  predicate Renderable(e: Rendered) {
    && e.lines != [] && e.closing in ["\n\n", "\r\n\r\n", "\r\r"]
    && forall k :: 0 <= k < |e.lines| ==> Plain(e.lines[k], k == |e.lines| - 1)
  }

  /** A line of some length without line ends of its own. */
  predicate Plain(w: Written, last: bool) {
    && Spellable(w.line) && Spelled(w.line) != ""
    && (forall i :: 0 <= i < |Spelled(w.line)| ==> Spelled(w.line)[i] != '\r' && Spelled(w.line)[i] != '\n')
    && w.crs <= if last then 0 else 1
  }

  function RenderAll(events: seq<Rendered>): string {
    if events == [] then "" else RawOf(events[0].lines) + events[0].closing + RenderAll(events[1..])
  }

  /** What the events say one after another, up to the first that is refused. */
  ghost function AllSaid(events: seq<Rendered>, before: seq<RawSseEvent>): Result<seq<RawSseEvent>, SseError>
    decreases |events|
  {
    if events == [] then Success(before)
    else match Said(LinesOf(events[0].lines))
      case Failure(e) => Failure(e)
      case Success(None) => AllSaid(events[1..], before)
      case Success(Some(event)) => AllSaid(events[1..], before + [event])
  }

  /** Inside such text no delimiter starts, whichever of the three follows it. */
  predicate Undivided(body: string) {
    && body != "" && body[|body| - 1] != '\r' && body[|body| - 1] != '\n'
    && forall i :: 0 <= i < |body| - 1 ==>
         && (body[i] == '\r' ==> body[i + 1] == '\n')
         && (body[i] == '\n' ==> body[i + 1] != '\r' && body[i + 1] != '\n')
  }

  lemma UndividedJoin(head: string, crs: nat, tail: string)
    requires Undivided(tail) && tail[0] != '\r' && tail[0] != '\n' && crs <= 1
    requires head != "" && forall i :: 0 <= i < |head| ==> head[i] != '\r' && head[i] != '\n'
    ensures Undivided(head + Returns(crs) + "\n" + tail)
  {
    var s, m := head + Returns(crs) + "\n" + tail, |head| + crs + 1;
    assert forall i :: 0 <= i < |head| ==> s[i] == head[i];
    assert s[m - 1] == '\n' && (crs == 1 ==> s[|head|] == '\r');
    assert forall i :: m <= i < |s| ==> s[i] == tail[i - m];
  }

  lemma {:induction false} PlainIsUndivided(lines: seq<Written>)
    requires lines != [] && forall k :: 0 <= k < |lines| ==> Plain(lines[k], k == |lines| - 1)
    ensures Undivided(RawOf(lines)) && RawOf(lines)[0] != '\r' && RawOf(lines)[0] != '\n'
    ensures AllProper(lines)
    decreases |lines|
  {
    hide Spelled, Undivided, Spellable;
    var w := lines[0];
    assert Plain(w, |lines| == 1);
    if |lines| == 1 {
      assert Returns(0) == "" && Spelled(w.line) + "" == Spelled(w.line);
      WordIsUndivided(Spelled(w.line));
    } else {
      assert forall k :: 0 <= k < |lines[1..]| ==> lines[1..][k] == lines[k + 1];
      PlainIsUndivided(lines[1..]);
      UndividedJoin(Spelled(w.line), w.crs, RawOf(lines[1..]));
    }
  }

  lemma WordIsUndivided(s: string)
    requires s != "" && forall i :: 0 <= i < |s| ==> s[i] != '\r' && s[i] != '\n'
    ensures Undivided(s)
  {
  }

  lemma ClosingIsFound(body: string, closing: string, rest: string)
    requires Undivided(body) && closing in ["\n\n", "\r\n\r\n", "\r\r"]
    ensures SseEventBoundary(body + closing + rest) == Some(Boundary(|body|, |closing|))
  {
    hide SseEventBoundary, Undivided;
    var s := body + closing + rest;
    assert s[|body|..|body| + |closing|] == closing;
    forall j, n | j < |body| ensures !DelimiterAt(s, j, n) {
      if 0 <= j < |body| {
        NoDelimiterInside(body, closing, rest, j, n);
      }
    }
    BoundaryIs(s, |body|, |closing|);
  }

  lemma NoDelimiterInside(body: string, closing: string, rest: string, j: nat, n: nat)
    requires Undivided(body) && j < |body| && closing in ["\n\n", "\r\n\r\n", "\r\r"]
    ensures !DelimiterAt(body + closing + rest, j, n)
  {
    var s := body + closing + rest;
    assert s[j] == body[j] && s[|body|] == closing[0];
    assert j + 1 < |body| ==> s[j + 1] == body[j + 1];
    assert j + 2 < |body| ==> s[j + 2] == body[j + 2];
    assert j + 2 <= |s| ==> s[j..j + 2] == [s[j], s[j + 1]];
    assert j + 4 <= |s| ==> s[j..j + 4] == [s[j], s[j + 1], s[j + 2], s[j + 3]];
  }

  /** Rendered events frame to what their lines say, with nothing left over, or to the first refusal. */
  lemma {:induction false} RenderRoundTrip(events: seq<Rendered>, before: seq<RawSseEvent>)
    requires forall k :: 0 <= k < |events| ==> Renderable(events[k])
    ensures Frame(RenderAll(events), before) ==
            match AllSaid(events, before)
            case Failure(e) => Failure(e)
            case Success(said) => Success(Framed(said, ""))
    decreases |events|
  {
    hide ParseSseEvent, SseEventBoundary, Undivided, RawOf, LinesOf, AllProper, Said;
    if events == [] {
      NothingToFrame();
    } else {
      var e, rest := events[0], RenderAll(events[1..]);
      var body := RawOf(e.lines);
      PlainIsUndivided(e.lines);
      LinesSay(e.lines);
      ClosingIsFound(body, e.closing, rest);
      var s := RenderAll(events);
      assert s[..|body|] == body && s[|body| + |e.closing|..] == rest;
      match Said(LinesOf(e.lines)) {
        case Success(None) => RenderRoundTrip(events[1..], before);
        case Success(Some(event)) => RenderRoundTrip(events[1..], before + [event]);
        case _ =>
      }
    }
  }

  /** The same when the rendering arrives in arbitrary chunks. */
  lemma ChunkedRoundTrip(events: seq<Rendered>, chunks: seq<string>)
    requires forall k :: 0 <= k < |events| ==> Renderable(events[k])
    requires Concat(chunks) == RenderAll(events)
    ensures FrameChunks("", chunks, []) ==
            match AllSaid(events, [])
            case Failure(e) => Failure(e)
            case Success(said) => Success(Framed(said, ""))
  {
    hide *;
    NothingToFrame();
    ChunksFrameLikeWhole("", chunks, []);
    RenderRoundTrip(events, []);
    assert "" + Concat(chunks) == Concat(chunks);
  }

  // -------- Events of one line --------

  lemma OneLineLayout(line: Line)
    requires Plain(Written(line, 0), true)
    ensures var e := Rendered([Written(line, 0)], "\n\n");
            && Renderable(e) && LinesOf(e.lines) == [line] && RenderAll([e]) == Spelled(line) + "\n\n"
  {
    hide Spelled, Plain;
    var e := Rendered([Written(line, 0)], "\n\n");
    assert e.lines[1..] == [] && [e][1..] == [];
    assert Returns(0) == "" && Spelled(line) + "" == Spelled(line);
    assert Spelled(line) + "\n\n" + "" == Spelled(line) + "\n\n";
  }

  lemma OneLineSaid(line: Line)
    ensures var e := Rendered([Written(line, 0)], "\n\n");
            AllSaid([e], []) ==
            match Said([line])
            case Failure(error) => Failure(error)
            case Success(None) => Success([])
            case Success(Some(event)) => Success([event])
  {
    hide Said;
    var e := Rendered([Written(line, 0)], "\n\n");
    assert e.lines[1..] == [] && [e][1..] == [] && LinesOf(e.lines) == [line];
    var none: seq<RawSseEvent> := [];
    assert forall event: RawSseEvent :: none + [event] == [event];
  }

  /** An event of one line frames to what that line says. */
  lemma OneLineFrames(line: Line)
    requires Plain(Written(line, 0), true)
    ensures Frame(Spelled(line) + "\n\n", []) ==
            match Said([line])
            case Failure(error) => Failure(error)
            case Success(None) => Success(Framed([], ""))
            case Success(Some(event)) => Success(Framed([event], ""))
  {
    hide *;
    OneLineLayout(line);
    OneLineSaid(line);
    RenderRoundTrip([Rendered([Written(line, 0)], "\n\n")], []);
  }

  lemma DataSays(text: string)
    ensures Said([Field("data", Spaced(text))]) == Success(Some(RawSseEvent(None, text)))
  {
    var line := Field("data", Spaced(text));
    assert [line][1..] == [];
    assert Values([line], "data") == [text] && Values([line], "event") == [];
  }

  // -------- Joined data --------

  /** The parts of a text between its line feeds. */
  function Split(s: string): seq<string>
    decreases |s|
  {
    match Find(s, "\n") case None => [s] case Some(i) => [s[..i]] + Split(s[i + 1..])
  }

  /** Data lines are joined so that splitting at line feeds gives them back. */
  lemma {:induction false} JoinSplits(values: seq<string>)
    requires values != [] && forall k :: 0 <= k < |values| ==> HasNoFeed(values[k])
    ensures Split(Join(values)) == values
    decreases |values|
  {
    hide Find, Join, Split;
    SplitStep(values[0], if |values| == 1 then "" else Join(values[1..]));
    JoinStep(values);
    if |values| > 1 {
      JoinSplits(values[1..]);
    }
  }

  lemma JoinStep(values: seq<string>)
    requires values != []
    ensures Join(values) == if |values| == 1 then values[0] else values[0] + "\n" + Join(values[1..])
  {
  }

  lemma SplitStep(first: string, rest: string)
    requires HasNoFeed(first)
    ensures Split(first) == [first] && Split(first + "\n" + rest) == [first] + Split(rest)
  {
    hide FindFrom;
    var s := first + "\n" + rest;
    assert s[|first|..|first| + 1] == "\n";
    forall j | 0 <= j < |first| ensures !Occurs(s, "\n", j) && !Occurs(first, "\n", j) {
      assert s[j..j + 1] == [first[j]] == first[j..j + 1];
    }
    FindIsFirst(s, "\n", |first|);
    assert s[..|first|] == first && s[|first| + 1..] == rest;
    assert Find(first, "\n") == None;
  }
}
