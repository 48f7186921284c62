/** Framing of server-sent events, and a reader that follows section 9.2.6 of the WHATWG HTML Living Standard. */
module Sse {
  import opened Rows
  import Text

  // ----- writing

  /** The characters at which the writer's line splitting cuts. */
  predicate IsBoundary(c: char) {
    c == '\n' || c == '\r' || c == '\U{0B}' || c == '\U{0C}' || c == '\U{1C}' || c == '\U{1D}' || c == '\U{1E}'
    || c == '\U{85}' || c == '\U{2028}' || c == '\U{2029}'
  }

  predicate Clean(s: string) {
    forall c :: c in s ==> !IsBoundary(c)
  }

  function FirstBoundary(s: string): (i: nat)
    ensures i <= |s|
  {
    if s == [] || IsBoundary(s[0]) then 0 else 1 + FirstBoundary(s[1..])
  }

  /** Length of the boundary at the front: a carriage return and a line feed together count as one. */
  function BoundaryLength(s: string): (n: nat)
    requires s != []
    ensures 1 <= n <= |s|
  {
    if s[0] == '\r' && |s| > 1 && s[1] == '\n' then 2 else 1
  }

  /** The lines of a text; a boundary at the very end does not open another line. */
  function SplitLines(s: string): seq<string>
    decreases |s|
  {
    if s == [] then []
    else
      var i := FirstBoundary(s);
      if i == |s| then [s]
      else [s[..i]] + SplitLines(s[i + BoundaryLength(s[i..])..])
  }

  function Pieces(data: string): (r: seq<string>)
    ensures r != []
  {
    if SplitLines(data) == [] then [""] else SplitLines(data)
  }

  function Join(lines: seq<string>): string {
    if lines == [] then ""
    else if |lines| == 1 then lines[0]
    else lines[0] + "\n" + Join(lines[1..])
  }

  function Line(field: string, value: string): string {
    field + ": " + value
  }

  function DataLines(pieces: seq<string>): seq<string> {
    if pieces == [] then [] else [Line("data", pieces[0])] + DataLines(pieces[1..])
  }

  datatype Event = Event(name: string, data: string, id: Option<int>, retry: Option<int>)

  /** The lines before the data. */
  function HeadLines(e: Event): seq<string> {
    (if e.id.Some? then [Line("id", Text.Dec(e.id.value))] else [])
    + (if e.name != "" then [Line("event", e.name)] else [])
    + (if e.retry.Some? then [Line("retry", Text.Dec(e.retry.value))] else [])
  }

  function FrameLines(e: Event): seq<string> {
    HeadLines(e) + DataLines(Pieces(e.data))
  }

  function Frame(e: Event): string {
    Join(FrameLines(e) + ["", ""])
  }

  const KEEPALIVE: string := ": keepalive\n\n"

  lemma {:induction false} DataLinesPush(pieces: seq<string>, p: string)
    ensures DataLines(pieces + [p]) == DataLines(pieces) + [Line("data", p)]
  {
    if pieces == [] {
      assert [p][1..] == [];
    } else {
      assert (pieces + [p])[1..] == pieces[1..] + [p];
      DataLinesPush(pieces[1..], p);
    }
  }

  lemma FrameOf(e: Event, head: seq<string>)
    requires head == HeadLines(e)
    ensures Join(head + DataLines(Pieces(e.data)) + [""] + [""]) == Frame(e)
  {
    assert head + DataLines(Pieces(e.data)) + [""] + [""] == FrameLines(e) + ["", ""];
  }

  method SseEvent(name: string, data: string, id: Option<int>, retry: Option<int>) returns (frame: string)
    ensures frame == Frame(Event(name, data, id, retry))
  {
    ghost var e := Event(name, data, id, retry);
    var lines: seq<string> := [];
    if id.Some? {
      lines := lines + [Line("id", Text.Dec(id.value))];
    }
    if name != "" {
      lines := lines + [Line("event", name)];
    }
    if retry.Some? {
      lines := lines + [Line("retry", Text.Dec(retry.value))];
    }
    ghost var head := lines;
    FrameOf(e, head);
    var chunks := SplitLines(data);
    if chunks == [] {
      chunks := [""];
    }
    lines := AppendData(lines, chunks);
    lines := lines + [""];
    lines := lines + [""];
    frame := Join(lines);
  }

  /** One data line for each piece. */
  method AppendData(head: seq<string>, chunks: seq<string>) returns (lines: seq<string>)
    ensures lines == head + DataLines(chunks)
  {
    lines := head;
    var i := 0;
    while i < |chunks|
      invariant 0 <= i <= |chunks|
      invariant lines == head + DataLines(chunks[..i])
    {
      DataLinesPush(chunks[..i], chunks[i]);
      assert chunks[..i + 1] == chunks[..i] + [chunks[i]];
      lines := lines + [Line("data", chunks[i])];
      i := i + 1;
    }
    assert chunks[..i] == chunks;
  }

  // ----- reading

  predicate EndsLine(c: char) {
    c == '\n' || c == '\r'
  }

  function LineLength(s: string): (i: nat)
    ensures i <= |s|
    ensures i < |s| ==> EndsLine(s[i])
  {
    if s == [] || EndsLine(s[0]) then 0 else 1 + LineLength(s[1..])
  }

  /** The terminated lines of a stream; an unterminated tail is discarded. */
  function StreamLines(s: string): seq<string>
    decreases |s|
  {
    var i := LineLength(s);
    if i == |s| then []
    else [s[..i]] + StreamLines(s[i + BoundaryLength(s[i..])..])
  }

  datatype Message = Message(lastEventId: string, name: string, data: string, reconnectionTime: Option<int>)

  datatype Reader = Reader(data: string, name: string, id: string, retry: Option<int>, received: seq<Message>)

  const Fresh: Reader := Reader("", "", "", None, [])

  /** An empty data buffer means nothing is dispatched; otherwise one trailing line feed is dropped. */
  function Dispatch(r: Reader): Reader {
    var idle := r.(data := "", name := "");
    if r.data == "" then idle
    else
      var data := if r.data[|r.data| - 1] == '\n' then r.data[..|r.data| - 1] else r.data;
      idle.(received := r.received + [Message(r.id, if r.name == "" then "message" else r.name, data, r.retry)])
  }

  function Field(r: Reader, name: string, value: string): Reader {
    if name == "event" then r.(name := value)
    else if name == "data" then r.(data := r.data + value + "\n")
    else if name == "id" then (if '\0' in value then r else r.(id := value))
    else if name == "retry" then (if Text.AllDigits(value) then r.(retry := Some(Text.ValueOf(value))) else r)
    else r
  }

  function Feed(r: Reader, line: string): Reader {
    if line == "" then Dispatch(r)
    else if line[0] == ':' then r
    else
      match Text.SplitFirst(line, ':')
      case None => Field(r, line, "")
      case Some((name, value)) => Field(r, name, if value != "" && value[0] == ' ' then value[1..] else value)
  }

  function FeedAll(r: Reader, lines: seq<string>): Reader
    decreases |lines|
  {
    if lines == [] then r else FeedAll(Feed(r, lines[0]), lines[1..])
  }

  function Read(stream: string): seq<Message> {
    FeedAll(Fresh, StreamLines(stream)).received
  }

  // ----- the round trip

  /** What goes over the wire: frames with keepalives in between. */
  datatype Chunk = Sent(event: Event) | Keepalive

  function Wire(chunks: seq<Chunk>): string {
    if chunks == [] then ""
    else (match chunks[0] case Sent(e) => Frame(e) case Keepalive => KEEPALIVE) + Wire(chunks[1..])
  }

  /** Event names are single lines. */
  predicate Sendable(chunks: seq<Chunk>) {
    forall c :: c in chunks && c.Sent? ==> Terse(c.event.name)
  }

  predicate Terse(s: string) {
    forall c :: c in s ==> !EndsLine(c)
  }

  /** The messages a reader must see; an event without an id or a retry time leaves the earlier one in force. */
  function Expected(chunks: seq<Chunk>, id: string, retry: Option<int>): seq<Message> {
    if chunks == [] then []
    else
      match chunks[0]
      case Keepalive => Expected(chunks[1..], id, retry)
      case Sent(e) => [Delivered(e, id, retry)] + Expected(chunks[1..], IdAfter(e, id), RetryAfter(e, retry))
  }

  function Delivered(e: Event, id: string, retry: Option<int>): Message {
    Message(IdAfter(e, id), if e.name == "" then "message" else e.name, Join(Pieces(e.data)), RetryAfter(e, retry))
  }

  function IdAfter(e: Event, id: string): string {
    if e.id.Some? then Text.Dec(e.id.value) else id
  }

  /** A reader ignores a negative retry time. */
  function RetryAfter(e: Event, retry: Option<int>): Option<int> {
    if e.retry.Some? && e.retry.value >= 0 then e.retry else retry
  }

  // lines in, lines out

  function Unlines(lines: seq<string>): string {
    if lines == [] then "" else lines[0] + "\n" + Unlines(lines[1..])
  }

  lemma {:induction false} LineLengthOf(line: string, rest: string)
    requires Terse(line)
    ensures LineLength(line + "\n" + rest) == |line|
  {
    if line != [] {
      assert (line + "\n" + rest)[1..] == line[1..] + "\n" + rest;
      LineLengthOf(line[1..], rest);
    }
  }

  lemma FirstLineOf(line: string, rest: string)
    requires Terse(line)
    ensures StreamLines(line + "\n" + rest) == [line] + StreamLines(rest)
  {
    var s := line + "\n" + rest;
    LineLengthOf(line, rest);
    assert s[|line|..] == "\n" + rest;
    assert BoundaryLength(s[|line|..]) == 1;
    assert s[..|line|] == line && s[|line| + 1..] == rest;
  }

  predicate AllTerse(lines: seq<string>) {
    forall l :: l in lines ==> Terse(l)
  }

  lemma {:induction false} StreamLinesOf(lines: seq<string>, rest: string)
    requires AllTerse(lines)
    ensures StreamLines(Unlines(lines) + rest) == lines + StreamLines(rest)
  {
    if lines == [] {
      assert Unlines(lines) + rest == rest;
    } else {
      var l, others := lines[0], lines[1..];
      var tail := Unlines(others) + rest;
      assert AllTerse(others);
      calc {
        StreamLines(Unlines(lines) + rest);
        { assert Unlines(lines) + rest == l + "\n" + tail; }
        StreamLines(l + "\n" + tail);
        { FirstLineOf(l, tail); }
        [l] + StreamLines(tail);
        { StreamLinesOf(others, rest); }
        [l] + (others + StreamLines(rest));
        lines + StreamLines(rest);
      }
    }
  }

  lemma {:induction false} JoinIsUnlines(lines: seq<string>)
    ensures Join(lines + ["", ""]) == Unlines(lines + [""])
  {
    if lines == [] {
      assert [""] + [""] == ["", ""] && ["", ""][1..] == [""] && [""][1..] == [];
    } else {
      JoinIsUnlines(lines[1..]);
      assert (lines + ["", ""])[1..] == lines[1..] + ["", ""];
      assert (lines + [""])[1..] == lines[1..] + [""];
    }
  }

  lemma {:induction false} JoinEndsUnlines(lines: seq<string>)
    requires lines != []
    ensures Unlines(lines) == Join(lines) + "\n"
  {
    if |lines| > 1 {
      JoinEndsUnlines(lines[1..]);
    } else {
      assert lines[1..] == [];
    }
  }

  lemma {:induction false} FeedAppend(r: Reader, a: seq<string>, b: seq<string>)
    ensures FeedAll(r, a + b) == FeedAll(FeedAll(r, a), b)
    decreases |a|
  {
    if a == [] {
      assert a + b == b;
    } else {
      assert (a + b)[1..] == a[1..] + b;
      FeedAppend(Feed(r, a[0]), a[1..], b);
    }
  }

  lemma FeedField(r: Reader, name: string, value: string)
    requires name != "" && ':' !in name
    ensures Feed(r, Line(name, value)) == Field(r, name, value)
  {
    assert Line(name, value) == name + [':'] + (" " + value);
    Text.SplitJoined(name, ':', " " + value);
    assert (" " + value)[1..] == value;
    assert Line(name, value)[0] == name[0] && name[0] in name;
  }

  // one frame

  lemma FeedAllCons(r: Reader, line: string, lines: seq<string>)
    ensures FeedAll(r, [line] + lines) == FeedAll(Feed(r, line), lines)
  {
    assert ([line] + lines)[1..] == lines;
  }

  lemma Regroup(a: string, b: string, c: string)
    ensures a + b + "\n" + c == a + (b + "\n" + c)
  {
  }

  lemma {:induction false} FeedData(r: Reader, pieces: seq<string>)
    ensures FeedAll(r, DataLines(pieces)) == r.(data := r.data + Unlines(pieces))
    decreases |pieces|
  {
    if pieces == [] {
      assert r.data + "" == r.data;
    } else {
      var p, others := pieces[0], pieces[1..];
      calc {
        FeedAll(r, DataLines(pieces));
        FeedAll(r, [Line("data", p)] + DataLines(others));
        { FeedAllCons(r, Line("data", p), DataLines(others)); FeedField(r, "data", p); }
        FeedAll(r.(data := r.data + p + "\n"), DataLines(others));
        { FeedData(r.(data := r.data + p + "\n"), others); }
        r.(data := r.data + p + "\n" + Unlines(others));
        { Regroup(r.data, p, Unlines(others)); }
        r.(data := r.data + Unlines(pieces));
      }
    }
  }

  function IdPart(e: Event): seq<string> {
    if e.id.Some? then [Line("id", Text.Dec(e.id.value))] else []
  }

  function NamePart(e: Event): seq<string> {
    if e.name != "" then [Line("event", e.name)] else []
  }

  function RetryPart(e: Event): seq<string> {
    if e.retry.Some? then [Line("retry", Text.Dec(e.retry.value))] else []
  }

  lemma FeedOne(r: Reader, line: string)
    ensures FeedAll(r, [line]) == Feed(r, line)
  {
    assert [line][1..] == [];
  }

  lemma FeedId(r: Reader, e: Event)
    ensures FeedAll(r, IdPart(e)) == r.(id := IdAfter(e, r.id))
  {
    if e.id.Some? {
      FeedOne(r, Line("id", Text.Dec(e.id.value)));
      FeedField(r, "id", Text.Dec(e.id.value));
      Text.DecIsClean(e.id.value, '\0');
    }
  }

  lemma FeedName(r: Reader, e: Event)
    requires r.name == ""
    ensures FeedAll(r, NamePart(e)) == r.(name := e.name)
  {
    if e.name != "" {
      FeedOne(r, Line("event", e.name));
      FeedField(r, "event", e.name);
    }
  }

  lemma FeedRetry(r: Reader, e: Event)
    ensures FeedAll(r, RetryPart(e)) == r.(retry := RetryAfter(e, r.retry))
  {
    if e.retry.Some? {
      var n := e.retry.value;
      FeedOne(r, Line("retry", Text.Dec(n)));
      FeedField(r, "retry", Text.Dec(n));
      if n >= 0 {
        Text.DigitsAreDigits(n);
      } else {
        assert Text.Dec(n)[0] == '-' && '-' in Text.Dec(n);
      }
    }
  }

  function Idle(id: string, retry: Option<int>, received: seq<Message>): Reader {
    Reader("", "", id, retry, received)
  }

  /** Feeding one whole frame to an idle reader delivers exactly its message and leaves the reader idle. */
  lemma FeedFrame(id: string, retry: Option<int>, received: seq<Message>, e: Event)
    ensures FeedAll(Idle(id, retry, received), FrameLines(e) + [""])
         == Idle(IdAfter(e, id), RetryAfter(e, retry), received + [Delivered(e, id, retry)])
  {
    var r0 := Idle(id, retry, received);
    var pieces := Pieces(e.data);
    var lines := IdPart(e) + (NamePart(e) + (RetryPart(e) + (DataLines(pieces) + [""])));
    assert FrameLines(e) + [""] == lines;
    FeedAppend(r0, IdPart(e), NamePart(e) + (RetryPart(e) + (DataLines(pieces) + [""])));
    FeedId(r0, e);
    var r1 := r0.(id := IdAfter(e, id));
    FeedAppend(r1, NamePart(e), RetryPart(e) + (DataLines(pieces) + [""]));
    FeedName(r1, e);
    var r2 := r1.(name := e.name);
    FeedAppend(r2, RetryPart(e), DataLines(pieces) + [""]);
    FeedRetry(r2, e);
    var r3 := r2.(retry := RetryAfter(e, retry));
    FeedAppend(r3, DataLines(pieces), [""]);
    FeedData(r3, pieces);
    JoinEndsUnlines(pieces);
    var r4 := r3.(data := Join(pieces) + "\n");
    assert r3.data + Unlines(pieces) == r4.data;
    FeedOne(r4, "");
    assert r4.data[..|r4.data| - 1] == Join(pieces);
  }

  // clean lines

  lemma {:induction false} FirstBoundaryIsFirst(s: string)
    ensures Clean(s[..FirstBoundary(s)])
    ensures FirstBoundary(s) < |s| ==> IsBoundary(s[FirstBoundary(s)])
  {
    if s != [] && !IsBoundary(s[0]) {
      FirstBoundaryIsFirst(s[1..]);
      assert s[..FirstBoundary(s)] == [s[0]] + s[1..][..FirstBoundary(s[1..])];
    }
  }

  lemma {:induction false} SplitLinesClean(s: string)
    ensures forall p :: p in SplitLines(s) ==> Clean(p)
    decreases |s|
  {
    if s != [] {
      FirstBoundaryIsFirst(s);
      var i := FirstBoundary(s);
      if i < |s| {
        SplitLinesClean(s[i + BoundaryLength(s[i..])..]);
      } else {
        assert s[..i] == s;
      }
    }
  }

  lemma PiecesClean(data: string)
    ensures forall p :: p in Pieces(data) ==> Clean(p)
  {
    SplitLinesClean(data);
  }

  lemma {:induction false} DataLinesTerse(pieces: seq<string>)
    requires forall p :: p in pieces ==> Clean(p)
    ensures AllTerse(DataLines(pieces))
  {
    if pieces != [] {
      DataLinesTerse(pieces[1..]);
      assert Clean(pieces[0]);
      CleanIsTerse(pieces[0]);
      TerseLine("data", pieces[0]);
    }
  }

  lemma CleanIsTerse(s: string)
    requires Clean(s)
    ensures Terse(s)
  {
    forall c | c in s ensures !EndsLine(c) {
      assert !IsBoundary(c);
    }
  }

  lemma TerseLine(field: string, value: string)
    requires Terse(field) && Terse(value)
    ensures Terse(Line(field, value))
  {
  }

  lemma TerseNumber(n: int)
    ensures Terse(Text.Dec(n))
  {
    Text.DecIsClean(n, '\n');
    Text.DecIsClean(n, '\r');
  }

  lemma FrameLinesTerse(e: Event)
    requires Terse(e.name)
    ensures AllTerse(FrameLines(e) + [""])
  {
    PiecesClean(e.data);
    DataLinesTerse(Pieces(e.data));
    if e.id.Some? {
      TerseNumber(e.id.value);
      TerseLine("id", Text.Dec(e.id.value));
    }
    if e.retry.Some? {
      TerseNumber(e.retry.value);
      TerseLine("retry", Text.Dec(e.retry.value));
    }
    TerseLine("event", e.name);
  }

  // the stream

  function ChunkLines(c: Chunk): seq<string> {
    match c
    case Sent(e) => FrameLines(e) + [""]
    case Keepalive => [": keepalive", ""]
  }

  function AllLines(chunks: seq<Chunk>): seq<string> {
    if chunks == [] then [] else ChunkLines(chunks[0]) + AllLines(chunks[1..])
  }

  lemma ChunkIsUnlines(c: Chunk)
    requires c.Sent? ==> Terse(c.event.name)
    ensures AllTerse(ChunkLines(c))
    ensures (match c case Sent(e) => Frame(e) case Keepalive => KEEPALIVE) == Unlines(ChunkLines(c))
  {
    match c
    case Sent(e) =>
      FrameLinesTerse(e);
      JoinIsUnlines(FrameLines(e));
    case Keepalive =>
      var comment := ": keepalive";
      assert Terse(comment);
      assert [comment, ""][1..] == [""] && [""][1..] == [];
      assert Unlines([""]) == "\n";
  }

  lemma {:induction false} WireLines(chunks: seq<Chunk>)
    requires Sendable(chunks)
    ensures StreamLines(Wire(chunks)) == AllLines(chunks)
  {
    if chunks != [] {
      assert Sendable(chunks[1..]);
      WireLines(chunks[1..]);
      ChunkIsUnlines(chunks[0]);
      StreamLinesOf(ChunkLines(chunks[0]), Wire(chunks[1..]));
    }
  }

  lemma FeedKeepalive(id: string, retry: Option<int>, received: seq<Message>)
    ensures FeedAll(Idle(id, retry, received), ChunkLines(Keepalive)) == Idle(id, retry, received)
  {
    var r := Idle(id, retry, received);
    FeedAllCons(r, ": keepalive", [""]);
    FeedOne(r, "");
  }

  lemma {:induction false} FeedChunks(chunks: seq<Chunk>, id: string, retry: Option<int>, received: seq<Message>)
    ensures FeedAll(Idle(id, retry, received), AllLines(chunks)).received == received + Expected(chunks, id, retry)
    decreases |chunks|
  {
    if chunks != [] {
      var others := chunks[1..];
      FeedAppend(Idle(id, retry, received), ChunkLines(chunks[0]), AllLines(others));
      match chunks[0] {
        case Keepalive =>
          FeedKeepalive(id, retry, received);
          FeedChunks(others, id, retry, received);
        case Sent(e) =>
          FeedFrame(id, retry, received, e);
          FeedChunks(others, IdAfter(e, id), RetryAfter(e, retry), received + [Delivered(e, id, retry)]);
      }
    }
  }

  /** A conforming reader gets every event, in order, with its id, name and retry time, whatever keepalives lie
      between. */
  lemma ReadsWhatWasSent(chunks: seq<Chunk>)
    requires Sendable(chunks)
    ensures Read(Wire(chunks)) == Expected(chunks, "", None)
  {
    WireLines(chunks);
    FeedChunks(chunks, "", None, []);
  }

  // ----- which data survives

  /** No line boundary but line feeds: no carriage return, vertical tab, form feed, file, group or record separator,
      next line, line separator or paragraph separator. */
  predicate OnlyLineFeeds(s: string) {
    forall c :: c in s ==> c !in "\r\U{0B}\U{0C}\U{1C}\U{1D}\U{1E}\U{85}\U{2028}\U{2029}"
  }

  predicate EndsOpen(s: string) {
    s == "" || s[|s| - 1] != '\n'
  }

  lemma JoinCons(line: string, lines: seq<string>)
    requires lines != []
    ensures Join([line] + lines) == line + "\n" + Join(lines)
  {
    assert ([line] + lines)[1..] == lines;
  }

  function WithoutFinalLineFeed(s: string): string {
    if EndsOpen(s) then s else s[..|s| - 1]
  }

  lemma CutAtLineFeed(front: string, rest: string)
    ensures WithoutFinalLineFeed(front + "\n" + rest)
         == if rest == "" then front else front + "\n" + WithoutFinalLineFeed(rest)
  {
    var s := front + "\n" + rest;
    if rest == "" {
      assert s[..|s| - 1] == front;
    } else {
      assert rest[|rest| - 1] == s[|s| - 1];
      assert s[..|s| - 1] == front + "\n" + rest[..|rest| - 1];
    }
  }

  /** With line feeds only, splitting cuts off everything before the first one. */
  lemma SplitStep(s: string) returns (front: string, rest: string)
    requires OnlyLineFeeds(s) && FirstBoundary(s) < |s|
    ensures s == front + "\n" + rest && OnlyLineFeeds(rest)
    ensures SplitLines(s) == [front] + SplitLines(rest)
  {
    FirstBoundaryIsFirst(s);
    var i := FirstBoundary(s);
    assert s[i] in s && s[i..][0] == s[i];
    front, rest := s[..i], s[i + 1..];
  }

  /** Cutting at line feeds and joining again loses only a final line feed. */
  lemma {:induction false} JoinSplit(s: string)
    requires OnlyLineFeeds(s) && s != ""
    ensures SplitLines(s) != []
    ensures Join(SplitLines(s)) == WithoutFinalLineFeed(s)
    decreases |s|
  {
    if FirstBoundary(s) < |s| {
      var front, rest := SplitStep(s);
      CutAtLineFeed(front, rest);
      if rest != "" {
        JoinSplit(rest);
        JoinCons(front, SplitLines(rest));
      }
    } else {
      FirstBoundaryIsFirst(s);
      assert s[..|s|] == s;
      assert s[|s| - 1] in s;
    }
  }

  lemma {:induction false} JoinOfClean(lines: seq<string>)
    requires forall l :: l in lines ==> Clean(l)
    ensures OnlyLineFeeds(Join(lines))
  {
    if |lines| == 1 {
      assert Clean(lines[0]);
    } else if |lines| > 1 {
      JoinOfClean(lines[1..]);
      var rest := Join(lines[1..]);
      assert Clean(lines[0]);
      forall c | c in lines[0] + "\n" + rest && IsBoundary(c) ensures c == '\n' {
        assert c in lines[0] || c == '\n' || c in rest;
      }
    }
  }

  /** Data arrives unchanged exactly when its only line boundaries are line feeds and it does not end with one. */
  lemma DataSurvivesIff(data: string)
    ensures Join(Pieces(data)) == data <==> OnlyLineFeeds(data) && EndsOpen(data)
  {
    PiecesClean(data);
    JoinOfClean(Pieces(data));
    if OnlyLineFeeds(data) && data != "" {
      JoinSplit(data);
    }
  }

  /** The text with every line boundary turned into a line feed, a carriage return and line feed into one. */
  function Normalized(s: string): string {
    if s == "" then ""
    else if |s| > 1 && s[0] == '\r' && s[1] == '\n' then "\n" + Normalized(s[2..])
    else if s[0] in "\n\r\U{0B}\U{0C}\U{1C}\U{1D}\U{1E}\U{85}\U{2028}\U{2029}" then "\n" + Normalized(s[1..])
    else [s[0]] + Normalized(s[1..])
  }

  lemma NormalizedCut(s: string)
    requires s != "" && IsBoundary(s[0])
    ensures Normalized(s) == "\n" + Normalized(s[BoundaryLength(s)..])
  {
  }

  lemma NormalizedPush(c: char, t: string)
    requires !IsBoundary(c)
    ensures Normalized([c] + t) == [c] + Normalized(t)
  {
    assert ([c] + t)[1..] == t;
  }

  lemma {:induction false} NormalizedClean(front: string, rest: string)
    requires Clean(front)
    ensures Normalized(front + rest) == front + Normalized(rest)
  {
    if front == "" {
      assert front + rest == rest;
    } else {
      assert front[0] in front;
      assert front + rest == [front[0]] + (front[1..] + rest);
      NormalizedClean(front[1..], rest);
      NormalizedPush(front[0], front[1..] + rest);
    }
  }

  /** The first line of a text, as the writer cuts it off. */
  lemma CutFirstLine(s: string) returns (front: string, rest: string)
    requires FirstBoundary(s) < |s|
    ensures |rest| < |s| && SplitLines(s) == [front] + SplitLines(rest)
    ensures Normalized(s) == front + "\n" + Normalized(rest)
  {
    FirstBoundaryIsFirst(s);
    var i := FirstBoundary(s);
    var tail := s[i..];
    front, rest := s[..i], s[i + BoundaryLength(tail)..];
    assert s == front + tail && tail[BoundaryLength(tail)..] == rest;
    NormalizedClean(front, tail);
    NormalizedCut(tail);
    assert front + ("\n" + Normalized(rest)) == front + "\n" + Normalized(rest);
  }

  lemma NormalizedEmpty(s: string)
    ensures Normalized(s) == "" <==> s == ""
  {
  }

  /** Of any data, what arrives is the normalized text without a final line feed. */
  lemma {:induction false} WhatArrives(data: string)
    ensures Join(Pieces(data)) == WithoutFinalLineFeed(Normalized(data))
    decreases |data|
  {
    if data != "" {
      ArrivesOf(data);
    }
  }

  lemma LastLineArrives(s: string)
    requires s != "" && FirstBoundary(s) == |s|
    ensures SplitLines(s) == [s] && Normalized(s) == s && EndsOpen(s)
  {
    FirstBoundaryIsFirst(s);
    assert s[..|s|] == s && s[|s| - 1] in s;
    NormalizedClean(s, "");
    assert s + "" == s;
  }

  lemma {:induction false} ArrivesOf(s: string)
    requires s != ""
    ensures SplitLines(s) != []
    ensures Join(SplitLines(s)) == WithoutFinalLineFeed(Normalized(s))
    decreases |s|
  {
    if FirstBoundary(s) == |s| {
      LastLineArrives(s);
    } else {
      var front, rest := CutFirstLine(s);
      CutAtLineFeed(front, Normalized(rest));
      NormalizedEmpty(rest);
      if rest != "" {
        ArrivesOf(rest);
        JoinCons(front, SplitLines(rest));
      }
    }
  }

  /** A line separator inside a JSON text reaches the client as a bare line feed. */
  lemma LineSeparatorIsLost()
    ensures Join(Pieces("a\U{2028}b")) == "a\nb"
  {
    var s := "a\U{2028}b";
    assert s[1..][0] == '\U{2028}' && FirstBoundary(s) == 1;
    assert s[1..] == "\U{2028}b" && s[..1] == "a" && s[2..] == "b";
    assert "b"[1..] == "" && FirstBoundary("b") == 1;
    assert SplitLines(s) == ["a"] + SplitLines("b");
    assert ["a", "b"][1..] == ["b"];
  }
}
