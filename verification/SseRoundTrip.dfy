/** Events written as fields and a blank line, fed in any cuts, parse back to the same events. */
module SseRoundTrip {
  import opened Common
  import opened Text
  import opened SseSpec
  import opened SseParser
  import opened SseRuns

  // -------------------------------------------------------------- writing

  function FieldLine(name: Bytes, value: Bytes): Bytes { name + [COLON, SPACE] + value }

  /** The pieces of `data` between its line feeds. */
  function Pieces(data: Bytes): (r: seq<Bytes>)
    ensures r != []
    decreases |data|
  {
    match Find(LF, data)
    case None => [data]
    case Some(n) => [data[..n]] + Pieces(data[n + 1..])
  }

  function DataLines(pieces: seq<Bytes>): seq<Bytes> {
    if pieces == [] then []
    else DataLines(pieces[..|pieces| - 1]) + [FieldLine(DATA, pieces[|pieces| - 1])]
  }

  function HeadLines(e: SseEvent): seq<Bytes> {
    [FieldLine(EVENT, e.event)]
    + (if e.id.Some? then [FieldLine(ID, e.id.value)] else [])
    + (if e.retry.Some? then [FieldLine(RETRY, Decimal(e.retry.value))] else [])
  }

  function EventLines(e: SseEvent): seq<Bytes> { HeadLines(e) + DataLines(Pieces(e.data)) }

  function Unlines(lines: seq<Bytes>): Bytes {
    if lines == [] then [] else lines[0] + [LF] + Unlines(lines[1..])
  }

  function WriteEvent(e: SseEvent): Bytes { Unlines(EventLines(e)) + [LF] }

  function WriteAll(events: seq<SseEvent>): Bytes {
    if events == [] then [] else WriteEvent(events[0]) + WriteAll(events[1..])
  }

  // ------------------------------------------------- what can be written

  /** A value that survives on one line. */
  predicate LineValue(v: Bytes) {
    LF !in v && ValidUtf8(v) && (v == [] || v[|v| - 1] != CR)
  }

  /** Data survives unless its first line is an empty line followed by others, or a line ends with a carriage return. */
  predicate PlainData(data: Bytes) {
    (data == [] || data[0] != LF) && forall p :: p in Pieces(data) ==> p == [] || p[|p| - 1] != CR
  }

  predicate Writable(e: SseEvent) {
    && LineValue(e.event)
    && (e.id.Some? ==> LineValue(e.id.value) && UsableId(e.id.value))
    && (e.retry.Some? ==> e.retry.value <= U64_MAX)
    && ValidUtf8(e.data) && PlainData(e.data)
  }

  // ------------------------------------------------------ reading a frame

  /** Lines without line feeds, none blank, are exactly one frame once a blank line follows. */
  lemma {:induction false} FrameOfLines(lines: seq<Bytes>, rest: Bytes)
    requires forall l :: l in lines ==> LF !in l && !Blank(l)
    ensures CutFrame(Unlines(lines) + [LF] + rest) == Frame(lines, |Unlines(lines)| + 1)
  {
    hide CutFrame;
    if lines == [] {
      assert Unlines(lines) + [LF] + rest == [] + [LF] + rest;
      CutBlank(rest);
    } else {
      var after := Unlines(lines[1..]) + [LF] + rest;
      FrameOfLines(lines[1..], rest);
      CutLine(lines[0], after);
      assert Unlines(lines) + [LF] + rest == lines[0] + [LF] + after;
      assert lines == [lines[0]] + lines[1..];
    }
  }

  lemma CutBlank(rest: Bytes)
    ensures CutFrame([] + [LF] + rest) == Frame([], 1)
  {
    FindAt(LF, [], rest);
  }

  lemma CutLine(line: Bytes, after: Bytes)
    requires LF !in line && !Blank(line)
    ensures CutFrame(line + [LF] + after) ==
              match CutFrame(after)
              case NoFrame => NoFrame
              case Frame(ls, used) => Frame([line] + ls, |line| + 1 + used)
  {
    FindAt(LF, line, after);
    var s := line + [LF] + after;
    assert s[..|line|] == line && s[|line| + 1..] == after;
  }

  lemma Names()
    ensures COLON !in EVENT && COLON !in DATA && COLON !in ID && COLON !in RETRY
    ensures KindOf(EVENT) == Event && KindOf(DATA) == Data && KindOf(ID) == Id && KindOf(RETRY) == Retry
    ensures LF !in EVENT && LF !in DATA && LF !in ID && LF !in RETRY
  {
  }

  /** A written field is read back under its kind; only a carriage return at the end of the value is lost. */
  lemma ReadField(name: Bytes, value: Bytes)
    requires COLON !in name && name != []
    ensures FieldOf(FieldLine(name, value)) == Field(KindOf(name), StripCr(value))
  {
    hide KindOf;
    var line := FieldLine(name, value);
    var stripped := StripCr(value);
    assert StripCr(line) == name + [COLON] + ([SPACE] + stripped) by {
      if value == [] { assert line[|line| - 1] == SPACE; } else { assert line[|line| - 1] == value[|value| - 1]; }
    }
    FindAt(COLON, name, [SPACE] + stripped);
    var l := StripCr(line);
    assert l[..|name|] == name && l[|name| + 1..] == [SPACE] + stripped;
    assert ([SPACE] + stripped)[1..] == stripped;
  }

  function StripAll(values: seq<Bytes>): seq<Bytes> {
    if values == [] then [] else StripAll(values[..|values| - 1]) + [StripCr(values[|values| - 1])]
  }

  lemma {:induction false} ValuesOfData(pieces: seq<Bytes>)
    ensures Values(DataLines(pieces), Data) == StripAll(pieces)
    ensures Values(DataLines(pieces), Event) == Values(DataLines(pieces), Id) == Values(DataLines(pieces), Retry) == []
  {
    if pieces != [] {
      hide FieldOf, FieldLine, KindOf, StripCr;
      var front, line := pieces[..|pieces| - 1], FieldLine(DATA, pieces[|pieces| - 1]);
      ValuesOfData(front);
      Names();
      ReadField(DATA, pieces[|pieces| - 1]);
      ValuesSnoc(DataLines(front), line, Data);
      ValuesSnoc(DataLines(front), line, Event);
      ValuesSnoc(DataLines(front), line, Id);
      ValuesSnoc(DataLines(front), line, Retry);
    }
  }

  lemma {:induction false} ValuesConcat(a: seq<Bytes>, b: seq<Bytes>, kind: Kind)
    ensures Values(a + b, kind) == Values(a, kind) + Values(b, kind)
  {
    hide FieldOf;
    if b == [] {
      assert a + b == a;
    } else {
      var front, last := b[..|b| - 1], b[|b| - 1];
      ValuesConcat(a, front, kind);
      assert a + b == (a + front) + [last] && b == front + [last];
      ValuesSnoc(a + front, last, kind);
      ValuesSnoc(front, last, kind);
      hide Values;
      if FieldOf(last).Field? { Assoc(Values(a, kind), Values(front, kind), [FieldOf(last).value]); }
    }
  }

  lemma ValuesOne(line: Bytes, kind: Kind)
    ensures Values([line], kind) ==
              if FieldOf(line).Field? && FieldOf(line).kind == kind then [FieldOf(line).value] else []
  {
    hide FieldOf;
    ValuesSnoc([], line, kind);
    assert [] + [line] == [line];
  }

  function IdLines(id: Option<Bytes>): seq<Bytes> { if id.Some? then [FieldLine(ID, id.value)] else [] }

  function RetryLines(retry: Option<nat>): seq<Bytes> {
    if retry.Some? then [FieldLine(RETRY, Decimal(retry.value))] else []
  }

  lemma ValuesOfHead(e: SseEvent, kind: Kind)
    ensures Values(HeadLines(e), kind) ==
              match kind
              case Event => [StripCr(e.event)]
              case Id => if e.id.Some? then [StripCr(e.id.value)] else []
              case Retry => if e.retry.Some? then [Decimal(e.retry.value)] else []
              case _ => []
  {
    hide FieldOf, FieldLine, Decimal, KindOf, Values, ValidUtf8, PlainData;
    Names();
    var event := [FieldLine(EVENT, e.event)];
    ReadField(EVENT, e.event);
    ValuesOne(event[0], kind);
    ValuesConcat(event + IdLines(e.id), RetryLines(e.retry), kind);
    ValuesConcat(event, IdLines(e.id), kind);
    ValuesNone(kind);
    if e.id.Some? {
      ReadField(ID, e.id.value);
      ValuesOne(FieldLine(ID, e.id.value), kind);
    }
    if e.retry.Some? {
      var digits := Decimal(e.retry.value);
      ReadField(RETRY, digits);
      ValuesOne(FieldLine(RETRY, digits), kind);
      assert Digit(digits[|digits| - 1]);
    }
  }

  lemma ValuesNone(kind: Kind)
    ensures Values([], kind) == []
  {
  }

  // ------------------------------------------------------------ the data

  lemma {:induction false} JoinCons(v: Bytes, values: seq<Bytes>)
    requires values != []
    ensures Join([v] + values) == v + [LF] + Join(values)
  {
    var all := [v] + values;
    if |values| == 1 {
      assert all[..1] == [v] && all[1] == values[0];
    } else {
      var front := values[..|values| - 1];
      JoinCons(v, front);
      assert all[..|all| - 1] == [v] + front;
      Assoc(v + [LF], Join(front), [LF]);
      Assoc(v + [LF], Join(front) + [LF], values[|values| - 1]);
    }
  }

  lemma SplitAt(data: Bytes, n: nat)
    requires n < |data| && data[n] == LF
    ensures data == data[..n] + [LF] + data[n + 1..]
  {
  }

  lemma PiecesNext(data: Bytes)
    ensures Find(LF, data).None? ==> Pieces(data) == [data]
    ensures Find(LF, data).Some? ==>
              var n := Find(LF, data).value;
              Pieces(data) == [data[..n]] + Pieces(data[n + 1..]) && data == data[..n] + [LF] + data[n + 1..]
  {
    hide Find;
    if Find(LF, data).Some? { SplitAt(data, Find(LF, data).value); }
  }

  /** Writing out the pieces with line feeds between them gives the data back. */
  lemma {:induction false} JoinPieces(data: Bytes)
    ensures Join(Pieces(data)) == data
    decreases |data|
  {
    hide Join, Pieces, Find;
    PiecesNext(data);
    if Find(LF, data).None? {
      JoinOne(data);
    } else {
      var rest := data[Find(LF, data).value + 1..];
      JoinPieces(rest);
      JoinCons(data[..Find(LF, data).value], Pieces(rest));
    }
  }

  lemma JoinOne(v: Bytes)
    ensures Join([v]) == v
  {
  }

  lemma {:induction false} PiecesAreLines(data: Bytes)
    ensures forall p :: p in Pieces(data) ==> LF !in p
    decreases |data|
  {
    var cut := Find(LF, data);
    if cut.Some? {
      PiecesAreLines(data[cut.value + 1..]);
      hide Find;
    }
  }

  lemma {:induction false} StripNothing(values: seq<Bytes>)
    requires forall v :: v in values ==> v == [] || v[|v| - 1] != CR
    ensures StripAll(values) == values
  {
    if values != [] {
      StripNothing(values[..|values| - 1]);
      assert values == values[..|values| - 1] + [values[|values| - 1]];
    }
  }

  /** What is read back from data written with one field line per piece. */
  function ReadBack(data: Bytes): Bytes { Join(DropLeadingEmpty(StripAll(Pieces(data)))) }

  lemma PlainDataReadsBack(data: Bytes)
    requires PlainData(data)
    ensures ReadBack(data) == data
  {
    var pieces := Pieces(data);
    FirstPiece(data);
    hide Pieces, Join, StripAll;
    StripNothing(pieces);
    JoinPieces(data);
    if pieces[0] == [] {
      JoinNothing(data);
    }
  }

  /** The first piece is empty only when the data is, or starts with a line feed. */
  lemma FirstPiece(data: Bytes)
    ensures Pieces(data)[0] == [] ==> data == [] || data[0] == LF
    ensures data == [] ==> Pieces(data) == [[]]
  {
  }

  lemma JoinNothing(data: Bytes)
    requires data == []
    ensures Join(DropLeadingEmpty([[]])) == data
  {
    assert DropLeadingEmpty([[]]) == [];
  }

  /** Total length of the joined values. */
  lemma {:induction false} JoinDrop(values: seq<Bytes>)
    ensures |Join(DropLeadingEmpty(values))| <= |Join(values)|
    ensures |values| > 1 && values[0] == [] ==> |Join(DropLeadingEmpty(values))| < |Join(values)|
    decreases |values|
  {
    if values != [] && values[0] == [] {
      JoinDrop(values[1..]);
      if |values| > 1 {
        assert values == [values[0]] + values[1..];
        JoinCons(values[0], values[1..]);
      }
    }
  }

  predicate EndsInCr(v: Bytes) { v != [] && v[|v| - 1] == CR }

  lemma StripShortens(v: Bytes)
    ensures |StripCr(v)| <= |v| && (EndsInCr(v) ==> |StripCr(v)| < |v|)
  {
  }

  lemma {:induction false} JoinStrip(values: seq<Bytes>)
    ensures |StripAll(values)| == |values| && |Join(StripAll(values))| <= |Join(values)|
    ensures (exists v :: v in values && EndsInCr(v)) ==> |Join(StripAll(values))| < |Join(values)|
    ensures values != [] && values[0] == [] ==> StripAll(values)[0] == []
  {
    if values != [] {
      var front, last := values[..|values| - 1], values[|values| - 1];
      JoinStrip(front);
      StripShortens(last);
      hide EndsInCr;
      assert values == front + [last];
      if front == [] {
        assert StripAll(values) == [StripCr(last)];
      } else {
        hide StripCr;
        assert StripAll(values)[..|front|] == StripAll(front);
      }
    }
  }

  /** Data that is not plain loses at least one byte. */
  lemma LossyDataShrinks(data: Bytes)
    requires !PlainData(data)
    ensures |ReadBack(data)| < |data|
  {
    var pieces := Pieces(data);
    if data != [] && data[0] == LF {
      assert pieces[0] == data[..0];
    }
    hide Pieces;
    JoinPieces(data);
    JoinStrip(pieces);
    JoinDrop(StripAll(pieces));
  }

  /** Multi-line data is read back as written exactly when it is plain. */
  lemma DataReadsBackExactly(data: Bytes)
    ensures DataOf(DataLines(Pieces(data))) == data <==> PlainData(data)
  {
    hide Pieces, Values, PlainData, DataLines, StripAll;
    ValuesOfData(Pieces(data));
    if PlainData(data) {
      PlainDataReadsBack(data);
    } else {
      LossyDataShrinks(data);
    }
  }

  // ----------------------------------------------------------- the event

  lemma {:induction false} NoFault(lines: seq<Bytes>)
    requires forall l :: l in lines ==> FaultOf(l) == None
    ensures FirstFault(lines) == None
  {
    hide FaultOf;
    if lines != [] { NoFault(lines[..|lines| - 1]); }
  }

  /** Every piece of valid text is valid text. */
  lemma {:induction false} PiecesValid(data: Bytes)
    requires ValidUtf8(data)
    ensures forall p :: p in Pieces(data) ==> ValidUtf8(p)
    decreases |data|
  {
    hide ValidUtf8;
    match Find(LF, data)
    case None =>
    case Some(n) =>
      assert data == data[..n] + [LF] + data[n + 1..];
      ValidSplitAtLf(data[..n], data[n + 1..]);
      PiecesValid(data[n + 1..]);
  }

  /** The lines of a written event keep their shape and have no fault. */
  predicate GoodLine(l: Bytes) { LF !in l && !Blank(l) && FaultOf(l) == None }

  lemma GoodField(name: Bytes, value: Bytes)
    requires COLON !in name && name != [] && LF !in name
    requires LineValue(value)
    ensures GoodLine(FieldLine(name, value))
  {
    hide FieldOf, ValidUtf8;
    ReadField(name, value);
    var line := FieldLine(name, value);
    assert line[|name|] == COLON && |line| >= 3;
  }

  lemma {:induction false} GoodDataLines(pieces: seq<Bytes>)
    requires forall p :: p in pieces ==> LineValue(p)
    ensures forall l :: l in DataLines(pieces) ==> GoodLine(l)
  {
    hide GoodLine, LineValue, FieldLine;
    if pieces != [] {
      GoodDataLines(pieces[..|pieces| - 1]);
      Names();
      GoodField(DATA, pieces[|pieces| - 1]);
    }
  }

  lemma GoodHeadLines(e: SseEvent)
    requires Writable(e)
    ensures forall l :: l in HeadLines(e) ==> GoodLine(l)
  {
    hide GoodLine, FieldLine, ValidUtf8, PlainData, Decimal;
    Names();
    GoodField(EVENT, e.event);
    if e.id.Some? { GoodField(ID, e.id.value); }
    if e.retry.Some? {
      DecimalIsLineValue(e.retry.value);
      GoodField(RETRY, Decimal(e.retry.value));
    }
  }

  lemma DecimalIsLineValue(n: nat)
    ensures LineValue(Decimal(n)) && ValidUtf8(Decimal(n))
  {
    hide Decimal, ValidUtf8;
    var s := Decimal(n);
    assert forall i :: 0 <= i < |s| ==> Digit(s[i]);
    ValidAscii(s);
  }

  lemma EventLinesGood(e: SseEvent)
    requires Writable(e)
    ensures forall l :: l in EventLines(e) ==> GoodLine(l)
  {
    hide GoodLine, HeadLines, DataLines, ValidUtf8, Pieces;
    GoodHeadLines(e);
    PiecesValid(e.data);
    PiecesAreLines(e.data);
    GoodDataLines(Pieces(e.data));
  }

  /** One written frame reads as the event that was written. */
  lemma FrameReadsBack(e: SseEvent, lastId: Option<Bytes>)
    requires Writable(e)
    ensures EventOf(EventLines(e), lastId) == e.(id := OrElse(e.id, lastId))
    ensures FrameId(EventLines(e)) == e.id
  {
    EventNameAndData(e);
    IdReadsBack(e);
    RetryReadsBack(e);
  }

  lemma EventNameAndData(e: SseEvent)
    requires Writable(e)
    ensures EventName(EventLines(e)) == e.event && DataOf(EventLines(e)) == e.data
  {
    hide HeadLines, DataLines, Values, Pieces, ValidUtf8, Join, DropLeadingEmpty, StripAll, PlainData;
    AllValues(e, Event);
    AllValues(e, Data);
    PlainDataReadsBack(e.data);
  }

  /** The values of each kind among the lines of any event. */
  lemma ValuesOfEvent(e: SseEvent, kind: Kind)
    ensures Values(EventLines(e), kind) ==
              match kind
              case Event => [StripCr(e.event)]
              case Data => StripAll(Pieces(e.data))
              case Id => if e.id.Some? then [StripCr(e.id.value)] else []
              case Retry => if e.retry.Some? then [Decimal(e.retry.value)] else []
              case Other => Values(EventLines(e), Other)
  {
    hide HeadLines, DataLines, Values, Pieces, StripCr, Decimal, StripAll;
    ValuesConcat(HeadLines(e), DataLines(Pieces(e.data)), kind);
    ValuesOfHead(e, kind);
    ValuesOfData(Pieces(e.data));
  }

  /** The values of each kind in a written frame. */
  lemma AllValues(e: SseEvent, kind: Kind)
    requires Writable(e)
    ensures Values(EventLines(e), kind) ==
              match kind
              case Event => [e.event]
              case Data => StripAll(Pieces(e.data))
              case Id => if e.id.Some? then [e.id.value] else []
              case Retry => if e.retry.Some? then [Decimal(e.retry.value)] else []
              case Other => Values(EventLines(e), Other)
  {
    hide EventLines, Values, Pieces, ValidUtf8, Decimal, StripAll;
    ValuesOfEvent(e, kind);
  }

  lemma FilterOne(v: Bytes, keep: Bytes -> bool)
    ensures Filter([v], keep) == if keep(v) then [v] else []
    ensures Filter([], keep) == []
  {
    FilterSnoc([], v, keep);
    assert [] + [v] == [v];
  }

  lemma IdReadsBack(e: SseEvent)
    requires Writable(e)
    ensures FrameId(EventLines(e)) == e.id
  {
    hide EventLines, Values, ValidUtf8, Filter, PlainData;
    AllValues(e, Id);
    FilterOne(if e.id.Some? then e.id.value else [], UsableId);
  }

  lemma RetryReadsBack(e: SseEvent)
    requires Writable(e)
    ensures RetryOf(EventLines(e)) == e.retry
  {
    hide EventLines, Values, ValidUtf8, Filter, PlainData, Decimal, Trim, ParseU64;
    AllValues(e, Retry);
    if e.retry.Some? {
      DecimalIsLineValue(e.retry.value);
      DecimalRoundTrip(e.retry.value);
      FilterOne(Decimal(e.retry.value), ValidUtf8);
    } else {
      FilterOne([], ValidUtf8);
    }
  }

  // ---------------------------------------------------------- the stream

  /** The events as a reader sees them: an event written without an id carries the last one before it. */
  function Inherit(events: seq<SseEvent>, lastId: Option<Bytes>): seq<SseEvent> {
    if events == [] then []
    else
      var id := OrElse(events[0].id, lastId);
      [events[0].(id := id)] + Inherit(events[1..], id)
  }

  function LastWritten(events: seq<SseEvent>, lastId: Option<Bytes>): Option<Bytes> {
    if events == [] then lastId else LastWritten(events[1..], OrElse(events[0].id, lastId))
  }

  lemma {:induction false} DecodeWritten(events: seq<SseEvent>, lastId: Option<Bytes>)
    requires forall e :: e in events ==> Writable(e)
    ensures Decode(WriteAll(events), lastId) == Reading(Inherit(events, lastId), LastWritten(events, lastId), [], None)
    decreases |events|
  {
    if events != [] {
      hide EventLines, Writable, EventOf, FrameId, FirstFault, Unlines, CutFrame;
      var e, rest := events[0], WriteAll(events[1..]);
      OneWritten(e, rest);
      FrameReadsBack(e, lastId);
      DecodeWritten(events[1..], OrElse(e.id, lastId));
    } else {
      assert Decode([], lastId) == Reading([], lastId, [], None);
    }
  }

  lemma OneWritten(e: SseEvent, rest: Bytes)
    requires Writable(e)
    ensures var s := WriteEvent(e) + rest;
            && CutFrame(s) == Frame(EventLines(e), |WriteEvent(e)|)
            && FirstFault(EventLines(e)) == None
            && s[|WriteEvent(e)|..] == rest
  {
    hide EventLines, Writable, Unlines, CutFrame, FaultOf, Blank;
    EventLinesGood(e);
    FrameOfLines(EventLines(e), rest);
    NoFault(EventLines(e));
  }

  /** Written events, cut into chunks anywhere, come back in order and leave nothing unread. */
  lemma RoundTrip(events: seq<SseEvent>, chunks: seq<Bytes>)
    requires forall e :: e in events ==> Writable(e)
    requires Flatten(chunks) == WriteAll(events)
    ensures var r := FeedAll(chunks);
            && Delivered(r.answers) == Inherit(events, None)
            && r.lastId == LastWritten(events, None)
            && r.buffer == []
  {
    hide Writable;
    DecodeWritten(events, None);
    RunState(chunks);
  }

  /** When every event names its own id, they come back exactly as written. */
  lemma {:induction false} InheritNothing(events: seq<SseEvent>, lastId: Option<Bytes>)
    requires forall i :: 0 <= i < |events| ==> events[i].id.Some?
    ensures Inherit(events, lastId) == events
  {
    if events != [] {
      InheritNothing(events[1..], OrElse(events[0].id, lastId));
    }
  }
}
