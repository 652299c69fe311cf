/** Which events survive being written and read: exactly the writable ones. */
module SseWritable {
  import opened Common
  import opened Text
  import opened SseSpec
  import opened SseParser
  import opened SseMeaning
  import opened SseRoundTrip

  // ------------------------------------------------- no event holds a newline

  lemma {:induction false} FrameLinesWhole(s: Bytes)
    ensures CutFrame(s).Frame? ==> forall l :: l in CutFrame(s).lines ==> LF !in l
    decreases |s|
  {
    var cut := Find(LF, s);
    if cut.Some? && !Blank(s[..cut.value]) { FrameLinesWhole(s[cut.value + 1..]); }
    hide Find, Blank;
  }

  lemma FieldWhole(line: Bytes)
    requires LF !in line
    ensures FieldOf(line).Field? ==> LF !in FieldOf(line).value
  {
    hide KindOf, Find;
  }

  lemma {:induction false} ValuesWhole(lines: seq<Bytes>, kind: Kind)
    requires forall l :: l in lines ==> LF !in l
    ensures forall v :: v in Values(lines, kind) ==> LF !in v
  {
    hide FieldOf;
    if lines != [] {
      ValuesWhole(lines[..|lines| - 1], kind);
      FieldWhole(lines[|lines| - 1]);
    }
  }

  lemma MessageWhole()
    ensures LF !in MESSAGE
  {
  }

  /** Neither the name nor the id of an event that was read contains a line feed. */
  predicate WholeEvent(e: SseEvent) { LF !in e.event && (e.id.Some? ==> LF !in e.id.value) }

  lemma EventWhole(lines: seq<Bytes>, lastId: Option<Bytes>)
    requires forall l :: l in lines ==> LF !in l
    requires lastId.Some? ==> LF !in lastId.value
    ensures WholeEvent(EventOf(lines, lastId)) && (FrameId(lines).Some? ==> LF !in FrameId(lines).value)
  {
    ValuesWhole(lines, Event);
    ValuesWhole(lines, Id);
    FilterMember(Values(lines, Id), UsableId);
    MessageWhole();
    hide Values, Filter, MESSAGE, DataOf, RetryOf;
  }

  lemma {:induction false} EventsWhole(s: Bytes, lastId: Option<Bytes>)
    requires lastId.Some? ==> LF !in lastId.value
    ensures forall e :: e in Decode(s, lastId).events ==> WholeEvent(e)
    decreases |s|
  {
    hide EventOf, FrameId, FirstFault, WholeEvent;
    var cut := CutFrame(s);
    if cut.Frame? && FirstFault(cut.lines).None? {
      FrameLinesWhole(s);
      EventWhole(cut.lines, lastId);
      EventsWhole(s[cut.used..], OrElse(FrameId(cut.lines), lastId));
    }
  }

  // --------------------------------------------------- the lines of an event

  /** A line that can stand in a frame. */
  predicate FrameLine(l: Bytes) { LF !in l && !Blank(l) }

  lemma FieldIsLine(name: Bytes, value: Bytes)
    requires COLON !in name && name != [] && LF !in name && LF !in value
    ensures FrameLine(FieldLine(name, value))
  {
    var line := FieldLine(name, value);
    assert line[|name|] == COLON && |line| >= 3;
  }

  lemma {:induction false} DataIsLines(pieces: seq<Bytes>)
    requires forall p :: p in pieces ==> LF !in p
    ensures forall l :: l in DataLines(pieces) ==> FrameLine(l)
  {
    hide FrameLine, FieldLine;
    if pieces != [] {
      DataIsLines(pieces[..|pieces| - 1]);
      Names();
      FieldIsLine(DATA, pieces[|pieces| - 1]);
    }
  }

  lemma EventIsLines(e: SseEvent)
    requires WholeEvent(e)
    ensures forall l :: l in EventLines(e) ==> FrameLine(l)
  {
    hide FrameLine, FieldLine, DataLines, Decimal, Pieces;
    Names();
    FieldIsLine(EVENT, e.event);
    if e.id.Some? { FieldIsLine(ID, e.id.value); }
    if e.retry.Some? {
      DecimalIsLineValue(e.retry.value);
      FieldIsLine(RETRY, Decimal(e.retry.value));
    }
    PiecesAreLines(e.data);
    DataIsLines(Pieces(e.data));
  }

  /** A written event is read as one frame: the lines it was written as. */
  lemma OneFrame(e: SseEvent)
    requires WholeEvent(e)
    ensures CutFrame(WriteEvent(e)) == Frame(EventLines(e), |WriteEvent(e)|)
  {
    EventIsLines(e);
    hide EventLines, Unlines, CutFrame, Blank, WholeEvent;
    FrameOfLines(EventLines(e), []);
    assert Unlines(EventLines(e)) + [LF] + [] == WriteEvent(e);
  }

  lemma ReadAlone(e: SseEvent)
    requires WholeEvent(e) && Decode(WriteEvent(e), None) == Reading([e], e.id, [], None)
    ensures EventOf(EventLines(e), None) == e
  {
    OneFrame(e);
    hide EventLines, WriteEvent, CutFrame, EventOf, FrameId, FirstFault, WholeEvent;
    assert Decode(WriteEvent(e), None).events[0] == EventOf(EventLines(e), None);
  }

  // ------------------------------------------------------------- exactness

  lemma NoStrip(v: Bytes)
    requires StripCr(v) == v
    ensures v == [] || v[|v| - 1] != CR
  {
  }

  lemma NameSurvives(e: SseEvent)
    requires EventName(EventLines(e)) == e.event
    ensures e.event == [] || e.event[|e.event| - 1] != CR
  {
    ValuesOfEvent(e, Event);
    hide EventLines, Values;
    NoStrip(e.event);
  }

  lemma IdSurvives(e: SseEvent)
    requires OrElse(FrameId(EventLines(e)), None) == e.id && e.id.Some?
    ensures UsableId(e.id.value) && e.id.value[|e.id.value| - 1] != CR
  {
    ValuesOfEvent(e, Id);
    hide EventLines, Values, Filter;
    FilterOne(StripCr(e.id.value), UsableId);
    NoStrip(e.id.value);
  }

  lemma RetrySurvives(e: SseEvent)
    requires RetryOf(EventLines(e)) == e.retry && e.retry.Some?
    ensures e.retry.value <= U64_MAX
  {
  }

  lemma DataSurvives(e: SseEvent)
    requires DataOf(EventLines(e)) == e.data
    ensures PlainData(e.data)
  {
    ValuesOfEvent(e, Data);
    hide EventLines, Values, Pieces, Join, DropLeadingEmpty, StripAll, PlainData;
    if !PlainData(e.data) { LossyDataShrinks(e.data); }
  }

  lemma ReadBackIsWritable(e: SseEvent)
    requires Decode(WriteEvent(e), None) == Reading([e], e.id, [], None)
    ensures Writable(e)
  {
    EventsWhole(WriteEvent(e), None);
    EventsAreText(WriteEvent(e), None);
    assert e in Decode(WriteEvent(e), None).events;
    ReadAlone(e);
    hide Decode, WriteEvent, EventLines, EventName, DataOf, FrameId, RetryOf, ValidUtf8, PlainData, UsableId;
    NameSurvives(e);
    if e.id.Some? { IdSurvives(e); }
    if e.retry.Some? { RetrySurvives(e); }
    DataSurvives(e);
  }

  /**
    An event that is written alone and read is the event itself, with nothing left over, if and only if its name and id
    are valid single lines not ending in a carriage return, its id is usable, its retry is a u64, and its data is valid
    and plain.
   */
  lemma ReadsBackIffWritable(e: SseEvent)
    ensures Decode(WriteEvent(e), None) == Reading([e], e.id, [], None) <==> Writable(e)
  {
    if Writable(e) {
      hide WriteEvent, Decode, Writable;
      DecodeWritten([e], None);
      WriteOne(e);
    } else {
      hide WriteEvent, Decode, Writable;
      if Decode(WriteEvent(e), None) == Reading([e], e.id, [], None) { ReadBackIsWritable(e); }
    }
  }

  lemma WriteOne(e: SseEvent)
    ensures WriteAll([e]) == WriteEvent(e)
    ensures Inherit([e], None) == [e] && LastWritten([e], None) == e.id
  {
    hide WriteEvent;
    assert [e][1..] == [];
    assert WriteEvent(e) + [] == WriteEvent(e);
    assert e.(id := OrElse(e.id, None)) == e;
  }
}
