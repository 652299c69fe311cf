/** Every spelling of an event reads the same: with or without a space after the colon, with LF or CR LF line ends. */
module SseSpelling {
  import opened Common
  import opened Text
  import opened SseSpec
  import opened SseParser
  import opened SseRuns
  import opened SseRoundTrip
  import opened SseFields

  /** How one line is spelled. */
  datatype Form = Form(space: bool, cr: bool)

  /** A field line in the given form; a value that starts with a space needs one of its own in front. */
  function Spell(name: Bytes, value: Bytes, form: Form): Bytes {
    name + [COLON] + (if form.space || StartsWithSpace(value) then [SPACE] else []) + value
    + (if form.cr then [CR] else [])
  }

  // ---------------------------------------------------------------- fields

  /** The fields an event is written as. */
  function Fields(e: SseEvent): seq<(Bytes, Bytes)> {
    [(EVENT, e.event)]
    + (if e.id.Some? then [(ID, e.id.value)] else [])
    + (if e.retry.Some? then [(RETRY, Decimal(e.retry.value))] else [])
    + DataFields(Pieces(e.data))
  }

  function DataFields(pieces: seq<Bytes>): seq<(Bytes, Bytes)> {
    seq(|pieces|, i requires 0 <= i < |pieces| => (DATA, pieces[i]))
  }

  /** The lines of an event, each in a form of its own. */
  function SpelledLines(e: SseEvent, style: nat -> Form): seq<Bytes> {
    seq(|Fields(e)|, i requires 0 <= i < |Fields(e)| => Spell(Fields(e)[i].0, Fields(e)[i].1, style(i)))
  }

  lemma {:induction false} DataLinesAre(pieces: seq<Bytes>)
    ensures DataLines(pieces) == seq(|pieces|, i requires 0 <= i < |pieces| => FieldLine(DATA, pieces[i]))
  {
    hide FieldLine;
    if pieces != [] {
      var front := pieces[..|pieces| - 1];
      DataLinesAre(front);
      assert pieces == front + [pieces[|pieces| - 1]];
    }
  }

  lemma PlainLines(e: SseEvent)
    ensures |EventLines(e)| == |Fields(e)|
    ensures forall i :: 0 <= i < |Fields(e)| ==> EventLines(e)[i] == FieldLine(Fields(e)[i].0, Fields(e)[i].1)
  {
    hide FieldLine, Decimal, Pieces;
    DataLinesAre(Pieces(e.data));
  }

  predicate FieldName(name: Bytes) { COLON !in name && LF !in name && name != [] }

  lemma NamesNotEmpty()
    ensures EVENT != [] && DATA != [] && ID != [] && RETRY != []
  {
  }

  lemma FieldsAreLines(e: SseEvent)
    requires Writable(e)
    ensures forall i :: 0 <= i < |Fields(e)| ==> FieldName(Fields(e)[i].0) && LineValue(Fields(e)[i].1)
  {
    hide Decimal, Pieces, ValidUtf8, UsableId, EVENT, DATA, ID, RETRY;
    Names();
    NamesNotEmpty();
    PiecesAreLines(e.data);
    PiecesValid(e.data);
    if e.retry.Some? { DecimalIsLineValue(e.retry.value); }
  }

  // ----------------------------------------------------------------- lines

  lemma SpelledShape(name: Bytes, value: Bytes, form: Form)
    requires FieldName(name) && LineValue(value)
    ensures var l := Spell(name, value, form); LF !in l && !Blank(l)
  {
    hide ValidUtf8;
    var l := Spell(name, value, form);
    assert l[|name|] == COLON;
  }

  /** The spelling makes no difference to the field. */
  lemma SpelledField(name: Bytes, value: Bytes, form: Form)
    requires FieldName(name) && LineValue(value)
    ensures FieldOf(Spell(name, value, form)) == FieldOf(FieldLine(name, value))
  {
    ValueOfLine(name, value);
    SpellForms(name, value, form);
    PlainForm(name, value);
    hide FieldOf, Spell, FieldLine, KindOf, ValidUtf8;
  }

  lemma PlainForm(name: Bytes, value: Bytes)
    ensures FieldLine(name, value) == name + [COLON] + [SPACE] + value
  {
  }

  lemma SpellForms(name: Bytes, value: Bytes, form: Form)
    ensures var spaced := form.space || StartsWithSpace(value);
            Spell(name, value, form) ==
              if spaced && form.cr then name + [COLON] + [SPACE] + value + [CR]
              else if spaced then name + [COLON] + [SPACE] + value
              else if form.cr then name + [COLON] + value + [CR]
              else name + [COLON] + value
  {
    hide StartsWithSpace;
  }

  // ------------------------------------------------ lines with equal fields

  /** Line by line, the same field. */
  ghost predicate SameFields(a: seq<Bytes>, b: seq<Bytes>) {
    |a| == |b| && forall i :: 0 <= i < |a| ==> FieldOf(a[i]) == FieldOf(b[i])
  }

  lemma {:induction false} SameDraft(a: seq<Bytes>, b: seq<Bytes>)
    requires SameFields(a, b)
    ensures DraftOf(a) == DraftOf(b) && FirstFault(a) == FirstFault(b)
  {
    hide DraftOf, FieldOf;
    if a != [] {
      var x, y := a[|a| - 1], b[|a| - 1];
      SameDraft(a[..|a| - 1], b[..|a| - 1]);
      DraftSnoc(a[..|a| - 1], x);
      DraftSnoc(b[..|a| - 1], y);
      assert a == a[..|a| - 1] + [x] && b == b[..|a| - 1] + [y];
      hide ValidUtf8, ParseU64, Trim;
    }
  }

  /** An event depends on the fields of its lines only. */
  lemma SameEvent(a: seq<Bytes>, b: seq<Bytes>, lastId: Option<Bytes>)
    requires SameFields(a, b)
    ensures EventOf(a, lastId) == EventOf(b, lastId) && FrameId(a) == FrameId(b) && FirstFault(a) == FirstFault(b)
  {
    SameDraft(a, b);
    DraftMeaning(a, DraftOf(a), lastId);
    DraftMeaning(b, DraftOf(b), lastId);
    hide DraftOf, EventOf, FrameId, FirstFault;
  }

  /** Lines that can stand in a frame. */
  ghost predicate Proper(lines: seq<Bytes>) { forall l :: l in lines ==> LF !in l && !Blank(l) }

  lemma SpelledAsPlain(e: SseEvent, style: nat -> Form)
    requires Writable(e)
    ensures SameFields(SpelledLines(e, style), EventLines(e))
    ensures Proper(SpelledLines(e, style))
  {
    hide FieldOf, Fields, Spell, FieldLine, Writable, EventLines, LineValue, FieldName, Blank;
    FieldsAreLines(e);
    PlainLines(e);
    var lines := SpelledLines(e, style);
    forall i | 0 <= i < |lines|
      ensures FieldOf(lines[i]) == FieldOf(EventLines(e)[i]) && LF !in lines[i] && !Blank(lines[i])
    {
      SpelledField(Fields(e)[i].0, Fields(e)[i].1, style(i));
      SpelledShape(Fields(e)[i].0, Fields(e)[i].1, style(i));
    }
  }

  // -------------------------------------------------------------- a stream

  /** An event in any spelling, and the blank line after it with or without a carriage return. */
  function WriteSpelled(e: SseEvent, style: nat -> Form, crBlank: bool): Bytes {
    Unlines(SpelledLines(e, style)) + (if crBlank then [CR] else []) + [LF]
  }

  /** The spelling of one event. */
  datatype Style = Style(lines: nat -> Form, crBlank: bool)

  function WriteAllSpelled(events: seq<SseEvent>, styles: nat -> Style): Bytes {
    if events == [] then []
    else
      WriteAllSpelled(events[..|events| - 1], styles)
      + WriteSpelled(events[|events| - 1], styles(|events| - 1).lines, styles(|events| - 1).crBlank)
  }

  /** Lines, none blank, and a blank line in either form are exactly one frame. */
  lemma {:induction false} FrameBeforeBlank(lines: seq<Bytes>, blank: Bytes, rest: Bytes)
    requires (forall l :: l in lines ==> LF !in l && !Blank(l)) && (blank == [] || blank == [CR])
    ensures CutFrame(Unlines(lines) + blank + [LF] + rest) == Frame(lines, |Unlines(lines)| + |blank| + 1)
  {
    hide CutFrame;
    if lines == [] {
      assert Unlines(lines) + blank + [LF] + rest == blank + [LF] + rest;
      CutAnyBlank(blank, rest);
    } else {
      var after := Unlines(lines[1..]) + blank + [LF] + rest;
      FrameBeforeBlank(lines[1..], blank, rest);
      CutLine(lines[0], after);
      assert Unlines(lines) + blank + [LF] + rest == lines[0] + [LF] + after;
      assert lines == [lines[0]] + lines[1..];
    }
  }

  lemma CutAnyBlank(blank: Bytes, rest: Bytes)
    requires blank == [] || blank == [CR]
    ensures CutFrame(blank + [LF] + rest) == Frame([], |blank| + 1)
  {
    FindAt(LF, blank, rest);
    assert (blank + [LF] + rest)[..|blank|] == blank;
  }

  lemma OneFrameOnly(s: Bytes, lines: seq<Bytes>, lastId: Option<Bytes>)
    requires CutFrame(s) == Frame(lines, |s|) && FirstFault(lines) == None
    ensures Decode(s, lastId) == Reading([EventOf(lines, lastId)], OrElse(FrameId(lines), lastId), [], None)
  {
    hide CutFrame, EventOf, FrameId, FirstFault;
    assert s[|s|..] == [];
    NothingToRead(OrElse(FrameId(lines), lastId));
  }

  lemma FrameAlone(lines: seq<Bytes>, blank: Bytes)
    requires Proper(lines) && (blank == [] || blank == [CR])
    ensures var s := Unlines(lines) + blank + [LF]; CutFrame(s) == Frame(lines, |s|)
  {
    hide CutFrame, Unlines, Blank;
    FrameBeforeBlank(lines, blank, []);
    assert Unlines(lines) + blank + [LF] + [] == Unlines(lines) + blank + [LF];
  }

  lemma SpelledFrame(e: SseEvent, style: Style)
    requires Writable(e)
    ensures var s := WriteSpelled(e, style.lines, style.crBlank);
            CutFrame(s) == Frame(SpelledLines(e, style.lines), |s|)
  {
    hide SpelledLines, EventLines, CutFrame, Unlines, Writable, SameFields, Proper;
    SpelledAsPlain(e, style.lines);
    FrameAlone(SpelledLines(e, style.lines), if style.crBlank then [CR] else []);
  }

  lemma SpelledAlone(e: SseEvent, style: Style, lastId: Option<Bytes>)
    requires Writable(e)
    ensures Decode(WriteSpelled(e, style.lines, style.crBlank), lastId) ==
              Reading([e.(id := OrElse(e.id, lastId))], OrElse(e.id, lastId), [], None)
  {
    hide Decode, WriteSpelled, SpelledLines, EventLines, CutFrame, EventOf, FrameId, FirstFault, Writable, SameFields;
    SpelledFrame(e, style);
    SpelledAsPlain(e, style.lines);
    FrameReadsBack(e, lastId);
    FrameOfEvent(e);
    SameEvent(SpelledLines(e, style.lines), EventLines(e), lastId);
    OneFrameOnly(WriteSpelled(e, style.lines, style.crBlank), SpelledLines(e, style.lines), lastId);
  }

  lemma FrameOfEvent(e: SseEvent)
    requires Writable(e)
    ensures FirstFault(EventLines(e)) == None
  {
    EventLinesGood(e);
    hide EventLines, Writable, Blank, FaultOf;
    NoFault(EventLines(e));
  }

  lemma NothingToRead(lastId: Option<Bytes>)
    ensures Decode([], lastId) == Reading([], lastId, [], None)
  {
  }

  lemma {:induction false} InheritSnoc(events: seq<SseEvent>, e: SseEvent, lastId: Option<Bytes>)
    ensures Inherit(events + [e], lastId) ==
              Inherit(events, lastId) + [e.(id := OrElse(e.id, LastWritten(events, lastId)))]
    ensures LastWritten(events + [e], lastId) == OrElse(e.id, LastWritten(events, lastId))
  {
    var more := events + [e];
    if events == [] {
      assert more == [e] && more[1..] == [];
    } else {
      assert more[1..] == events[1..] + [e];
      InheritSnoc(events[1..], e, OrElse(events[0].id, lastId));
    }
  }

  lemma {:induction false} DecodeSpelled(events: seq<SseEvent>, styles: nat -> Style)
    requires forall e :: e in events ==> Writable(e)
    ensures Decode(WriteAllSpelled(events, styles), None) ==
              Reading(Inherit(events, None), LastWritten(events, None), [], None)
  {
    hide Writable, WriteSpelled, Decode;
    if events == [] {
      NothingToRead(None);
    } else {
      var front, e, style := events[..|events| - 1], events[|events| - 1], styles(|events| - 1);
      assert events == front + [e];
      DecodeSpelled(front, styles);
      DecodeAppend(WriteAllSpelled(front, styles), WriteSpelled(e, style.lines, style.crBlank), None);
      SpelledAlone(e, style, LastWritten(front, None));
      InheritSnoc(front, e, None);
      assert [] + WriteSpelled(e, style.lines, style.crBlank) == WriteSpelled(e, style.lines, style.crBlank);
    }
  }

  /**
    Writable events come back, in order and with nothing left unread, whatever form each of their lines and blank lines
    is written in and wherever the bytes are cut.
   */
  lemma AnySpellingReadsBack(events: seq<SseEvent>, styles: nat -> Style, chunks: seq<Bytes>)
    requires forall e :: e in events ==> Writable(e)
    requires Flatten(chunks) == WriteAllSpelled(events, styles)
    ensures var r := FeedAll(chunks);
            && Delivered(r.answers) == Inherit(events, None)
            && r.lastId == LastWritten(events, None)
            && r.buffer == []
  {
    hide Writable;
    DecodeSpelled(events, styles);
    RunState(chunks);
  }
}
