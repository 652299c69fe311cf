/** What one field line contributes to an event, in the bytes of the line itself. */
module SseFields {
  import opened Common
  import opened Text
  import opened SseSpec
  import opened SseParser
  import opened SseRoundTrip

  // ----------------------------------------------------------------- names

  /** The separators of the format, and the five names it knows. */
  lemma FormatNames()
    ensures LF == '\n' as int && CR == '\r' as int && SPACE == ' ' as int && COLON == ':' as int
    ensures EVENT == Ascii("event") && DATA == Ascii("data") && ID == Ascii("id") && RETRY == Ascii("retry")
    ensures MESSAGE == Ascii("message")
  {
  }

  lemma KindsByName(name: Bytes)
    ensures KindOf(name) == Event <==> name == Ascii("event")
    ensures KindOf(name) == Data <==> name == Ascii("data")
    ensures KindOf(name) == Id <==> name == Ascii("id")
    ensures KindOf(name) == Retry <==> name == Ascii("retry")
  {
    FormatNames();
    hide EVENT, DATA, ID, RETRY, MESSAGE;
    assert |Ascii("event")| == 5 && |Ascii("data")| == 4 && |Ascii("id")| == 2 && |Ascii("retry")| == 5;
    assert Ascii("event")[0] != Ascii("retry")[0];
  }

  // ----------------------------------------------------------------- lines

  predicate StartsWithSpace(v: Bytes) { v != [] && v[0] == SPACE }

  predicate EndsWithCr(v: Bytes) { v != [] && v[|v| - 1] == CR }

  lemma SplitAtColon(name: Bytes, after: Bytes)
    requires COLON !in name && !EndsWithCr(name + [COLON] + after)
    ensures FieldOf(name + [COLON] + after) == Field(KindOf(name), StripSpace(after))
  {
    hide KindOf, StripSpace;
    var line := name + [COLON] + after;
    FindAt(COLON, name, after);
    assert line[..|name|] == name && line[|name| + 1..] == after;
  }

  /** One carriage return at the end of a line is not part of it, whatever stands before it. */
  lemma CrIsDropped(line: Bytes)
    requires !EndsWithCr(line)
    ensures FieldOf(line + [CR]) == FieldOf(line)
  {
    hide KindOf, Find, StripSpace;
    assert (line + [CR])[..|line|] == line;
  }

  /**
    A line is a name, a colon and a value. The value begins behind the colon, or behind one space after it; a second
    space is part of the value.
   */
  lemma ValueOfLine(name: Bytes, value: Bytes)
    requires COLON !in name && !EndsWithCr(value)
    ensures !StartsWithSpace(value) ==> FieldOf(name + [COLON] + value) == Field(KindOf(name), value)
    ensures FieldOf(name + [COLON] + [SPACE] + value) == Field(KindOf(name), value)
    ensures FieldOf(name + [COLON] + [SPACE] + value + [CR]) == Field(KindOf(name), value)
    ensures !StartsWithSpace(value) ==> FieldOf(name + [COLON] + value + [CR]) == Field(KindOf(name), value)
  {
    hide FieldOf, KindOf;
    var spaced := [SPACE] + value;
    assert spaced[1..] == value;
    LastOf(name, value);
    LastOf(name, spaced);
    assert name + [COLON] + [SPACE] + value == name + [COLON] + spaced;
    SplitAtColon(name, value);
    SplitAtColon(name, spaced);
    CrIsDropped(name + [COLON] + value);
    CrIsDropped(name + [COLON] + spaced);
  }

  lemma LastOf(name: Bytes, after: Bytes)
    requires !EndsWithCr(after)
    ensures !EndsWithCr(name + [COLON] + after)
  {
    var line := name + [COLON] + after;
    if after == [] { assert line[|line| - 1] == COLON; } else { assert line[|line| - 1] == after[|after| - 1]; }
  }

  /** A line without a colon says nothing. */
  lemma NoColonNoField(line: Bytes)
    requires COLON !in line
    ensures FieldOf(line) == Ignored
  {
    assert COLON !in StripCr(line);
  }

  // ---------------------------------------------------- one more line

  /**
    What one more line changes in an event: an `event` value replaces the name; a `data` value is added, with a line
    feed when there is data already; a usable `id` replaces the id; a UTF-8 `retry` replaces the retry. Nothing else
    changes anything.
   */
  lemma OneMoreLine(lines: seq<Bytes>, line: Bytes, kind: Kind, v: Bytes)
    requires FieldOf(line) == Field(kind, v)
    ensures var more := lines + [line];
            && EventName(more) == (if kind == Event then v else EventName(lines))
            && DataOf(more) == (if kind != Data then DataOf(lines) else if DataOf(lines) == [] then v
                                else DataOf(lines) + [LF] + v)
            && FrameId(more) == (if kind == Id && v != [] && 0 !in v then Some(v) else FrameId(lines))
            && RetryOf(more) == (if kind == Retry && ValidUtf8(v) then ParseU64(Trim(v)) else RetryOf(lines))
  {
    DraftSnoc(lines, line);
    EventNameOfDraft(lines);
    EventNameOfDraft(lines + [line]);
    hide EventName, DataOf, FrameId, RetryOf, FieldOf, ValidUtf8, ParseU64, Trim, Values;
  }

  lemma EventNameOfDraft(lines: seq<Bytes>)
    ensures EventName(lines) == (if DraftOf(lines).eventName.Some? then DraftOf(lines).eventName.value else MESSAGE)
  {
    hide Values, DataOf, FrameId, RetryOf;
  }

  lemma IgnoredLine(lines: seq<Bytes>, line: Bytes)
    requires FieldOf(line) == Ignored
    ensures var more := lines + [line];
            && EventName(more) == EventName(lines) && DataOf(more) == DataOf(lines)
            && FrameId(more) == FrameId(lines) && RetryOf(more) == RetryOf(lines)
  {
    DraftSnoc(lines, line);
    EventNameOfDraft(lines);
    EventNameOfDraft(lines + [line]);
    hide EventName, DataOf, FrameId, RetryOf, FieldOf, Values;
  }

  /** Before any line, an event is an empty message. */
  lemma NoLines()
    ensures EventName([]) == Ascii("message") && DataOf([]) == [] && FrameId([]) == None && RetryOf([]) == None
  {
    FormatNames();
  }

  // ---------------------------------------------------------------- faults

  /** The line is an `event`, `data` or `id` field whose value is not UTF-8. */
  predicate BadLine(line: Bytes) {
    var f := FieldOf(line);
    f.Field? && (f.kind == Event || f.kind == Data || f.kind == Id) && !ValidUtf8(f.value)
  }

  predicate NoneBad(lines: seq<Bytes>) { forall i :: 0 <= i < |lines| ==> !BadLine(lines[i]) }

  lemma BadIsFault(line: Bytes)
    ensures !BadLine(line) ==> FaultOf(line) == None
    ensures BadLine(line) ==>
              var kind := FieldOf(line).kind;
              FaultOf(line) == Some(if kind == Event then BadEvent else if kind == Data then BadData else BadId)
  {
    hide ValidUtf8, FieldOf;
  }

  /** A frame without a bad line has no fault. */
  lemma {:induction false} NoBadLineNoFault(lines: seq<Bytes>)
    requires NoneBad(lines)
    ensures FirstFault(lines) == None
  {
    hide BadLine, FaultOf;
    if lines != [] {
      NoBadLineNoFault(lines[..|lines| - 1]);
      BadIsFault(lines[|lines| - 1]);
    }
  }

  lemma FaultOfFirst(before: seq<Bytes>, line: Bytes, after: seq<Bytes>)
    requires NoneBad(before) && BadLine(line)
    ensures FirstFault(before + [line] + after) == FaultOf(line)
  {
    NoBadLineNoFault(before);
    BadIsFault(line);
    hide BadLine, FaultOf, FirstFault, FieldOf, NoneBad;
    FaultSnoc(before, line);
    FaultStays(before + [line], after);
  }

  /** The first bad line of a frame decides its fault. */
  lemma FirstBadLineDecides(lines: seq<Bytes>, i: nat)
    requires i < |lines| && BadLine(lines[i]) && NoneBad(lines[..i])
    ensures var kind := FieldOf(lines[i]).kind;
            FirstFault(lines) == Some(if kind == Event then BadEvent else if kind == Data then BadData else BadId)
  {
    hide FaultOf, FirstFault, FieldOf, NoneBad;
    FaultOfFirst(lines[..i], lines[i], lines[i + 1..]);
    BadIsFault(lines[i]);
    assert lines == lines[..i] + [lines[i]] + lines[i + 1..];
  }
}
