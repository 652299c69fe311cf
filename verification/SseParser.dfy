/** The buffer-and-cursor parser of `src/sse.rs`, proved against `SseSpec`. */
module SseParser {
  import opened Common
  import opened Text
  import opened SseSpec

  // ------------------------------------------------ facts about the lines

  lemma SplitFirst(s: Bytes) returns (line: Bytes, rest: Bytes)
    requires LF in s
    ensures s == line + [LF] + rest && LF !in line
    ensures s[|s| - 1] == LF ==> rest == [] || rest[|rest| - 1] == LF
  {
    var n := Find(LF, s).value;
    line, rest := s[..n], s[n + 1..];
  }

  lemma LinesAt(line: Bytes, after: Bytes)
    requires LF !in line
    ensures Lines(line + [LF] + after) == [line] + Lines(after)
  {
    var s := line + [LF] + after;
    FindAt(LF, line, after);
    assert s[..|line|] == line && s[|line| + 1..] == after;
  }

  /** Lines may be read in two halves wherever the first half ends with a line feed. */
  lemma {:induction false} LinesConcat(s: Bytes, t: Bytes)
    requires s == [] || s[|s| - 1] == LF
    ensures Lines(s + t) == Lines(s) + Lines(t)
    decreases |s|
  {
    if s == [] {
      assert s + t == t;
    } else {
      var line, rest := SplitFirst(s);
      LinesAt(line, rest);
      LinesAt(line, rest + t);
      Assoc(line + [LF], rest, t);
      LinesConcat(rest, t);
      Assoc([line], Lines(rest), Lines(t));
    }
  }

  lemma LinesUnfold(s: Bytes, n: nat)
    requires Find(LF, s) == Some(n)
    ensures Lines(s) == [s[..n]] + Lines(s[n + 1..])
  {
  }

  lemma LinesNone(s: Bytes)
    requires Find(LF, s) == None
    ensures Lines(s) == []
  {
  }

  /** Reading the next line of `frame`. */
  lemma LinesPeel(frame: Bytes, pos: nat, lines: seq<Bytes>, n: nat)
    requires pos <= |frame| && Find(LF, frame[pos..]) == Some(n)
    requires Lines(frame) == lines + Lines(frame[pos..])
    ensures Lines(frame) == lines + [frame[pos..][..n]] + Lines(frame[pos + n + 1..])
  {
    LinesUnfold(frame[pos..], n);
    hide Lines, Find;
    DropDrop(frame, pos, n + 1);
    Assoc(lines, [frame[pos..][..n]], Lines(frame[pos + n + 1..]));
  }

  lemma FaultSnoc(lines: seq<Bytes>, line: Bytes)
    ensures FirstFault(lines + [line]) == OrElse(FirstFault(lines), FaultOf(line))
  {
    assert (lines + [line])[..|lines|] == lines;
  }

  /** A fault found in the lines read so far is the frame's fault. */
  lemma {:induction false} FaultStays(lines: seq<Bytes>, more: seq<Bytes>)
    requires FirstFault(lines).Some?
    ensures FirstFault(lines + more) == FirstFault(lines)
  {
    if more == [] {
      assert lines + more == lines;
    } else {
      assert (lines + more)[..|lines + more| - 1] == lines + more[..|more| - 1];
      FaultStays(lines, more[..|more| - 1]);
    }
  }

  // ------------------------------------------------------- the accumulators

  /** The local variables of the frame loop. */
  datatype Draft = Draft(eventName: Option<Bytes>, data: Bytes, id: Option<Bytes>, retry: Option<nat>)

  /** What they must hold once `lines` are read. */
  function DraftOf(lines: seq<Bytes>): Draft {
    Draft(Last(Values(lines, Event)), DataOf(lines), FrameId(lines), RetryOf(lines))
  }

  lemma {:induction false} JoinNonEmpty(values: seq<Bytes>)
    requires values != [] && values[0] != []
    ensures Join(values) != []
  {
    if |values| > 1 { JoinNonEmpty(values[..|values| - 1]); }
  }

  /** A value is added to joined data with a line feed exactly when the data is not empty yet. */
  lemma {:induction false} JoinSnoc(values: seq<Bytes>, v: Bytes)
    ensures var data := Join(DropLeadingEmpty(values));
            Join(DropLeadingEmpty(values + [v])) == (if data == [] then v else data + [LF] + v)
    decreases |values|
  {
    if values == [] {
      assert values + [v] == [v];
      assert DropLeadingEmpty([v]) == if v == [] then [] else [v];
    } else if values[0] == [] {
      assert (values + [v])[1..] == values[1..] + [v];
      JoinSnoc(values[1..], v);
    } else {
      JoinNonEmpty(values);
      assert (values + [v])[..|values|] == values;
    }
  }

  lemma FilterSnoc(values: seq<Bytes>, v: Bytes, keep: Bytes -> bool)
    ensures Filter(values + [v], keep) == Filter(values, keep) + if keep(v) then [v] else []
  {
    assert (values + [v])[..|values|] == values;
  }

  lemma ValuesSnoc(lines: seq<Bytes>, line: Bytes, kind: Kind)
    ensures var f := FieldOf(line);
            Values(lines + [line], kind) ==
              if f.Field? && f.kind == kind then Values(lines, kind) + [f.value] else Values(lines, kind)
  {
    assert (lines + [line])[..|lines|] == lines;
  }

  /** What one line does to the accumulators. */
  function Step(d: Draft, line: Bytes): Draft {
    match FieldOf(line)
    case Ignored => d
    case Field(kind, v) =>
      match kind
      case Event => d.(eventName := Some(v))
      case Data => d.(data := if d.data == [] then v else d.data + [LF] + v)
      case Id => if UsableId(v) then d.(id := Some(v)) else d
      case Retry => if ValidUtf8(v) then d.(retry := ParseU64(Trim(v))) else d
      case Other => d
  }

  lemma DraftSnoc(lines: seq<Bytes>, line: Bytes)
    ensures DraftOf(lines + [line]) == Step(DraftOf(lines), line)
  {
    ValuesSnoc(lines, line, Event);
    ValuesSnoc(lines, line, Data);
    ValuesSnoc(lines, line, Id);
    ValuesSnoc(lines, line, Retry);
    hide Values, FieldOf, ValidUtf8, ParseU64, Trim;
    match FieldOf(line) {
      case Field(Data, v) => hide Filter, Last; JoinSnoc(Values(lines, Data), v);
      case Field(Id, v) => hide Join, DropLeadingEmpty; FilterSnoc(Values(lines, Id), v, UsableId);
      case Field(Retry, v) => hide Join, DropLeadingEmpty; FilterSnoc(Values(lines, Retry), v, ValidUtf8);
      case _ =>
    }
  }

  lemma ReadingStarts(frame: Bytes)
    ensures Draft(None, [], None, None) == DraftOf([]) && FirstFault([]) == None
    ensures frame[0..] == frame && Lines(frame) == [] + Lines(frame)
  {
  }

  lemma DraftMeaning(lines: seq<Bytes>, d: Draft, lastId: Option<Bytes>)
    requires d == DraftOf(lines)
    ensures d.id == FrameId(lines)
    ensures EventOf(lines, lastId) ==
              SseEvent(match d.eventName case None => MESSAGE case Some(n) => n, d.data, OrElse(d.id, lastId), d.retry)
  {
  }

  // ------------------------------------------------------------- the cursor

  /** The first frame of a text whose first `length` bytes are the non-blank `lines`. */
  function Extend(lines: seq<Bytes>, length: nat, c: Cut): Cut {
    match c
    case NoFrame => NoFrame
    case Frame(ls, used) => Frame(lines + ls, length + used)
  }

  /** The cursor `scan` stands after the complete, non-blank `lines`. */
  ghost predicate Scanned(buffer: Bytes, scan: nat, lines: seq<Bytes>) {
    && scan <= |buffer| && (scan == 0 || buffer[scan - 1] == LF)
    && lines == Lines(buffer[..scan])
    && CutFrame(buffer) == Extend(lines, scan, CutFrame(buffer[scan..]))
  }

  lemma ScannedStart(buffer: Bytes)
    ensures Scanned(buffer, 0, [])
  {
    assert buffer[0..] == buffer && buffer[..0] == [];
    match CutFrame(buffer)
    case NoFrame =>
    case Frame(ls, used) => assert [] + ls == ls;
  }

  lemma TakeLine(buffer: Bytes, scan: nat, n: nat)
    requires scan <= |buffer| && Find(LF, buffer[scan..]) == Some(n)
    ensures scan + n + 1 <= |buffer| && buffer[scan + n] == LF
    ensures buffer[..scan + n + 1] == buffer[..scan] + (buffer[scan..][..n] + [LF]) && LF !in buffer[scan..][..n]
  {
    hide Find;
    assert buffer[scan..][n] == LF;
  }

  lemma LinesStep(buffer: Bytes, scan: nat, n: nat)
    requires scan <= |buffer| && (scan == 0 || buffer[scan - 1] == LF)
    requires Find(LF, buffer[scan..]) == Some(n)
    ensures Lines(buffer[..scan + n + 1]) == Lines(buffer[..scan]) + [buffer[scan..][..n]]
  {
    hide Find, Lines;
    var line, before := buffer[scan..][..n], buffer[..scan];
    TakeLine(buffer, scan, n);
    assert before == [] || before[|before| - 1] == LF;
    LinesConcat(before, line + [LF]);
    OneLine(line);
  }

  lemma OneLine(line: Bytes)
    requires LF !in line
    ensures Lines(line + [LF]) == [line]
  {
    LinesAt(line, []);
    assert line + [LF] + [] == line + [LF];
  }

  /** A frame whose first line is not blank continues behind that line. */
  lemma CutOverLine(s: Bytes, n: nat)
    requires Find(LF, s) == Some(n) && !Blank(s[..n])
    ensures n < |s| && CutFrame(s) == Extend([s[..n]], n + 1, CutFrame(s[n + 1..]))
  {
    hide Find, Blank;
    match CutFrame(s[n + 1..])
    case NoFrame => assert CutFrame(s) == NoFrame;
    case Frame(ls, used) => assert CutFrame(s) == Frame([s[..n]] + ls, n + 1 + used);
  }

  lemma ExtendTwice(a: seq<Bytes>, i: nat, b: seq<Bytes>, j: nat, c: Cut)
    ensures Extend(a, i, Extend(b, j, c)) == Extend(a + b, i + j, c)
  {
    match c
    case NoFrame =>
    case Frame(ls, used) => Assoc(a, b, ls);
  }

  /** Moving the cursor over a non-blank line. */
  lemma ScannedLine(buffer: Bytes, scan: nat, lines: seq<Bytes>, n: nat)
    requires Scanned(buffer, scan, lines)
    requires Find(LF, buffer[scan..]) == Some(n) && !Blank(buffer[scan..][..n])
    ensures Scanned(buffer, scan + n + 1, lines + [buffer[scan..][..n]])
  {
    hide Lines, Find, CutFrame, Blank, Extend;
    TakeLine(buffer, scan, n);
    LinesStep(buffer, scan, n);
    DropDrop(buffer, scan, n + 1);
    CutOverLine(buffer[scan..], n);
    ExtendTwice(lines, scan, [buffer[scan..][..n]], n + 1, CutFrame(buffer[scan + n + 1..]));
  }

  /** At a blank line the first frame is everything the cursor passed. */
  lemma ScannedBlank(buffer: Bytes, scan: nat, lines: seq<Bytes>, n: nat)
    requires Scanned(buffer, scan, lines)
    requires Find(LF, buffer[scan..]) == Some(n) && Blank(buffer[scan..][..n])
    ensures CutFrame(buffer) == Frame(lines, scan + n + 1) && lines == Lines(buffer[..scan])
  {
    assert lines + [] == lines;
  }

  /** Events already read, put before those still to come. */
  function Prepend(events: seq<SseEvent>, r: Reading): Reading { r.(events := events + r.events) }

  /** Consuming the first frame moves one event from the future to the past, or meets the fault. */
  lemma DecodeFrame(s: Bytes, lastId: Option<Bytes>, events: seq<SseEvent>, lines: seq<Bytes>, used: nat)
    requires CutFrame(s) == Frame(lines, used)
    ensures match FirstFault(lines)
            case Some(f) => Decode(s, lastId) == Reading([], lastId, s, Some(f))
            case None =>
              Prepend(events, Decode(s, lastId)) ==
              Prepend(events + [EventOf(lines, lastId)], Decode(s[used..], OrElse(FrameId(lines), lastId)))
  {
    hide EventOf, FrameId, FirstFault;
    Assoc(events, [EventOf(lines, lastId)], Decode(s[used..], OrElse(FrameId(lines), lastId)).events);
  }

  /** Without a further line feed nothing more can be read. */
  lemma ScannedEnd(buffer: Bytes, scan: nat, lines: seq<Bytes>, lastId: Option<Bytes>, events: seq<SseEvent>)
    requires Scanned(buffer, scan, lines) && Find(LF, buffer[scan..]) == None
    ensures Prepend(events, Decode(buffer, lastId)) == Reading(events, lastId, buffer, None)
  {
    assert CutFrame(buffer) == NoFrame;
    assert events + [] == events;
  }

  // ------------------------------------------------------------- the parser

  class SseStreamParser {
    var buffer: Bytes
    var lastEventId: Option<Bytes>

    constructor ()
      ensures buffer == [] && lastEventId == None
    {
      buffer, lastEventId := [], None;
    }

    /** One line of the frame loop: the accumulators after it, or the fault that ends the frame. */
    static method ReadLine(d: Draft, raw: Bytes) returns (r: Result<Draft, Fault>)
      ensures r == match FaultOf(raw)
                   case Some(f) => Err(f)
                   case None => Ok(Step(d, raw))
    {
      hide ValidUtf8, ParseU64, Trim, KindOf;
      var lineEnd := |raw|;
      if lineEnd > 0 && raw[lineEnd - 1] == CR {
        lineEnd := lineEnd - 1;
      }
      var line := raw[..lineEnd];
      assert line == StripCr(raw);
      var sep := Find(COLON, line);
      if sep.None? {
        return Ok(d);
      }
      var field := KindOf(line[..sep.value]);
      var value := line[sep.value + 1..];
      if value != [] && value[0] == SPACE {
        value := value[1..];
      }
      assert FieldOf(raw) == Field(field, value);
      hide FieldOf, Find;
      if field == Event {
        if !ValidUtf8(value) { return Err(BadEvent); }
        r := Ok(d.(eventName := Some(value)));
      } else if field == Data {
        if !ValidUtf8(value) { return Err(BadData); }
        var data := d.data;
        if data != [] {
          data := data + [LF];
        }
        assert [] + value == value;
        data := data + value;
        r := Ok(d.(data := data));
      } else if field == Id {
        if !ValidUtf8(value) { return Err(BadId); }
        r := if value != [] && 0 !in value then Ok(d.(id := Some(value))) else Ok(d);
      } else if field == Retry {
        r := if ValidUtf8(value) then Ok(d.(retry := ParseU64(Trim(value)))) else Ok(d);
      } else {
        r := Ok(d);
      }
    }

    /** The fault of the frame's first bad line, or the event its lines spell and the id the frame carried. */
    method ParseFrame(frame: Bytes) returns (r: Result<(SseEvent, Option<Bytes>), Fault>)
      ensures var lines := Lines(frame);
              r == match FirstFault(lines)
                   case Some(f) => Err(f)
                   case None => Ok((EventOf(lines, lastEventId), FrameId(lines)))
    {
      hide DraftOf, Step, FaultOf, Find, Lines, FirstFault, EventOf, FrameId;
      var d := Draft(None, [], None, None);
      var pos := 0;
      var rel := Find(LF, frame);
      ghost var lines: seq<Bytes> := [];
      ReadingStarts(frame);
      while rel.Some?
        invariant 0 <= pos <= |frame| && rel == Find(LF, frame[pos..])
        invariant Lines(frame) == lines + Lines(frame[pos..])
        invariant FirstFault(lines) == None && d == DraftOf(lines)
        decreases |frame| - pos
      {
        var nl := pos + rel.value;
        var raw := frame[pos..][..rel.value];
        LinesPeel(frame, pos, lines, rel.value);
        var step := ReadLine(d, raw);
        DraftSnoc(lines, raw);
        FaultSnoc(lines, raw);
        lines := lines + [raw];
        if step.Err? {
          FaultStays(lines, Lines(frame[nl + 1..]));
          return Err(step.error);
        }
        d := step.value;
        pos := nl + 1;
        rel := Find(LF, frame[pos..]);
      }
      LinesNone(frame[pos..]);
      assert lines + [] == lines;
      DraftMeaning(lines, d, lastEventId);
      var name := match d.eventName case None => MESSAGE case Some(n) => n;
      r := Ok((SseEvent(name, d.data, OrElse(d.id, lastEventId), d.retry), d.id));
    }

    /** One call reads the old buffer and the chunk exactly as the reference reads their concatenation. */
    method FeedChunk(chunk: Bytes) returns (r: Result<seq<SseEvent>, Fault>)
      modifies this
      ensures var reading := Decode(old(buffer) + chunk, old(lastEventId));
              r == Answer(reading) && buffer == reading.rest && lastEventId == reading.lastId
    {
      hide EventOf, FrameId, FirstFault, Lines, CutFrame, Decode, Find, Scanned;
      buffer := buffer + chunk;
      var events: seq<SseEvent> := [];
      var scan := 0;
      ghost var lines: seq<Bytes> := [];
      ghost var whole := Decode(buffer, lastEventId);
      assert whole.events == [] + whole.events;
      ScannedStart(buffer);
      var rel := Find(LF, buffer[scan..]);
      while rel.Some?
        invariant scan <= |buffer| && Scanned(buffer, scan, lines) && rel == Find(LF, buffer[scan..])
        invariant whole == Prepend(events, Decode(buffer, lastEventId))
        decreases |buffer| - scan + |buffer|
      {
        var newline := scan + rel.value;
        var line := buffer[scan..][..rel.value];
        var isBlank := line == [] || (|line| == 1 && line[0] == CR);
        if isBlank {
          ScannedBlank(buffer, scan, lines, rel.value);
          var parsed := ParseFrame(buffer[..scan]);
          DecodeFrame(buffer, lastEventId, events, lines, newline + 1);
          if parsed.Err? {
            return Err(parsed.error);
          }
          var (ev, frameId) := parsed.value;
          if frameId.Some? {
            lastEventId := frameId;
          }
          events := events + [ev];
          buffer := buffer[newline + 1..];
          scan, lines := 0, [];
          ScannedStart(buffer);
        } else {
          ScannedLine(buffer, scan, lines, rel.value);
          scan, lines := newline + 1, lines + [line];
        }
        rel := Find(LF, buffer[scan..]);
      }
      ScannedEnd(buffer, scan, lines, lastEventId, events);
      r := Ok(events);
    }
  }
}
