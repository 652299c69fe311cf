/**
  Reference meaning of a server-sent-event byte stream, as `src/sse.rs` reads it.

  A stream is cut into frames at blank lines, and each field of an event is a question about the frame's list of
  field values ("the last `event` value", "the `data` values joined"). Nothing here scans, keeps a cursor or
  accumulates: that is the parser's business, and `SseParser` proves it agrees.
 */
module SseSpec {
  import opened Common
  import opened Text

  datatype SseEvent = SseEvent(event: Bytes, data: Bytes, id: Option<Bytes>, retry: Option<nat>)

  /** The field whose bytes were not valid UTF-8. */
  datatype Fault = BadEvent | BadData | BadId

  const EVENT: Bytes := [101, 118, 101, 110, 116]
  const DATA: Bytes := [100, 97, 116, 97]
  const ID: Bytes := [105, 100]
  const RETRY: Bytes := [114, 101, 116, 114, 121]
  const MESSAGE: Bytes := [109, 101, 115, 115, 97, 103, 101]

  // ---------------------------------------------------------------- lines

  /** A line that ends a frame: nothing, or a lone carriage return, before the line feed. */
  predicate Blank(line: Bytes) { line == [] || line == [CR] }

  /** The complete lines of `s`, each without its line feed; an unterminated tail is not a line. */
  function Lines(s: Bytes): seq<Bytes>
    decreases |s|
  {
    match Find(LF, s)
    case None => []
    case Some(n) => [s[..n]] + Lines(s[n + 1..])
  }

  datatype Cut = NoFrame | Frame(lines: seq<Bytes>, used: nat)

  /** The first frame of `s`: the lines before the first blank one, and how many bytes it takes, blank line included. */
  function CutFrame(s: Bytes): (c: Cut)
    ensures c.Frame? ==> 0 < c.used <= |s|
    decreases |s|
  {
    match Find(LF, s)
    case None => NoFrame
    case Some(n) =>
      if Blank(s[..n]) then Frame([], n + 1)
      else
        match CutFrame(s[n + 1..])
        case NoFrame => NoFrame
        case Frame(lines, used) => Frame([s[..n]] + lines, n + 1 + used)
  }

  // --------------------------------------------------------------- fields

  /** The fields the format knows; comments (empty name) and unknown names are `Other`. */
  datatype Kind = Event | Data | Id | Retry | Other

  function KindOf(name: Bytes): Kind {
    if name == EVENT then Event
    else if name == DATA then Data
    else if name == ID then Id
    else if name == RETRY then Retry
    else Other
  }

  datatype Field = Ignored | Field(kind: Kind, value: Bytes)

  function StripCr(line: Bytes): Bytes {
    if line != [] && line[|line| - 1] == CR then line[..|line| - 1] else line
  }

  function StripSpace(value: Bytes): Bytes {
    if value != [] && value[0] == SPACE then value[1..] else value
  }

  /** `name: value`, split at the first colon; a line without a colon is no field. */
  function FieldOf(line: Bytes): Field {
    var l := StripCr(line);
    match Find(COLON, l)
    case None => Ignored
    case Some(c) => Field(KindOf(l[..c]), StripSpace(l[c + 1..]))
  }

  /** The values of the fields of one kind, in line order. */
  function Values(lines: seq<Bytes>, kind: Kind): seq<Bytes> {
    if lines == [] then []
    else
      var f := FieldOf(lines[|lines| - 1]);
      Values(lines[..|lines| - 1], kind) + if f.Field? && f.kind == kind then [f.value] else []
  }

  // --------------------------------------------------------------- events

  function FaultOf(line: Bytes): Option<Fault> {
    match FieldOf(line)
    case Ignored => None
    case Field(kind, value) =>
      if ValidUtf8(value) then None
      else
        match kind
        case Event => Some(BadEvent)
        case Data => Some(BadData)
        case Id => Some(BadId)
        case _ => None
  }

  /** The first line of the frame whose `event`, `data` or `id` value is not UTF-8. */
  function FirstFault(lines: seq<Bytes>): Option<Fault> {
    if lines == [] then None
    else
      match FirstFault(lines[..|lines| - 1])
      case Some(f) => Some(f)
      case None => FaultOf(lines[|lines| - 1])
  }

  function Last(values: seq<Bytes>): Option<Bytes> {
    if values == [] then None else Some(values[|values| - 1])
  }

  function OrElse<T>(first: Option<T>, second: Option<T>): Option<T> {
    if first.Some? then first else second
  }

  function Filter(values: seq<Bytes>, keep: Bytes -> bool): seq<Bytes> {
    if values == [] then []
    else
      var v := values[|values| - 1];
      Filter(values[..|values| - 1], keep) + if keep(v) then [v] else []
  }

  function DropLeadingEmpty(values: seq<Bytes>): seq<Bytes> {
    if values == [] || values[0] != [] then values else DropLeadingEmpty(values[1..])
  }

  /** The values with a line feed between neighbours. */
  function Join(values: seq<Bytes>): Bytes {
    if values == [] then []
    else if |values| == 1 then values[0]
    else Join(values[..|values| - 1]) + [LF] + values[|values| - 1]
  }

  function EventName(lines: seq<Bytes>): Bytes {
    match Last(Values(lines, Event))
    case None => MESSAGE
    case Some(name) => name
  }

  /** Data lines joined with `\n`; lines before the first non-empty one leave no trace. */
  function DataOf(lines: seq<Bytes>): Bytes { Join(DropLeadingEmpty(Values(lines, Data))) }

  predicate UsableId(id: Bytes) { id != [] && 0 !in id }

  /** The frame's own id: the last non-empty, NUL-free one. */
  function FrameId(lines: seq<Bytes>): Option<Bytes> { Last(Filter(Values(lines, Id), UsableId)) }

  /** The last `retry` value that is UTF-8 decides, even when it is not a number. */
  function RetryOf(lines: seq<Bytes>): Option<nat> {
    match Last(Filter(Values(lines, Retry), ValidUtf8))
    case None => None
    case Some(v) => ParseU64(Trim(v))
  }

  function EventOf(lines: seq<Bytes>, lastId: Option<Bytes>): SseEvent {
    SseEvent(EventName(lines), DataOf(lines), OrElse(FrameId(lines), lastId), RetryOf(lines))
  }

  // --------------------------------------------------------------- stream

  /** What a stream says: the events before the first faulty frame, the id then in force, and the unread bytes. */
  datatype Reading = Reading(events: seq<SseEvent>, lastId: Option<Bytes>, rest: Bytes, fault: Option<Fault>)

  function Decode(s: Bytes, lastId: Option<Bytes>): (r: Reading)
    ensures |r.rest| <= |s|
    decreases |s|
  {
    match CutFrame(s)
    case NoFrame => Reading([], lastId, s, None)
    case Frame(lines, used) =>
      match FirstFault(lines)
      case Some(f) => Reading([], lastId, s, Some(f))
      case None =>
        var r := Decode(s[used..], OrElse(FrameId(lines), lastId));
        r.(events := [EventOf(lines, lastId)] + r.events)
  }

  /** What one call hands to its caller: all new events, or the fault alone. */
  function Answer(r: Reading): Result<seq<SseEvent>, Fault> {
    match r.fault
    case None => Ok(r.events)
    case Some(f) => Err(f)
  }
}
