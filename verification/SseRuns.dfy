/** What a whole run of the event-stream parser delivers, however its bytes were cut into chunks. */
module SseRuns {
  import opened Common
  import opened Text
  import opened SseSpec
  import opened SseParser

  // ------------------------------------------------------- appending bytes

  lemma FindAppend(b: Byte, s: Bytes, t: Bytes)
    requires Find(b, s).Some?
    ensures Find(b, s + t) == Find(b, s)
  {
    var n := Find(b, s).value;
    assert s + t == s[..n] + [b] + (s[n + 1..] + t);
    FindAt(b, s[..n], s[n + 1..] + t);
  }

  /** A completed frame is not changed by the bytes that follow it. */
  lemma {:induction false} CutFrameAppend(s: Bytes, t: Bytes)
    requires CutFrame(s).Frame?
    ensures CutFrame(s + t) == CutFrame(s)
    decreases |s|
  {
    FindAppend(LF, s, t);
    hide Find;
    var n := Find(LF, s).value;
    assert (s + t)[..n] == s[..n];
    if !Blank(s[..n]) {
      assert (s + t)[n + 1..] == s[n + 1..] + t;
      CutFrameAppend(s[n + 1..], t);
    }
  }

  /** Reading more bytes continues from where the first reading stopped; after a fault it only keeps them. */
  lemma {:induction false} DecodeAppend(s: Bytes, t: Bytes, lastId: Option<Bytes>)
    ensures var first := Decode(s, lastId);
            Decode(s + t, lastId) ==
              match first.fault
              case None => Prepend(first.events, Decode(first.rest + t, first.lastId))
              case Some(f) => first.(rest := first.rest + t)
    decreases |s|
  {
    hide EventOf, FrameId, FirstFault, CutFrame;
    match CutFrame(s)
    case NoFrame =>
      assert [] + Decode(s + t, lastId).events == Decode(s + t, lastId).events;
    case Frame(lines, used) =>
      CutFrameAppend(s, t);
      assert (s + t)[used..] == s[used..] + t;
      if FirstFault(lines).None? {
        var id := OrElse(FrameId(lines), lastId);
        DecodeAppend(s[used..], t, id);
        var first := Decode(s[used..], id);
        Assoc([EventOf(lines, lastId)], first.events, Decode(first.rest + t, first.lastId).events);
      }
  }

  /** The faulty frame stays at the front of the unread bytes. */
  lemma {:induction false} FaultAtFront(s: Bytes, lastId: Option<Bytes>)
    ensures var d := Decode(s, lastId);
            Decode(d.rest, d.lastId) == Reading([], d.lastId, d.rest, d.fault)
    decreases |s|
  {
    hide EventOf, FrameId, FirstFault;
    match CutFrame(s)
    case NoFrame =>
    case Frame(lines, used) =>
      if FirstFault(lines).None? { FaultAtFront(s[used..], OrElse(FrameId(lines), lastId)); }
  }

  /** Once a call has failed every later call fails the same way, keeping its bytes and the last id. */
  lemma ErrorIsFinal(s: Bytes, chunk: Bytes, lastId: Option<Bytes>)
    requires Decode(s, lastId).fault.Some?
    ensures var d := Decode(s, lastId);
            Decode(d.rest + chunk, d.lastId) == Reading([], d.lastId, d.rest + chunk, d.fault)
  {
    var d := Decode(s, lastId);
    FaultAtFront(s, lastId);
    DecodeAppend(d.rest, chunk, d.lastId);
  }

  // ------------------------------------------------------- runs of calls

  datatype Run = Run(buffer: Bytes, lastId: Option<Bytes>, answers: seq<Result<seq<SseEvent>, Fault>>)

  /** A fresh parser fed the chunks one call each, by `FeedChunk`'s contract. */
  function FeedAll(chunks: seq<Bytes>): (r: Run)
    ensures |r.answers| == |chunks|
  {
    if chunks == [] then Run([], None, [])
    else
      var r := FeedAll(chunks[..|chunks| - 1]);
      var reading := Decode(r.buffer + chunks[|chunks| - 1], r.lastId);
      Run(reading.rest, reading.lastId, r.answers + [Answer(reading)])
  }

  /** The events the caller received: those of the calls that succeeded. */
  function Delivered(answers: seq<Result<seq<SseEvent>, Fault>>): seq<SseEvent> {
    if answers == [] then []
    else
      var last := answers[|answers| - 1];
      Delivered(answers[..|answers| - 1]) + if last.Ok? then last.value else []
  }

  /** Everything the chunks say, read in one go. */
  function Seen(chunks: seq<Bytes>): Reading { Decode(Flatten(chunks), None) }

  /** One further chunk: a fault already seen stays; otherwise the new reading continues the old one. */
  lemma OneMore(front: seq<Bytes>, last: Bytes)
    ensures var before, after := Seen(front), Seen(front + [last]);
            var reading := Decode(before.rest + last, before.lastId);
            && after.rest == reading.rest && after.lastId == reading.lastId && after.fault == reading.fault
            && after.events == before.events + reading.events
            && (before.fault.Some? ==> after.fault == before.fault && reading.events == [])
  {
    hide Decode;
    assert (front + [last])[..|front|] == front;
    DecodeAppend(Flatten(front), last, None);
    if Seen(front).fault.Some? {
      ErrorIsFinal(Flatten(front), last, None);
      assert Seen(front).events + [] == Seen(front).events;
    }
  }

  lemma StartOfStream()
    ensures Seen([]) == Reading([], None, [], None)
  {
  }

  /** Answer `k` is what chunk `k` completes, or the stream's fault from the call that completes it on. */
  ghost predicate CallIsExact(chunks: seq<Bytes>, k: nat)
    requires k < |chunks|
  {
    var answer, before, after := FeedAll(chunks).answers[k], Seen(chunks[..k]), Seen(chunks[..k + 1]);
    match after.fault
    case None => before.fault.None? && answer.Ok? && before.events + answer.value == after.events
    case Some(f) => answer == Err(f) && Seen(chunks).fault == Some(f)
  }

  lemma LastCall(front: seq<Bytes>, last: Bytes)
    ensures CallIsExact(front + [last], |front|)
  {
    RunState(front);
    OneMore(front, last);
    hide Seen, Decode;
    var chunks := front + [last];
    assert chunks[..|front|] == front && chunks[..|front| + 1] == chunks;
  }

  lemma EarlierCall(front: seq<Bytes>, last: Bytes, k: nat)
    requires k < |front| && CallIsExact(front, k)
    ensures CallIsExact(front + [last], k)
  {
    OneMore(front, last);
    hide Seen, Decode;
    var chunks := front + [last];
    assert chunks[..|front|] == front;
    assert chunks[..k] == front[..k] && chunks[..k + 1] == front[..k + 1];
  }

  lemma {:induction false} CallsAreExact(chunks: seq<Bytes>, k: nat)
    requires k < |chunks|
    ensures CallIsExact(chunks, k)
  {
    hide CallIsExact;
    var front, last := chunks[..|chunks| - 1], chunks[|chunks| - 1];
    assert chunks == front + [last];
    if k < |front| {
      CallsAreExact(front, k);
      EarlierCall(front, last, k);
    } else {
      LastCall(front, last);
    }
  }

  /** State and answers agree with one whole reading of the same bytes. */
  ghost predicate Agrees(r: Run, whole: Reading) {
    && r.buffer == whole.rest && r.lastId == whole.lastId
    && Delivered(r.answers) <= whole.events
    && (whole.fault.None? ==> Delivered(r.answers) == whole.events)
    && (whole.fault.Some? && r.answers != [] ==> r.answers[|r.answers| - 1] == Err(whole.fault.value))
  }

  lemma AgreesStep(front: seq<Bytes>, last: Bytes)
    requires Agrees(FeedAll(front), Seen(front))
    ensures Agrees(FeedAll(front + [last]), Seen(front + [last]))
  {
    hide Seen, Decode, Delivered;
    var chunks := front + [last];
    assert chunks[..|front|] == front;
    OneMore(front, last);
    DeliveredSnoc(FeedAll(front).answers, FeedAll(chunks).answers[|front|]);
  }

  /** The parser's state after any chunks is that of one whole feed, faults included. */
  lemma {:induction false} RunState(chunks: seq<Bytes>)
    ensures var r, whole := FeedAll(chunks), Seen(chunks);
            && r.buffer == whole.rest && r.lastId == whole.lastId
            && Delivered(r.answers) <= whole.events
            && (whole.fault.None? ==> Delivered(r.answers) == whole.events)
            && (whole.fault.Some? && chunks != [] ==> r.answers[|chunks| - 1] == Err(whole.fault.value))
  {
    AgreesRun(chunks);
  }

  lemma {:induction false} AgreesRun(chunks: seq<Bytes>)
    ensures Agrees(FeedAll(chunks), Seen(chunks))
  {
    if chunks == [] {
      StartOfStream();
    } else {
      hide Agrees, FeedAll, Seen;
      var front := chunks[..|chunks| - 1];
      assert chunks == front + [chunks[|chunks| - 1]];
      AgreesRun(front);
      AgreesStep(front, chunks[|chunks| - 1]);
    }
  }

  lemma DeliveredSnoc(answers: seq<Result<seq<SseEvent>, Fault>>, last: Result<seq<SseEvent>, Fault>)
    ensures Delivered(answers + [last]) == if last.Ok? then Delivered(answers) + last.value else Delivered(answers)
  {
    assert (answers + [last])[..|answers|] == answers;
  }

  /**
    Chunking does not matter: whatever the cuts, inside a CRLF or a code point too, the run ends in the state of one
    whole feed, and every call answers exactly for its own bytes.
   */
  lemma ChunkInvariance(chunks: seq<Bytes>)
    ensures var r, whole := FeedAll(chunks), Decode(Flatten(chunks), None);
            && r.buffer == whole.rest && r.lastId == whole.lastId
            && (whole.fault.None? ==> Delivered(r.answers) == whole.events)
            && forall k :: 0 <= k < |chunks| ==> CallIsExact(chunks, k)
  {
    RunState(chunks);
    forall k | 0 <= k < |chunks| ensures CallIsExact(chunks, k) { CallsAreExact(chunks, k); }
  }

  /**
    The events received are independent of the cuts exactly when no faulty frame follows a good one: a call that meets
    the fault also loses the good events completed in the same chunk.
   */
  lemma EventsIndependentOfCuts(s: Bytes)
    ensures var whole := Decode(s, None);
            (forall chunks: seq<Bytes> :: Flatten(chunks) == s ==> Delivered(FeedAll(chunks).answers) == whole.events)
            <==> (whole.fault.None? || whole.events == [])
  {
    hide Decode;
    var whole := Decode(s, None);
    forall chunks: seq<Bytes> | Flatten(chunks) == s
      ensures whole.fault.None? || whole.events == [] ==> Delivered(FeedAll(chunks).answers) == whole.events
    {
      RunState(chunks);
    }
    OneFeed(s);
  }

  /** The whole stream as a single chunk. */
  lemma OneFeed(s: Bytes)
    ensures Flatten([s]) == s
    ensures Delivered(FeedAll([s]).answers) == if Decode(s, None).fault.None? then Decode(s, None).events else []
  {
    hide Decode;
    assert [s][..0] == [] && [] + s == s;
    assert FeedAll([]) == Run([], None, []);
    assert FeedAll([s]).answers == [] + [Answer(Decode(s, None))];
    DeliveredSnoc([], Answer(Decode(s, None)));
  }
}
