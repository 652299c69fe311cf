/** Positions, ids and text of a decoded event stream, stated without the decoder's own recursion. */
module SseMeaning {
  import opened Common
  import opened Text
  import opened SseSpec
  import opened SseParser

  // ---------------------------------------------------------- blank lines

  /** The line feed at `p` ends a blank line. */
  predicate BlankAt(s: Bytes, p: nat) {
    && p < |s| && s[p] == LF
    && (|| p == 0 || s[p - 1] == LF
        || (s[p - 1] == CR && (p == 1 || s[p - 2] == LF)))
  }

  /** How many blank lines end before position `n`. */
  function BlankLines(s: Bytes, n: nat): nat
    requires n <= |s|
  {
    if n == 0 then 0 else BlankLines(s, n - 1) + if BlankAt(s, n - 1) then 1 else 0
  }

  lemma {:induction false} NoBlankLines(s: Bytes, n: nat)
    requires n <= |s| && NoneBefore(s, n)
    ensures BlankLines(s, n) == 0
  {
    if n > 0 { NoBlankLines(s, n - 1); }
  }

  /** Behind a line feed, blank lines are where they are in the rest alone. */
  lemma BlankShift(s: Bytes, u: nat, p: nat)
    requires 0 < u <= |s| && s[u - 1] == LF
    ensures BlankAt(s, u + p) == BlankAt(s[u..], p)
  {
    if u + p < |s| {
      assert s[u..][p] == s[u + p];
      if p >= 1 { assert s[u..][p - 1] == s[u + p - 1]; }
      if p >= 2 { assert s[u..][p - 2] == s[u + p - 2]; }
    }
  }

  lemma {:induction false} BlankLinesShift(s: Bytes, u: nat, n: nat)
    requires 0 < u <= |s| && s[u - 1] == LF && n <= |s| - u
    ensures BlankLines(s, u + n) == BlankLines(s, u) + BlankLines(s[u..], n)
  {
    if n > 0 {
      BlankLinesShift(s, u, n - 1);
      BlankShift(s, u, n - 1);
    }
  }

  /** Inside the first line of a text only its end can end a blank line, and does so exactly when the line is blank. */
  lemma FirstLine(s: Bytes, n: nat, p: nat)
    requires Find(LF, s) == Some(n) && p <= n
    ensures BlankAt(s, p) <==> p == n && Blank(s[..n])
  {
    assert forall i :: 0 <= i < n ==> s[..n][i] == s[i];
    if n == 1 && s[0] == CR { assert s[..n] == [CR]; }
  }

  /** No blank line ends before position `n`. */
  ghost predicate NoneBefore(s: Bytes, n: nat) { forall p :: 0 <= p < n ==> !BlankAt(s, p) }

  lemma NoneInFirstLine(s: Bytes, n: nat)
    requires Find(LF, s) == Some(n)
    ensures NoneBefore(s, n) && (BlankAt(s, n) <==> Blank(s[..n]))
  {
    hide Find, Blank, BlankAt;
    forall p | 0 <= p < n ensures !BlankAt(s, p) { FirstLine(s, n, p); }
    FirstLine(s, n, n);
  }

  /** Blank lines behind a first line that is not blank. */
  lemma NoneShift(s: Bytes, u: nat, n: nat)
    requires 0 < u <= |s| && s[u - 1] == LF && NoneBefore(s, u) && NoneBefore(s[u..], n)
    ensures NoneBefore(s, u + n)
  {
    hide BlankAt;
    forall p | u <= p < u + n ensures !BlankAt(s, p) { BlankShift(s, u, p - u); }
  }

  /** Where the frame of a text ends when its first line is blank, and when it is not. */
  lemma CutAtBlank(s: Bytes, n: nat)
    requires Find(LF, s) == Some(n) && Blank(s[..n])
    ensures CutFrame(s) == Frame([], n + 1)
  {
    hide Blank, Find;
  }

  lemma CutBehind(s: Bytes, n: nat)
    requires Find(LF, s) == Some(n) && !Blank(s[..n])
    ensures var c, rest := CutFrame(s), CutFrame(s[n + 1..]);
            c.NoFrame? == rest.NoFrame? && (c.Frame? ==> c.used == n + 1 + rest.used)
  {
    hide Blank, Find;
    match CutFrame(s[n + 1..])
    case NoFrame => assert CutFrame(s) == NoFrame;
    case Frame(lines, used) => assert CutFrame(s) == Frame([s[..n]] + lines, n + 1 + used);
  }

  lemma CutNothing(s: Bytes)
    requires Find(LF, s) == None
    ensures CutFrame(s) == NoFrame
  {
  }

  /** A frame ends at the first blank line; without one there is no frame. */
  lemma {:induction false} FrameEndsAtBlank(s: Bytes)
    ensures var c := CutFrame(s);
            if c.NoFrame? then NoneBefore(s, |s|) else BlankAt(s, c.used - 1) && NoneBefore(s, c.used - 1)
    decreases |s|
  {
    hide Blank, NoneBefore, CutFrame, Find, BlankAt;
    var cut := Find(LF, s);
    if cut.None? {
      CutNothing(s);
      NoneWithoutLf(s);
    } else {
      var n := cut.value;
      NoneInFirstLine(s, n);
      if Blank(s[..n]) {
        CutAtBlank(s, n);
      } else {
        CutBehind(s, n);
        var rest := s[n + 1..];
        var c := CutFrame(rest);
        NoneAlso(s, n);
        FrameEndsAtBlank(rest);
        NoneShift(s, n + 1, if c.NoFrame? then |rest| else c.used - 1);
        if c.Frame? { BlankShift(s, n + 1, c.used - 1); }
      }
    }
  }

  lemma NoneWithoutLf(s: Bytes)
    requires LF !in s
    ensures NoneBefore(s, |s|)
  {
  }

  lemma NoneAlso(s: Bytes, n: nat)
    requires NoneBefore(s, n) && !BlankAt(s, n)
    ensures NoneBefore(s, n + 1)
  {
    hide BlankAt;
  }

  lemma FrameBlankCount(s: Bytes)
    ensures var c := CutFrame(s);
            if c.NoFrame? then BlankLines(s, |s|) == 0
            else BlankLines(s, c.used) == 1 && s[c.used - 1] == LF
  {
    hide CutFrame, NoneBefore;
    FrameEndsAtBlank(s);
    var c := CutFrame(s);
    if c.NoFrame? { NoBlankLines(s, |s|); } else { NoBlankLines(s, c.used - 1); }
  }

  /** `s` has `count` blank lines, and the last of them ends just before position `used`. */
  ghost predicate Accounted(s: Bytes, count: nat, used: nat) {
    && used <= |s| && count == BlankLines(s, |s|)
    && (used == 0 || BlankAt(s, used - 1))
    && forall p :: used <= p < |s| ==> !BlankAt(s, p)
  }

  lemma NothingAccounted(s: Bytes)
    requires CutFrame(s).NoFrame?
    ensures Accounted(s, 0, 0)
  {
    FrameEndsAtBlank(s);
    FrameBlankCount(s);
  }

  lemma FrameAccounted(s: Bytes, count: nat, used: nat)
    requires CutFrame(s).Frame? && Accounted(s[CutFrame(s).used..], count, used)
    ensures Accounted(s, count + 1, CutFrame(s).used + used)
  {
    FrameEndsAtBlank(s);
    FrameBlankCount(s);
    hide CutFrame, BlankAt;
    var n := CutFrame(s).used;
    BlankLinesShift(s, n, |s| - n);
    forall p | n + used <= p < |s| ensures !BlankAt(s, p) {
      BlankShift(s, n, p - n);
    }
    if used > 0 { BlankShift(s, n, used - 1); }
  }

  /** One frame read without a fault: one event, then the rest. */
  lemma DecodeNext(s: Bytes, lastId: Option<Bytes>)
    requires CutFrame(s).Frame? && Decode(s, lastId).fault.None?
    ensures var c := CutFrame(s);
            var r := Decode(s[c.used..], OrElse(FrameId(c.lines), lastId));
            && r.fault.None? && Decode(s, lastId).rest == r.rest && |Decode(s, lastId).events| == |r.events| + 1
  {
    hide EventOf, FrameId, FirstFault, CutFrame;
  }

  lemma DecodeNothing(s: Bytes, lastId: Option<Bytes>)
    requires CutFrame(s).NoFrame?
    ensures Decode(s, lastId) == Reading([], lastId, s, None) && s[0..] == s
  {
    hide CutFrame;
  }

  /**
    Without a fault: one event per blank line, and the unread bytes are the suffix behind the last blank line.
   */
  lemma {:induction false} EventPerBlankLine(s: Bytes, lastId: Option<Bytes>)
    requires Decode(s, lastId).fault.None?
    ensures var d := Decode(s, lastId);
            d.rest == s[|s| - |d.rest|..] && Accounted(s, |d.events|, |s| - |d.rest|)
    decreases |s|
  {
    hide Decode, FrameId, CutFrame, Accounted;
    var c := CutFrame(s);
    if c.NoFrame? {
      DecodeNothing(s, lastId);
      NothingAccounted(s);
    } else {
      var id := OrElse(FrameId(c.lines), lastId);
      DecodeNext(s, lastId);
      EventPerBlankLine(s[c.used..], id);
      var d1 := Decode(s[c.used..], id);
      var used := |s| - c.used - |d1.rest|;
      FrameAccounted(s, |d1.events|, used);
      DropDrop(s, c.used, used);
    }
  }

  // ------------------------------------------------------------------ ids

  /** The raw lines of every completed frame, in order. */
  function Frames(s: Bytes): seq<seq<Bytes>>
    decreases |s|
  {
    match CutFrame(s)
    case NoFrame => []
    case Frame(lines, used) => [lines] + Frames(s[used..])
  }

  /** The last usable id in any of the frames, or the one known before them. */
  function LastIdOf(frames: seq<seq<Bytes>>, before: Option<Bytes>): Option<Bytes> {
    if frames == [] then before
    else OrElse(FrameId(frames[|frames| - 1]), LastIdOf(frames[..|frames| - 1], before))
  }

  lemma {:induction false} LastIdCons(first: seq<Bytes>, frames: seq<seq<Bytes>>, before: Option<Bytes>)
    ensures LastIdOf([first] + frames, before) == LastIdOf(frames, OrElse(FrameId(first), before))
  {
    hide FrameId;
    var all := [first] + frames;
    if frames == [] {
      assert all[..0] == [] && all[0] == first;
    } else {
      LastIdCons(first, frames[..|frames| - 1], before);
      assert all[..|all| - 1] == [first] + frames[..|frames| - 1];
    }
  }

  /** Event `i` is frame `i` read on its own, carrying the last usable id among frames `0..i`. */
  ghost predicate EventIsFrame(e: SseEvent, frames: seq<seq<Bytes>>, i: nat, lastId: Option<Bytes>)
    requires i < |frames|
  {
    && FirstFault(frames[i]).None?
    && e == EventOf(frames[i], LastIdOf(frames[..i], lastId))
    && e.id == LastIdOf(frames[..i + 1], lastId)
  }

  lemma EventShift(e: SseEvent, first: seq<Bytes>, frames: seq<seq<Bytes>>, i: nat, lastId: Option<Bytes>)
    requires i < |frames| && EventIsFrame(e, frames, i, OrElse(FrameId(first), lastId))
    ensures EventIsFrame(e, [first] + frames, i + 1, lastId)
  {
    hide EventOf, FrameId, FirstFault;
    var all := [first] + frames;
    assert all[..i + 1] == [first] + frames[..i] && all[..i + 2] == [first] + frames[..i + 1];
    LastIdCons(first, frames[..i], lastId);
    LastIdCons(first, frames[..i + 1], lastId);
    assert all[i + 1] == frames[i];
  }

  lemma FirstEvent(first: seq<Bytes>, frames: seq<seq<Bytes>>, lastId: Option<Bytes>)
    requires FirstFault(first).None?
    ensures EventIsFrame(EventOf(first, lastId), [first] + frames, 0, lastId)
  {
    hide FirstFault, FrameId, EventName, DataOf, RetryOf;
    var all := [first] + frames;
    assert all[..0] == [] && all[..1] == [first];
    assert [first][..0] == [];
  }

  /** The events read are the first frames, each read alone, up to the first faulty one. */
  ghost predicate EventsOfFrames(d: Reading, frames: seq<seq<Bytes>>, lastId: Option<Bytes>) {
    && |d.events| <= |frames|
    && (d.fault.None? <==> |d.events| == |frames|)
    && (d.fault.Some? ==> d.fault == FirstFault(frames[|d.events|]))
    && d.lastId == LastIdOf(frames[..|d.events|], lastId)
    && forall i :: 0 <= i < |d.events| ==> EventIsFrame(d.events[i], frames, i, lastId)
  }

  lemma NoFrameRead(s: Bytes, lastId: Option<Bytes>, frames: seq<seq<Bytes>>)
    requires frames == []
    ensures EventsOfFrames(Reading([], lastId, s, None), frames, lastId)
  {
    assert frames[..0] == [];
  }

  lemma FaultyFrame(s: Bytes, lastId: Option<Bytes>, frames: seq<seq<Bytes>>)
    requires frames != [] && FirstFault(frames[0]).Some?
    ensures EventsOfFrames(Reading([], lastId, s, FirstFault(frames[0])), frames, lastId)
  {
    hide FirstFault;
    assert frames[..0] == [];
  }

  /** One good frame in front of what is already read. */
  lemma FrameInFront(first: seq<Bytes>, d: Reading, frames: seq<seq<Bytes>>, lastId: Option<Bytes>)
    requires FirstFault(first).None? && EventsOfFrames(d, frames, OrElse(FrameId(first), lastId))
    ensures EventsOfFrames(d.(events := [EventOf(first, lastId)] + d.events), [first] + frames, lastId)
  {
    hide EventOf, FrameId, FirstFault, EventIsFrame, LastIdOf;
    var all, events := [first] + frames, [EventOf(first, lastId)] + d.events;
    assert all[..|events|] == [first] + frames[..|d.events|];
    LastIdCons(first, frames[..|d.events|], lastId);
    FirstEvent(first, frames, lastId);
    forall i | 0 <= i < |events| ensures EventIsFrame(events[i], all, i, lastId) {
      if i > 0 { EventShift(d.events[i - 1], first, frames, i - 1, lastId); }
    }
  }

  lemma {:induction false} ReadFrames(s: Bytes, lastId: Option<Bytes>)
    ensures EventsOfFrames(Decode(s, lastId), Frames(s), lastId)
    decreases |s|
  {
    hide EventOf, FrameId, FirstFault, EventsOfFrames, CutFrame;
    var cut := CutFrame(s);
    if cut.NoFrame? {
      NoFrameRead(s, lastId, Frames(s));
    } else if FirstFault(cut.lines).Some? {
      FaultyFrame(s, lastId, Frames(s));
    } else {
      var id := OrElse(FrameId(cut.lines), lastId);
      ReadFrames(s[cut.used..], id);
      FrameInFront(cut.lines, Decode(s[cut.used..], id), Frames(s[cut.used..]), lastId);
    }
  }

  /**
    The events are the frames before the first faulty one, each with the last usable id seen so far, and the id left
    in force is the last one among those frames.
   */
  lemma EventsAreFrames(s: Bytes, lastId: Option<Bytes>)
    ensures var d, frames := Decode(s, lastId), Frames(s);
            && |d.events| <= |frames|
            && (d.fault.None? <==> |d.events| == |frames|)
            && (d.fault.Some? ==> d.fault == FirstFault(frames[|d.events|]))
            && d.lastId == LastIdOf(frames[..|d.events|], lastId)
            && forall i :: 0 <= i < |d.events| ==> EventIsFrame(d.events[i], frames, i, lastId)
  {
    hide Decode, Frames, FirstFault, LastIdOf, EventIsFrame;
    ReadFrames(s, lastId);
  }

  // ---------------------------------------------------------------- UTF-8

  ghost predicate AllValid(values: seq<Bytes>) { forall v :: v in values ==> ValidUtf8(v) }

  ghost predicate TextEvent(e: SseEvent) {
    ValidUtf8(e.event) && ValidUtf8(e.data) && (e.id.Some? ==> ValidUtf8(e.id.value))
  }

  lemma {:induction false} ValuesValid(lines: seq<Bytes>, kind: Kind)
    requires FirstFault(lines).None? && kind in {Event, Data, Id}
    ensures AllValid(Values(lines, kind))
  {
    hide ValidUtf8;
    if lines != [] { ValuesValid(lines[..|lines| - 1], kind); }
  }

  lemma {:induction false} JoinValid(values: seq<Bytes>)
    requires AllValid(values)
    ensures ValidUtf8(Join(values))
  {
    if |values| > 1 {
      JoinValid(values[..|values| - 1]);
      ValidAscii([LF]);
      var front := Join(values[..|values| - 1]);
      ValidConcat(front, [LF]);
      ValidConcat(front + [LF], values[|values| - 1]);
    } else if values == [] {
      ValidAscii([]);
    }
  }

  lemma {:induction false} DropValid(values: seq<Bytes>)
    requires AllValid(values)
    ensures AllValid(DropLeadingEmpty(values))
  {
    if values != [] && values[0] == [] { DropValid(values[1..]); }
  }

  lemma {:induction false} FilterMember(values: seq<Bytes>, keep: Bytes -> bool)
    ensures forall v :: v in Filter(values, keep) ==> v in values && keep(v)
  {
    if values != [] { FilterMember(values[..|values| - 1], keep); }
  }

  lemma MessageValid()
    ensures ValidUtf8(MESSAGE)
  {
    hide ValidUtf8;
    ValidAscii(MESSAGE);
  }

  /** Whatever bytes arrive, every string the parser hands out is valid UTF-8, and a frame id is usable. */
  lemma FrameIsText(lines: seq<Bytes>, lastId: Option<Bytes>)
    requires FirstFault(lines).None? && (lastId.Some? ==> ValidUtf8(lastId.value))
    ensures TextEvent(EventOf(lines, lastId))
    ensures FrameId(lines).Some? ==> ValidUtf8(FrameId(lines).value) && UsableId(FrameId(lines).value)
  {
    ValuesValid(lines, Event);
    ValuesValid(lines, Data);
    ValuesValid(lines, Id);
    hide ValidUtf8, Values, FirstFault;
    DropValid(Values(lines, Data));
    JoinValid(DropLeadingEmpty(Values(lines, Data)));
    FilterMember(Values(lines, Id), UsableId);
    MessageValid();
  }

  lemma {:induction false} EventsAreText(s: Bytes, lastId: Option<Bytes>)
    requires lastId.Some? ==> ValidUtf8(lastId.value)
    ensures forall e :: e in Decode(s, lastId).events ==> TextEvent(e)
    decreases |s|
  {
    hide EventOf, FrameId, FirstFault, TextEvent;
    match CutFrame(s)
    case NoFrame =>
    case Frame(lines, used) =>
      if FirstFault(lines).None? {
        FrameIsText(lines, lastId);
        EventsAreText(s[used..], OrElse(FrameId(lines), lastId));
      }
  }
}
