/** The bounded attempt counters of `src/plugins/guardrails.rs`, and what they count. */
module Guardrails {
  import opened Common
  import opened Text
  import opened Unicode

  const MAX_TRACKED_CALLS: nat := 4096

  /** Attempt counts are `u32` and wrap around. */
  const WRAP: nat := 0x1_0000_0000

  type Id = string

  // ------------------------------------------------------------- counters

  /** Attempt counts by tool-call id, and the tracked ids in first-failure order. */
  datatype Counters = Counters(counts: map<Id, nat>, order: seq<Id>)

  datatype Event = Failed(id: Id) | Passed(id: Id)

  function Without(order: seq<Id>, id: Id): seq<Id> {
    if order == [] then [] else (if order[0] == id then [] else [order[0]]) + Without(order[1..], id)
  }

  /** Oldest ids dropped until one more fits. */
  function MakeRoom(c: Counters): Counters
    decreases |c.order|
  {
    if |c.order| < MAX_TRACKED_CALLS then c else MakeRoom(Counters(c.counts - {c.order[0]}, c.order[1..]))
  }

  /** The attempt number a failure is reported with. */
  function Attempt(c: Counters, id: Id): nat { if id in c.counts then (c.counts[id] + 1) % WRAP else 1 }

  function Next(c: Counters, e: Event): Counters {
    match e
    case Passed(id) => if id in c.counts then Counters(c.counts - {id}, Without(c.order, id)) else c
    case Failed(id) =>
      if id in c.counts then c.(counts := c.counts[id := (c.counts[id] + 1) % WRAP])
      else
        var room := MakeRoom(c);
        Counters(room.counts[id := 1], room.order + [id])
  }

  function Run(history: seq<Event>): Counters {
    if history == [] then Counters(map[], []) else Next(Run(history[..|history| - 1]), history[|history| - 1])
  }

  lemma RunSnoc(history: seq<Event>, e: Event)
    ensures Run(history + [e]) == Next(Run(history), e)
  {
    assert (history + [e])[..|history|] == history;
  }

  // ------------------------------------------------------------ the plugin

  datatype Report = Report(error: string, tool: string, issues: seq<string>)

  /** A JSON value, whatever it is. */
  type Json = string

  /**
    `Feedback` is the `ToolResult` that takes a rejected call's place, and `RejectedText` the text that takes a rejected
    text's place; their reports stand for the JSON text.
   */
  datatype Block =
    | ToolCall(id: Id, name: string, arguments: Json)
    | Feedback(toolCallId: Id, report: Report)
    | TextBlock(text: Bytes)
    | RejectedText(report: Report)
    | Other(content: string)

  /** `serde_json::from_str`, when it succeeds. */
  type Parser = Bytes -> Option<Json>

  /** The text starts like a JSON object: an opening brace after white space. */
  predicate LooksLikeObject(text: Bytes) { TrimStart(text) != [] && TrimStart(text)[0] == 123 }

  /** That is: the first code point that is not white space is an opening brace. */
  lemma ObjectStart(ws: seq<nat>, c: nat, rest: Bytes)
    requires Scalars(ws) && AllWhite(ws) && Scalar(c) && !WhiteSpace(c)
    ensures LooksLikeObject(EncodeAll(ws) + (Encode(c) + rest)) <==> c == '{' as int
    ensures !LooksLikeObject(EncodeAll(ws))
  {
    FirstVisible(ws, c, rest);
    TrimOfWhite(ws);
    hide EncodeAll, TrimStart, WhiteSpace;
  }

  type Validator = (string, Json) -> Result<(), seq<string>>

  const REJECTED := "schema_validation_failed"
  const EXHAUSTED := "guardrail_exhausted"

  class JsonGuardrailPlugin {
    const validate: Validator
    const parse: Parser
    const maxAttempts: nat
    var counts: map<Id, nat>
    var order: seq<Id>
    var lastRetryEvent: Option<(string, string, nat)>
    ghost var history: seq<Event>

    function View(): Counters
      reads this
    {
      Counters(counts, order)
    }

    /** The counters are what the history of verdicts makes them. */
    ghost predicate Valid()
      reads this
    {
      View() == Run(history)
    }

    constructor (validate: Validator, parse: Parser, maxAttempts: nat)
      ensures Valid() && history == []
      ensures this.validate == validate && this.parse == parse && this.maxAttempts == maxAttempts
    {
      this.validate, this.parse, this.maxAttempts := validate, parse, maxAttempts;
      counts, order, lastRetryEvent, history := map[], [], None, [];
    }

    /** `order.retain(|tracked| tracked != id)`. */
    method Retain(id: Id)
      modifies this`order
      ensures order == Without(old(order), id)
    {
      var kept: seq<Id> := [];
      for i := 0 to |order|
        invariant order == old(order) && kept + Without(order[i..], id) == Without(order, id)
      {
        assert order[i..][1..] == order[i + 1..];
        if order[i] != id {
          kept := kept + [order[i]];
          Assoc(kept[..|kept| - 1], [order[i]], Without(order[i + 1..], id));
        }
      }
      order := kept;
      assert Without(old(order)[|old(order)|..], id) == [];
    }

    method RecordPass(id: Id)
      requires Valid()
      modifies this`counts, this`order, this`history
      ensures Valid() && history == old(history) + [Passed(id)]
    {
      RunSnoc(history, Passed(id));
      if id in counts {
        counts := counts - {id};
        Retain(id);
      }
      history := history + [Passed(id)];
    }

    method RecordFailure(id: Id) returns (n: nat)
      requires Valid()
      modifies this`counts, this`order, this`history
      ensures Valid() && history == old(history) + [Failed(id)]
      ensures n == Attempt(Run(old(history)), id)
    {
      RunSnoc(history, Failed(id));
      if id in counts {
        counts := counts[id := (counts[id] + 1) % WRAP];
        n := counts[id];
      } else {
        while |order| >= MAX_TRACKED_CALLS
          invariant history == old(history) && MakeRoom(View()) == MakeRoom(old(View()))
          decreases |order|
        {
          var oldest := order[0];
          order := order[1..];
          counts := counts - {oldest};
        }
        counts := counts[id := 1];
        order := order + [id];
        n := 1;
      }
      history := history + [Failed(id)];
    }

    /** The per-block hook: a rejected tool call or text is replaced by a report, everything else passes. */
    method OnStreamChunk(chunk: Block) returns (out: Block)
      requires Valid()
      modifies this
      ensures Valid()
      ensures !chunk.ToolCall? ==> history == old(history) && lastRetryEvent == old(lastRetryEvent)
      ensures chunk.TextBlock? ==> 
                var value := parse(chunk.text);
                var rejected := LooksLikeObject(chunk.text) && value.Some? && validate("response", value.value).Err?;
                && (!rejected ==> out == chunk)
                && (rejected ==>
                      out == RejectedText(Report("schema_validation_failed", "response",
                                                 validate("response", value.value).error)))
      ensures !chunk.ToolCall? && !chunk.TextBlock? ==> out == chunk
      ensures chunk.ToolCall? ==>
                var verdict := validate(chunk.name, chunk.arguments);
                && history == old(history) + [if verdict.Ok? then Passed(chunk.id) else Failed(chunk.id)]
                && (verdict.Ok? ==> out == chunk && lastRetryEvent == old(lastRetryEvent))
                && (verdict.Err? ==>
                      var n := Attempt(Run(old(history)), chunk.id);
                      var error := if n <= maxAttempts then "schema_validation_failed" else "guardrail_exhausted";
                      && out == Feedback(chunk.id, Report(error, chunk.name, verdict.error))
                      && lastRetryEvent == Some((chunk.name, error, n)))
    {
      out := chunk;
      if chunk.ToolCall? {
        var verdict := validate(chunk.name, chunk.arguments);
        if verdict.Ok? {
          RecordPass(chunk.id);
        } else {
          hide Run, Attempt;
          var n := RecordFailure(chunk.id);
          var error := if n <= maxAttempts then REJECTED else EXHAUSTED;
          lastRetryEvent := Some((chunk.name, error, n));
          out := Feedback(chunk.id, Report(error, chunk.name, verdict.error));
        }
      } else if chunk.TextBlock? && LooksLikeObject(chunk.text) {
        var value := parse(chunk.text);
        if value.Some? {
          var verdict := validate("response", value.value);
          if verdict.Err? {
            out := RejectedText(Report(REJECTED, "response", verdict.error));
          }
        }
      }
    }
  }

  // ------------------------------------------------------------ invariants

  predicate Distinct(order: seq<Id>) { forall i, j :: 0 <= i < j < |order| ==> order[i] != order[j] }

  ghost predicate SameIds(c: Counters) { forall id :: id in c.order <==> id in c.counts }

  /** The two halves of the counters agree, and they are bounded. */
  ghost predicate Agree(c: Counters) {
    Distinct(c.order) && SameIds(c) && |c.order| <= MAX_TRACKED_CALLS
  }

  lemma {:induction false} WithoutIds(order: seq<Id>, id: Id)
    ensures var w := Without(order, id); |w| <= |order| && forall x :: x in w <==> x in order && x != id
  {
    if order != [] {
      WithoutIds(order[1..], id);
      assert order == [order[0]] + order[1..];
    }
  }

  lemma {:induction false} WithoutDistinct(order: seq<Id>, id: Id)
    requires Distinct(order)
    ensures Distinct(Without(order, id))
  {
    if order != [] {
      var w := Without(order[1..], id);
      WithoutDistinct(order[1..], id);
      WithoutIds(order[1..], id);
      assert order[0] !in order[1..];
      forall j | 0 <= j < |w| ensures w[j] != order[0] { assert w[j] in w; }
    }
  }

  /** At the cap, the oldest id goes; below it, nobody does. */
  lemma RoomOfOne(c: Counters)
    requires |c.order| <= MAX_TRACKED_CALLS
    ensures MakeRoom(c) == if |c.order| < MAX_TRACKED_CALLS then c else Counters(c.counts - {c.order[0]}, c.order[1..])
  {
  }

  lemma AgreeNext(c: Counters, e: Event)
    requires Agree(c)
    ensures Agree(Next(c, e))
  {
    hide MakeRoom, Without;
    match e
    case Passed(id) =>
      WithoutIds(c.order, id);
      WithoutDistinct(c.order, id);
    case Failed(id) =>
      if id !in c.counts {
        RoomOfOne(c);
        if |c.order| == MAX_TRACKED_CALLS { assert c.order == [c.order[0]] + c.order[1..]; }
      }
  }

  /** After every history: no id twice, the same ids in both halves, at most 4096 of them. */
  lemma CountersAgree(history: seq<Event>)
    ensures var c := Run(history);
            && Distinct(c.order) && (forall id :: id in c.order <==> id in c.counts)
            && |c.order| <= MAX_TRACKED_CALLS && |c.counts| == |c.order|
  {
    AgreeRun(history);
    KeysOfOrder(Run(history));
  }

  lemma {:induction false} AgreeRun(history: seq<Event>)
    ensures Agree(Run(history))
  {
    hide Agree, Next;
    if history == [] {
      NothingAgrees();
    } else {
      AgreeRun(history[..|history| - 1]);
      AgreeNext(Run(history[..|history| - 1]), history[|history| - 1]);
    }
  }

  lemma NothingAgrees()
    ensures Agree(Counters(map[], []))
  {
  }

  lemma {:induction false} DistinctSize(order: seq<Id>)
    requires Distinct(order)
    ensures |set id | id in order| == |order|
  {
    if order != [] {
      DistinctSize(order[1..]);
      assert (set id | id in order) == {order[0]} + (set id | id in order[1..]);
    }
  }

  lemma KeysOfOrder(c: Counters)
    requires Agree(c)
    ensures |c.counts| == |c.order|
  {
    DistinctSize(c.order);
    assert c.counts.Keys == set id | id in c.order;
  }

  // ----------------------------------------------- what the counters count

  /** Failures of `id` since its last pass: the counter nobody bounds. */
  function Streak(history: seq<Event>, id: Id): nat {
    if history == [] then 0
    else
      var front, e := history[..|history| - 1], history[|history| - 1];
      if e == Failed(id) then Streak(front, id) + 1 else if e == Passed(id) then 0 else Streak(front, id)
  }

  /** This verdict makes the counters drop `id` although `id` did not pass. */
  predicate Evicts(history: seq<Event>, e: Event, id: Id) {
    e != Passed(id) && id in Run(history).counts && id !in Run(history + [e]).counts
  }

  /** `id` was evicted at some point since its last pass. */
  predicate Forgotten(history: seq<Event>, id: Id) {
    history != [] &&
    var front, e := history[..|history| - 1], history[|history| - 1];
    e != Passed(id) && (Forgotten(front, id) || Evicts(front, e, id))
  }

  function Count(c: Counters, id: Id): nat { if id in c.counts then c.counts[id] else 0 }

  /** A verdict about one id changes another's counter only by evicting it. */
  lemma CountNext(c: Counters, e: Event, id: Id)
    requires Agree(c)
    ensures Count(Next(c, e), id) ==
              if e == Passed(id) then 0 else if e == Failed(id) then (Count(c, id) + 1) % WRAP
              else if id in Next(c, e).counts then Count(c, id) else 0
    ensures id !in c.counts && e != Failed(id) ==> id !in Next(c, e).counts
  {
    hide MakeRoom, Without;
    RoomOfOne(c);
  }

  /** A counter against the failures it should count, while these are fewer than wrap it around, and in general. */
  ghost predicate Counts(c: Counters, id: Id, streak: nat, forgotten: bool) {
    && Count(c, id) < WRAP
    && (!forgotten ==> Count(c, id) == streak % WRAP)
    && (streak < WRAP ==> Count(c, id) <= streak && (Count(c, id) == streak <==> !forgotten))
    && (streak < WRAP && id in c.counts ==> c.counts[id] > 0)
  }

  lemma WrapNext(n: nat)
    ensures (n % WRAP + 1) % WRAP == (n + 1) % WRAP
  {
  }

  lemma CountsNext(c: Counters, e: Event, id: Id, streak: nat, forgotten: bool)
    requires Agree(c) && Counts(c, id, streak, forgotten)
    ensures var next := if e == Failed(id) then streak + 1 else if e == Passed(id) then 0 else streak;
            var evicted := e != Passed(id) && id in c.counts && id !in Next(c, e).counts;
            Counts(Next(c, e), id, next, e != Passed(id) && (forgotten || evicted))
  {
    hide MakeRoom, Without;
    RoomOfOne(c);
    CountNext(c, e, id);
    WrapNext(streak);
  }

  lemma {:induction false} CountsRun(history: seq<Event>, id: Id)
    ensures Counts(Run(history), id, Streak(history, id), Forgotten(history, id))
  {
    if history == [] {
      NothingCounted(id);
    } else {
      hide Counts, Agree, Next;
      var front, e := history[..|history| - 1], history[|history| - 1];
      assert history == front + [e];
      CountsRun(front, id);
      AgreeRun(front);
      RunSnoc(front, e);
      CountsNext(Run(front), e, id, Streak(front, id), Forgotten(front, id));
    }
  }

  lemma NothingCounted(id: Id)
    ensures Counts(Counters(map[], []), id, 0, false)
  {
  }

  /**
    The attempt number a failure is reported with is the number of failures since the id's last pass, this one
    included, if and only if the id was not evicted in between and these failures do not wrap the counter around.
    Without an eviction it is that number modulo 2^32; without a wrap it is never larger.
   */
  lemma AttemptIsStreak(history: seq<Event>, id: Id)
    ensures var n, all := Attempt(Run(history), id), Streak(history + [Failed(id)], id);
            && (n == all <==> !Forgotten(history, id) && all < WRAP)
            && (!Forgotten(history, id) ==> n == all % WRAP)
            && (all < WRAP ==> n <= all)
  {
    hide Run, Forgotten, Attempt, Counts, WRAP;
    CountsRun(history, id);
    NextAttempt(Run(history), id, Streak(history, id), Forgotten(history, id));
    assert (history + [Failed(id)])[..|history|] == history;
  }

  lemma NextAttempt(c: Counters, id: Id, streak: nat, forgotten: bool)
    requires Counts(c, id, streak, forgotten)
    ensures var n := Attempt(c, id);
            && (n == streak + 1 <==> !forgotten && streak + 1 < WRAP)
            && (!forgotten ==> n == (streak + 1) % WRAP)
            && (streak + 1 < WRAP ==> n <= streak + 1)
  {
    WrapNext(streak);
  }

  // ------------------------------------------------- who can be evicted

  /** Other ids that started to be tracked after `id` last did. */
  function Newer(history: seq<Event>, id: Id): set<Id> {
    if history == [] then {}
    else
      var front, e := history[..|history| - 1], history[|history| - 1];
      if e.Failed? && e.id !in Run(front).counts then (if e.id == id then {} else Newer(front, id) + {e.id})
      else Newer(front, id)
  }

  /** Whoever stands behind `id` in the order is newer. */
  ghost predicate Behind(order: seq<Id>, id: Id, newer: set<Id>) {
    forall i, j :: 0 <= i < j < |order| && order[i] == id ==> order[j] in newer
  }

  lemma {:induction false} BehindWithout(order: seq<Id>, gone: Id, id: Id, newer: set<Id>)
    requires Behind(order, id, newer)
    ensures Behind(Without(order, gone), id, newer)
  {
    if order != [] {
      var rest := order[1..];
      BehindWithout(rest, gone, id, newer);
      WithoutIds(rest, gone);
      if order[0] == id {
        forall x | x in Without(rest, gone) ensures x in newer { assert x in rest; }
      }
    }
  }

  lemma BehindTail(order: seq<Id>, id: Id, newer: set<Id>)
    requires Behind(order, id, newer) && order != []
    ensures Behind(order[1..], id, newer)
  {
    var rest := order[1..];
    forall i, j | 0 <= i < j < |rest| && rest[i] == id ensures rest[j] in newer {
      assert order[i + 1] == id && order[j + 1] == rest[j];
    }
  }

  lemma BehindLast(order: seq<Id>, last: Id, id: Id, newer: set<Id>)
    requires Behind(order, id, newer) && last !in order
    ensures Behind(order + [last], id, if last == id then {} else newer + {last})
  {
  }

  lemma BehindNext(c: Counters, e: Event, id: Id, newer: set<Id>)
    requires Agree(c) && Behind(c.order, id, newer)
    ensures var after := if e.Failed? && e.id !in c.counts then (if e.id == id then {} else newer + {e.id}) else newer;
            Behind(Next(c, e).order, id, after)
  {
    hide MakeRoom, Without, Behind, Distinct;
    if e.Passed? {
      BehindWithout(c.order, e.id, id, newer);
    } else if e.id !in c.counts {
      RoomOfOne(c);
      if |c.order| == MAX_TRACKED_CALLS {
        BehindTail(c.order, id, newer);
        BehindLast(c.order[1..], e.id, id, newer);
      } else {
        BehindLast(c.order, e.id, id, newer);
      }
    }
  }

  lemma {:induction false} BehindRun(history: seq<Event>, id: Id)
    ensures Behind(Run(history).order, id, Newer(history, id))
  {
    if history != [] {
      hide Next, Behind, Agree;
      BehindRun(history[..|history| - 1], id);
      AgreeRun(history[..|history| - 1]);
      BehindNext(Run(history[..|history| - 1]), history[|history| - 1], id, Newer(history[..|history| - 1], id));
    } else {
      NobodyBehind(id);
    }
  }

  lemma NobodyBehind(id: Id)
    ensures Behind([], id, {})
  {
  }

  /** Only the oldest id of full counters is evicted, by the first failure of an untracked one. */
  lemma EvictedIsOldest(c: Counters, e: Event, id: Id)
    requires Agree(c) && e != Passed(id) && id in c.counts && id !in Next(c, e).counts
    ensures |c.order| == MAX_TRACKED_CALLS && c.order[0] == id && e.Failed? && e.id !in c.counts
  {
    hide MakeRoom, Without;
    RoomOfOne(c);
  }

  /** An id is evicted only once 4096 different other ids have had a first failure since its own. */
  lemma EvictionNeedsManyOthers(history: seq<Event>, e: Event, id: Id)
    requires Evicts(history, e, id)
    ensures id !in Newer(history + [e], id) && |Newer(history + [e], id)| >= MAX_TRACKED_CALLS
  {
    var c := Run(history);
    RunSnoc(history, e);
    AgreeRun(history);
    EvictedIsOldest(c, e, id);
    BehindRun(history, id);
    assert (history + [e])[..|history|] == history;
    var newer := Newer(history + [e], id);
    assert newer == Newer(history, id) + {e.id};
    NewerIsOther(history + [e], id);
    var behind := c.order[1..];
    DistinctSize(behind);
    var ids := set x | x in behind;
    assert e.id !in ids;
    forall x | x in ids ensures x in newer { var j :| 0 <= j < |behind| && behind[j] == x; assert c.order[j + 1] == x; }
    SubsetSize(ids + {e.id}, newer);
  }

  lemma {:induction false} NewerIsOther(history: seq<Event>, id: Id)
    ensures id !in Newer(history, id)
  {
    if history != [] { NewerIsOther(history[..|history| - 1], id); }
  }

  /** Every id that ever failed. */
  function Failing(history: seq<Event>): set<Id> {
    if history == [] then {}
    else
      var e := history[|history| - 1];
      Failing(history[..|history| - 1]) + if e.Failed? then {e.id} else {}
  }

  lemma {:induction false} NewerFails(history: seq<Event>, id: Id)
    ensures Newer(history, id) <= Failing(history) && (id in Run(history).counts ==> id in Failing(history))
  {
    if history != [] {
      var front, e := history[..|history| - 1], history[|history| - 1];
      NewerFails(front, id);
      AgreeRun(front);
      CountNext(Run(front), e, id);
      hide Next, Agree;
    }
  }

  lemma {:induction false} FewNeverForgotten(history: seq<Event>, id: Id)
    requires |Failing(history)| <= MAX_TRACKED_CALLS
    ensures !Forgotten(history, id)
  {
    if history != [] {
      var front, e := history[..|history| - 1], history[|history| - 1];
      assert history == front + [e];
      SubsetSize(Failing(front), Failing(history));
      FewNeverForgotten(front, id);
      if Evicts(front, e, id) {
        EvictionNeedsManyOthers(front, e, id);
        NewerFails(front, id);
        NewerFails(history, id);
        SubsetSize(Newer(history, id) + {id}, Failing(history));
      }
    }
  }

  /**
    While at most 4096 ids have ever failed, the bounded counters report exactly what counters without eviction
    would.
   */
  lemma FewIdsCountedExactly(history: seq<Event>, id: Id)
    requires |Failing(history)| <= MAX_TRACKED_CALLS
    ensures Attempt(Run(history), id) == Streak(history + [Failed(id)], id) % WRAP
  {
    FewNeverForgotten(history, id);
    AttemptIsStreak(history, id);
  }
}
