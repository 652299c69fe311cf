/**
  Conservation: with fixed rates, refunds adjacent to their charges and cached reads no larger than the turn's own
  prompt, the breakdown adds up to the totals and no subtraction is cut off.
 */
module CostConserve {
  import opened Common
  import opened Cost
  import opened CostLaws
  import opened CostSum
  import opened MapTotals

  /** A turn that was charged and has not completed, and the bucket it was charged to. */
  datatype Turn = Turn(model: string, tokens: U64, key: string)

  datatype Book = Book(ledger: Ledger, running: map<nat, Turn>, next: nat)

  datatype Act =
    | Begin(model: string, tokens: U64, images: U64)
    | Bounce(model: string, tokens: U64, images: U64)  // charged, then at once refunded
    | Finish(turn: nat, completion: nat, cache: Option<CacheUsage>)

  /** Configuration with the fixed rate of every model. */
  datatype Setup = Setup(cfg: Config, rates: map<string, Rates>) {
    function RatesOf(model: string): Option<Rates> { if model in rates then Some(rates[model]) else None }
    function Due(model: string, tokens: U64): nat { if model in rates then Price(tokens, rates[model].input) else 0 }
  }

  function Do(s: Setup, b: Book, a: Act): Book {
    match a
    case Begin(model, tokens, images) =>
      var key := KeyFor(b.ledger.perModel, model, s.cfg.maxTracked).0;
      Book(Charged(b.ledger, model, s.cfg.maxTracked, ChargeFor(tokens, images, s.RatesOf(model))),
           b.running[b.next := Turn(model, tokens, key)], b.next + 1)
    case Bounce(model, tokens, images) =>
      var c := ChargeFor(tokens, images, s.RatesOf(model));
      Book(Refunded(Charged(b.ledger, model, s.cfg.maxTracked, c), model, s.cfg.maxTracked, c), b.running, b.next + 1)
    case Finish(turn, completion, cache) =>
      if turn !in b.running then b
      else
        var model := b.running[turn].model;
        Book(Completed(b.ledger, s.cfg, model, completion, cache, s.RatesOf(model)), b.running - {turn}, b.next)
  }

  function DoAll(s: Setup, acts: seq<Act>): Book {
    if acts == [] then Book(EMPTY, map[], 0) else Do(s, DoAll(s, acts[..|acts| - 1]), acts[|acts| - 1])
  }

  /** No turn opens a bucket with an empty prompt, and a response reports at most its own turn's prompt as cached. */
  predicate Honest(s: Setup, b: Book, a: Act) {
    match a
    case Begin(model, tokens, _) =>
      tokens > 0 || KeyFor(b.ledger.perModel, model, s.cfg.maxTracked).0 in b.ledger.perModel
    case Bounce(_, _, _) => true
    case Finish(turn, _, cache) => turn in b.running && cache.Some? ==> cache.value.read <= b.running[turn].tokens
  }

  predicate AllHonest(s: Setup, acts: seq<Act>) {
    acts == [] || (AllHonest(s, acts[..|acts| - 1]) && Honest(s, DoAll(s, acts[..|acts| - 1]), acts[|acts| - 1]))
  }

  // ------------------------------------------------------------- overflow

  /** A refund off the spend and then a delta on top overflow no counter. */
  predicate ChangeFits(e: CostEntry, d: CostEntry, refund: nat) {
    InRange(Plus(e.(spent := SatSub(e.spent, refund)), d))
  }

  function ChargeEntryFor(s: Setup, model: string, tokens: U64): CostEntry {
    CostEntry(tokens, 0, 0, 0, s.Due(model, tokens), 0)
  }

  /** What completing the turn now would add and take off. */
  function SettlementOf(s: Setup, b: Book, turn: nat, completion: nat, cache: Option<CacheUsage>): Settlement
    requires turn in b.running
  {
    SettlementFor(b.ledger, s.cfg, b.running[turn].model, completion, cache, s.RatesOf(b.running[turn].model))
  }

  /** The act overflows none of the totals it meets. */
  predicate Room(s: Setup, b: Book, a: Act) {
    var e := b.ledger.totals.entry;
    match a
    case Begin(model, tokens, _) => ChangeFits(e, ChargeEntryFor(s, model, tokens), 0)
    case Bounce(model, tokens, _) => ChangeFits(e, ChargeEntryFor(s, model, tokens), 0)
    case Finish(turn, completion, cache) =>
      turn in b.running ==>
        var st := SettlementOf(s, b, turn, completion, cache);
        ChangeFits(e, st.delta, st.refund)
  }

  predicate AllRoom(s: Setup, acts: seq<Act>) {
    acts == [] || (AllRoom(s, acts[..|acts| - 1]) && Room(s, DoAll(s, acts[..|acts| - 1]), acts[|acts| - 1]))
  }

  // ------------------------------------------------------------ invariant

  /** Prompt tokens, and their price, of running turns charged to `key`. */
  function TokensAt(key: string): Turn -> nat { (t: Turn) => if t.key == key then t.tokens else 0 }
  function DueAt(s: Setup, key: string): Turn -> nat {
    (t: Turn) => if t.key == key then s.Due(t.model, t.tokens) else 0
  }

  /** A bucket still holds the price of its running turns, and cached reads are a part of what was charged to it. */
  ghost predicate Covered(s: Setup, b: Book, key: string) {
    && Total(b.running, DueAt(s, key)) <= Bucket(b.ledger.perModel, key).spent
    && Total(b.running, TokensAt(key)) + Bucket(b.ledger.perModel, key).cacheRead
       <= Bucket(b.ledger.perModel, key).prompt
  }

  /** A running turn still resolves to the bucket it was charged to. */
  ghost predicate AtHome(s: Setup, b: Book, t: nat)
    requires t in b.running
  {
    && t < b.next && b.running[t].key in b.ledger.perModel
    && KeyFor(b.ledger.perModel, b.running[t].model, s.cfg.maxTracked).0 == b.running[t].key
  }

  ghost predicate Sound(s: Setup, b: Book) {
    && b.ledger.totals.entry == SumOf(b.ledger.perModel) && InRange(b.ledger.totals.entry)
    && (forall k :: k in b.ledger.perModel ==> b.ledger.perModel[k] != ZERO)
    && (forall t :: t in b.running ==> AtHome(s, b, t))
    && forall key: string :: Covered(s, b, key)
  }

  // ---------------------------------------------------------------- steps

  /** Writing to the bucket some model resolves to moves no other model that already has a bucket. */
  lemma KeyStable(m: map<string, CostEntry>, writer: string, e: CostEntry, model: string, maxTracked: nat)
    requires KeyFor(m, model, maxTracked).0 in m
    ensures var after := m[KeyFor(m, writer, maxTracked).0 := e];
            KeyFor(after, model, maxTracked).0 == KeyFor(m, model, maxTracked).0
  {
    hide OVERFLOW, Tracked;
    TrackedWrite(m, KeyFor(m, writer, maxTracked).0, e);
  }

  /** A change that fits the totals fits every bucket they are the sum of, and is applied exactly. */
  lemma ChangeIsExact(e: CostEntry, sum: CostEntry, d: CostEntry, refund: nat)
    requires Below(e, sum) && refund <= e.spent && ChangeFits(sum, d, refund)
    ensures CommitTo(e, d, refund) == Changed(e, d, refund) && InRange(Changed(e, d, refund))
    ensures refund == 0 ==> Add(e, d) == Changed(e, d, 0)
  {
  }

  lemma BelowItself(e: CostEntry)
    ensures Below(e, e)
  {
  }

  /** `refund` off the spend, then `d` on top. */
  function Changed(e: CostEntry, d: CostEntry, refund: nat): CostEntry
    requires refund <= e.spent
  {
    Plus(e.(spent := e.spent - refund), d)
  }

  lemma ChangedInStep(others: CostEntry, e: CostEntry, d: CostEntry, refund: nat)
    requires refund <= e.spent
    ensures Plus(others, Changed(e, d, refund)) == Changed(Plus(others, e), d, refund)
  {
  }

  /** The same change to the totals and to one bucket keeps them in step. */
  lemma SumInStep(m: map<string, CostEntry>, key: string, d: CostEntry, refund: nat)
    requires refund <= Bucket(m, key).spent
    ensures refund <= SumOf(m).spent
    ensures SumOf(m[key := Changed(Bucket(m, key), d, refund)]) == Changed(SumOf(m), d, refund)
  {
    SumUpdate(m, key, Changed(Bucket(m, key), d, refund));
    hide SumOf, Bucket;
    ChangedInStep(SumOf(m - {key}), Bucket(m, key), d, refund);
  }

  lemma ChargeEntry(s: Setup, model: string, tokens: U64, images: U64)
    ensures ChargeFor(tokens, images, s.RatesOf(model)).Entry() == CostEntry(tokens, 0, 0, 0, s.Due(model, tokens), 0)
  {
    hide Price;
  }

  lemma HomesKept(s: Setup, b: Book, writer: string, e: CostEntry, t: nat)
    requires t in b.running && AtHome(s, b, t)
    ensures var key := KeyFor(b.ledger.perModel, writer, s.cfg.maxTracked).0;
            var after := b.ledger.perModel[key := e];
            b.running[t].key in after && KeyFor(after, b.running[t].model, s.cfg.maxTracked).0 == b.running[t].key
  {
    KeyStable(b.ledger.perModel, writer, e, b.running[t].model, s.cfg.maxTracked);
  }

  /** What a charge does to the two maps, without saturation. */
  lemma BeginEffect(s: Setup, b: Book, model: string, tokens: U64, images: U64)
    requires b.ledger.totals.entry == SumOf(b.ledger.perModel)
    requires ChangeFits(b.ledger.totals.entry, ChargeEntryFor(s, model, tokens), 0)
    ensures var w := ChargeEntryFor(s, model, tokens);
            var after := Do(s, b, Begin(model, tokens, images)).ledger;
            var m := b.ledger.perModel;
            var key := KeyFor(m, model, s.cfg.maxTracked).0;
            && after.perModel == m[key := Changed(Bucket(m, key), w, 0)]
            && after.totals.entry == SumOf(after.perModel) && InRange(after.totals.entry)
  {
    hide KeyFor, SumOf, Add, Below, InRange, ChangeFits, CommitTo, ChargeFor, OVERFLOW;
    var m := b.ledger.perModel;
    var key := KeyFor(m, model, s.cfg.maxTracked).0;
    var w := ChargeEntryFor(s, model, tokens);
    ChargeEntry(s, model, tokens, images);
    BucketBelow(m, key);
    BelowItself(SumOf(m));
    ChangeIsExact(Bucket(m, key), SumOf(m), w, 0);
    ChangeIsExact(SumOf(m), SumOf(m), w, 0);
    SumInStep(m, key, w, 0);
    hide Changed;
    assert key !in m ==> w == Changed(ZERO, w, 0) by { ChangedZero(w); }
  }

  lemma ChangedZero(w: CostEntry)
    ensures w == Changed(ZERO, w, 0)
  {
  }

  /** A bucket that gains tokens and their price covers one more running turn. */
  lemma CoveredByCharge(s: Setup, b: Book, after: Book, t: Turn, key: string)
    requires forall u :: u in b.running ==> AtHome(s, b, u)
    requires Covered(s, b, key)
    requires var w := ChargeEntryFor(s, t.model, t.tokens);
             after.ledger.perModel == b.ledger.perModel[t.key := Changed(Bucket(b.ledger.perModel, t.key), w, 0)]
             && after.running == b.running[b.next := t]
    ensures Covered(s, after, key)
  {
    hide AtHome;
    FreshTurn(s, b, t, key);
  }

  /** Adding something to a bucket, or anything to one that is not all zero, leaves it not all zero. */
  lemma StillNonZero(e: CostEntry, w: CostEntry)
    requires e != ZERO || w.prompt > 0
    ensures Changed(e, w, 0) != ZERO
  {
  }

  lemma BeginSound(s: Setup, b: Book, model: string, tokens: U64, images: U64)
    requires Sound(s, b) && Honest(s, b, Begin(model, tokens, images)) && Room(s, b, Begin(model, tokens, images))
    ensures Sound(s, Do(s, b, Begin(model, tokens, images)))
  {
    var m := b.ledger.perModel;
    var key := KeyFor(m, model, s.cfg.maxTracked).0;
    var after := Do(s, b, Begin(model, tokens, images));
    BeginEffect(s, b, model, tokens, images);
    hide SumOf, Below, InRange, OVERFLOW, Tracked, Charged, Covered, KeyFor, ChargeFor, Changed, ChangeFits;
    StillNonZero(Bucket(m, key), ChargeEntryFor(s, model, tokens));
    BeginHomes(s, b, after, Turn(model, tokens, key));
    hide AtHome, Do, ChargeEntryFor;
    forall k: string ensures Covered(s, after, k) {
      CoveredByCharge(s, b, after, Turn(model, tokens, key), k);
    }
  }

  lemma BeginHomes(s: Setup, b: Book, after: Book, t: Turn)
    requires forall u :: u in b.running ==> AtHome(s, b, u)
    requires t.key == KeyFor(b.ledger.perModel, t.model, s.cfg.maxTracked).0
    requires after.running == b.running[b.next := t] && after.next == b.next + 1
    requires t.key in after.ledger.perModel
            && after.ledger.perModel == b.ledger.perModel[t.key := after.ledger.perModel[t.key]]
    ensures forall u :: u in after.running ==> AtHome(s, after, u)
  {
    hide OVERFLOW, Tracked, KeyFor;
    var e := after.ledger.perModel[t.key];
    KeyOfWriter(b.ledger.perModel, t.model, e, s.cfg.maxTracked);
    forall u | u in after.running ensures AtHome(s, after, u) {
      if u in b.running && u != b.next { HomesKept(s, b, t.model, e, u); }
    }
  }

  lemma KeyOfWriter(m: map<string, CostEntry>, model: string, e: CostEntry, maxTracked: nat)
    ensures KeyFor(m[KeyFor(m, model, maxTracked).0 := e], model, maxTracked).0 == KeyFor(m, model, maxTracked).0
  {
    hide OVERFLOW, Tracked;
    TrackedWrite(m, KeyFor(m, model, maxTracked).0, e);
  }

  lemma FreshTurn(s: Setup, b: Book, t: Turn, key: string)
    requires forall u :: u in b.running ==> AtHome(s, b, u)
    ensures Total(b.running[b.next := t], DueAt(s, key)) == Total(b.running, DueAt(s, key)) + DueAt(s, key)(t)
    ensures Total(b.running[b.next := t], TokensAt(key)) == Total(b.running, TokensAt(key)) + TokensAt(key)(t)
  {
    assert forall u :: u in b.running ==> AtHome(s, b, u) && u < b.next;
    TotalUpdate(b.running, b.next, t, DueAt(s, key));
    TotalUpdate(b.running, b.next, t, TokensAt(key));
  }

  lemma BounceSound(s: Setup, b: Book, model: string, tokens: U64, images: U64)
    requires Sound(s, b) && Room(s, b, Bounce(model, tokens, images))
    ensures Sound(s, Do(s, b, Bounce(model, tokens, images)))
    ensures Do(s, b, Bounce(model, tokens, images)).ledger.perModel == b.ledger.perModel
  {
    BounceEffect(s, b, model, tokens, images);
    hide SumOf, InRange, KeyFor, Do;
    var after := Do(s, b, Bounce(model, tokens, images));
    forall t | t in after.running ensures AtHome(s, after, t) { assert AtHome(s, b, t); }
    forall k: string ensures Covered(s, after, k) { assert Covered(s, b, k); }
  }

  lemma BounceEffect(s: Setup, b: Book, model: string, tokens: U64, images: U64)
    requires Sound(s, b) && Room(s, b, Bounce(model, tokens, images))
    ensures var after := Do(s, b, Bounce(model, tokens, images));
            && after.ledger.perModel == b.ledger.perModel && after.ledger.totals.entry == b.ledger.totals.entry
            && after.running == b.running && after.next == b.next + 1
  {
    hide SumOf, Below, InRange, ChangeFits, OVERFLOW, KeyFor, Charged, Refunded, Covered, AtHome, ChargeFor;
    var m := b.ledger.perModel;
    var key := KeyFor(m, model, s.cfg.maxTracked).0;
    ChargeEntry(s, model, tokens, images);
    BucketBelow(m, key);
    RoomBelow(Bucket(m, key), SumOf(m), ChargeEntryFor(s, model, tokens));
    EntriesUndone(b.ledger, model, s.cfg.maxTracked, ChargeFor(tokens, images, s.RatesOf(model)));
    if key !in m { assert m - {key} == m; }
  }

  lemma RoomBelow(e: CostEntry, sum: CostEntry, w: CostEntry)
    requires Below(e, sum) && ChangeFits(sum, w, 0)
    ensures InRange(e) && InRange(sum)
    ensures e.prompt + w.prompt <= U64_MAX && e.spent + w.spent <= U64_MAX
    ensures sum.prompt + w.prompt <= U64_MAX && sum.spent + w.spent <= U64_MAX
  {
  }

  /** Cached reads within the turn's own prompt: the clamp does not bite, and the refund is covered by the bucket. */
  lemma FinishSettlement(s: Setup, b: Book, turn: nat, completion: nat, cache: Option<CacheUsage>)
    requires Sound(s, b) && turn in b.running && Honest(s, b, Finish(turn, completion, cache))
    ensures var t := b.running[turn];
            var st := SettlementOf(s, b, turn, completion, cache);
            && st.delta.cacheRead == (if cache.Some? then cache.value.read else 0)
            && st.delta.cacheRead <= t.tokens && st.delta.prompt == 0 && st.delta.turns == 1
            && st.refund <= s.Due(t.model, t.tokens)
            && st.refund <= Bucket(b.ledger.perModel, t.key).spent
            && st.refund <= b.ledger.totals.entry.spent
  {
    var t := b.running[turn];
    var m := b.ledger.perModel;
    assert AtHome(s, b, turn) && Covered(s, b, t.key);
    TotalMember(b.running, turn, DueAt(s, t.key));
    TotalMember(b.running, turn, TokensAt(t.key));
    BucketBelow(m, t.key);
    assert t.tokens <= Bucket(m, t.key).prompt;
    if cache.Some? {
      if t.model in s.rates { PriceMonotone(cache.value.read, t.tokens, s.rates[t.model].input); }
    }
    hide KeyFor, SumOf, OVERFLOW, Price;
  }

  lemma FinishEffect(s: Setup, b: Book, turn: nat, completion: nat, cache: Option<CacheUsage>)
    requires var a := Finish(turn, completion, cache);
            Sound(s, b) && turn in b.running && Honest(s, b, a) && Room(s, b, a)
    ensures var t, m, after := b.running[turn], b.ledger.perModel, Do(s, b, Finish(turn, completion, cache)).ledger;
            var st := SettlementOf(s, b, turn, completion, cache);
            && st.delta.prompt == 0 && st.delta.turns == 1 && st.delta.cacheRead <= t.tokens
            && st.refund <= s.Due(t.model, t.tokens) && st.refund <= Bucket(m, t.key).spent
            && after.perModel == m[t.key := Changed(Bucket(m, t.key), st.delta, st.refund)]
            && after.totals.entry == SumOf(after.perModel) && InRange(after.totals.entry)
  {
    var t, m := b.running[turn], b.ledger.perModel;
    var st := SettlementOf(s, b, turn, completion, cache);
    FinishSettlement(s, b, turn, completion, cache);
    assert AtHome(s, b, turn);
    hide KeyFor, SumOf, OVERFLOW, Below, InRange, ChangeFits, CommitTo, SettlementFor, Covered;
    BucketBelow(m, t.key);
    BelowItself(SumOf(m));
    ChangeIsExact(Bucket(m, t.key), SumOf(m), st.delta, st.refund);
    ChangeIsExact(SumOf(m), SumOf(m), st.delta, st.refund);
    SumInStep(m, t.key, st.delta, st.refund);
  }

  /** A completion takes off at most the price of its own turn and reads at most its own tokens. */
  lemma CoveredByFinish(s: Setup, b: Book, after: Book, turn: nat, d: CostEntry, refund: nat, key: string)
    requires Covered(s, b, key) && turn in b.running
    requires var t := b.running[turn];
             && d.prompt == 0 && d.cacheRead <= t.tokens && refund <= s.Due(t.model, t.tokens)
             && refund <= Bucket(b.ledger.perModel, t.key).spent
             && after.ledger.perModel ==
                  b.ledger.perModel[t.key := Changed(Bucket(b.ledger.perModel, t.key), d, refund)]
             && after.running == b.running - {turn}
    ensures Covered(s, after, key)
  {
    TotalRemove(b.running, turn, DueAt(s, key));
    TotalRemove(b.running, turn, TokensAt(key));
  }

  lemma FinishSound(s: Setup, b: Book, turn: nat, completion: nat, cache: Option<CacheUsage>)
    requires var a := Finish(turn, completion, cache);
            Sound(s, b) && turn in b.running && Honest(s, b, a) && Room(s, b, a)
    ensures Sound(s, Do(s, b, Finish(turn, completion, cache)))
  {
    FinishEffect(s, b, turn, completion, cache);
    hide KeyFor, SumOf, OVERFLOW, Below, InRange, CommitTo, SettlementFor, Room, Completed, Covered;
    var t, m, after := b.running[turn], b.ledger.perModel, Do(s, b, Finish(turn, completion, cache));
    var st := SettlementOf(s, b, turn, completion, cache);
    assert AtHome(s, b, turn);
    forall u | u in after.running ensures AtHome(s, after, u) {
      HomesKept(s, b, t.model, after.ledger.perModel[t.key], u);
    }
    hide AtHome;
    forall k: string ensures Covered(s, after, k) {
      CoveredByFinish(s, b, after, turn, st.delta, st.refund, k);
    }
  }

  // ----------------------------------------------------------------- runs

  lemma StartSound(s: Setup)
    ensures Sound(s, Book(EMPTY, map[], 0))
  {
  }

  lemma {:induction false} SoundRun(s: Setup, acts: seq<Act>)
    requires AllHonest(s, acts) && AllRoom(s, acts)
    ensures Sound(s, DoAll(s, acts))
  {
    hide Sound, Do, Honest, Room;
    if acts == [] {
      StartSound(s);
    } else {
      SoundRun(s, acts[..|acts| - 1]);
      SoundStep(s, DoAll(s, acts[..|acts| - 1]), acts[|acts| - 1]);
    }
  }

  lemma SoundStep(s: Setup, b: Book, a: Act)
    requires Sound(s, b) && Honest(s, b, a) && Room(s, b, a)
    ensures Sound(s, Do(s, b, a))
  {
    hide Sound, KeyFor, Charged, Refunded, Completed, Price, Room;
    match a
    case Begin(model, tokens, images) => BeginSound(s, b, model, tokens, images);
    case Bounce(model, tokens, images) => BounceSound(s, b, model, tokens, images);
    case Finish(turn, completion, cache) =>
      if turn in b.running { FinishSound(s, b, turn, completion, cache); }
  }

  /**
    In every such run every total is the sum over the buckets, and cached reads are a part of the prompt tokens, in
    total and for each model.
   */
  lemma Conservation(s: Setup, acts: seq<Act>)
    requires AllHonest(s, acts) && AllRoom(s, acts)
    ensures var l := DoAll(s, acts).ledger;
            && l.totals.entry == SumOf(l.perModel)
            && l.totals.entry.cacheRead <= l.totals.entry.prompt
            && forall k :: k in l.perModel ==> l.perModel[k].cacheRead <= l.perModel[k].prompt
  {
    SoundRun(s, acts);
    var b := DoAll(s, acts);
    hide DoAll;
    forall k | k in b.ledger.perModel ensures b.ledger.perModel[k].cacheRead <= b.ledger.perModel[k].prompt {
      assert Covered(s, b, k);
    }
    TotalBelow(b.ledger.perModel, ReadIn, PromptIn);
  }

  /**
    In every such run the next completion's refund is covered by the totals and by the bucket it comes out of, and the
    cached reads are applied unclamped: no subtraction is cut off.
   */
  lemma NoSubtractionSaturates(s: Setup, acts: seq<Act>, turn: nat, completion: nat, cache: Option<CacheUsage>)
    requires AllHonest(s, acts) && AllRoom(s, acts)
    requires var b := DoAll(s, acts); turn in b.running && Honest(s, b, Finish(turn, completion, cache))
    ensures var b := DoAll(s, acts);
            var st := SettlementOf(s, b, turn, completion, cache);
            && st.delta.cacheRead == (if cache.Some? then cache.value.read else 0)
            && st.refund <= b.ledger.totals.entry.spent
            && st.refund <= Home(b.ledger, s.cfg, b.running[turn].model).spent
  {
    hide AllHonest, AllRoom, DoAll;
    SoundRun(s, acts);
    FinishSettlement(s, DoAll(s, acts), turn, completion, cache);
    assert AtHome(s, DoAll(s, acts), turn);
  }
}
