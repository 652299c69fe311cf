/** What one turn does to every counter, in plain sums and at the rates of the call. */
module CostEffects {
  import opened Common
  import opened Cost

  /** A counter that stops at the largest `u64`. */
  predicate Grown(after: nat, before: nat, more: nat) {
    after == before + more || (after == U64_MAX && before + more > U64_MAX)
  }

  /** The tokens at the rate, rounded down to whole micro-units. */
  predicate Worth(micros: nat, tokens: nat, rate: nat) {
    || 1_000_000 * micros <= tokens * rate < 1_000_000 * micros + 1_000_000
    || (micros == U64_MAX && tokens * rate >= 1_000_000 * U64_MAX)
  }

  /** A cap that a total can pass is passed by more than its value; reaching it exactly is allowed. */
  predicate Exceeds(sum: nat, cap: Option<U64>) {
    cap.Some? && sum > cap.value && cap.value < 0xFFFF_FFFF_FFFF_FFFF
  }

  /** A request is refused for its tokens, and only then for its price, exactly when the plain sum exceeds the cap. */
  lemma RefusedIff(cfg: Config, l: Ledger, c: Charge)
    ensures CapCrossed(cfg, l, c) == Some(TokenCap) <==>
              Exceeds(l.totals.entry.prompt + l.totals.entry.completion + c.prompt, cfg.capTokens)
    ensures CapCrossed(cfg, l, c) == Some(MicrosCap) <==>
              && Exceeds(l.totals.entry.spent + c.micros, cfg.capMicros)
              && !Exceeds(l.totals.entry.prompt + l.totals.entry.completion + c.prompt, cfg.capTokens)
    ensures CapCrossed(cfg, l, c).None? <==>
              && !Exceeds(l.totals.entry.prompt + l.totals.entry.completion + c.prompt, cfg.capTokens)
              && !Exceeds(l.totals.entry.spent + c.micros, cfg.capMicros)
  {
    assert 0xFFFF_FFFF_FFFF_FFFF == U64_MAX;
  }

  /** An entry after `tokens` prompt tokens worth `micros` were charged. */
  predicate PromptCharged(after: CostEntry, before: CostEntry, tokens: nat, micros: nat) {
    && Grown(after.prompt, before.prompt, tokens) && Grown(after.spent, before.spent, micros)
    && after.completion == before.completion && after.cacheRead == before.cacheRead
    && after.cacheWrite == before.cacheWrite && after.turns == before.turns
  }

  predicate Saturated(e: CostEntry) {
    && e.prompt <= U64_MAX && e.completion <= U64_MAX && e.cacheRead <= U64_MAX
    && e.cacheWrite <= U64_MAX && e.spent <= U64_MAX && e.turns <= U64_MAX
  }

  /**
    An admitted request charges its prompt tokens at the input rate, to the totals and to its model's bucket alike,
    counts its images, and counts as unpriced exactly when the model has no rates.
   */
  lemma RequestCounts(l: Ledger, cfg: Config, model: string, tokens: U64, images: U64, rates: Option<Rates>)
    returns (micros: nat)
    requires Saturated(l.totals.entry) && Saturated(Home(l, cfg, model))
    ensures rates.None? ==> micros == 0
    ensures rates.Some? ==> Worth(micros, tokens, rates.value.input)
    ensures var key := KeyFor(l.perModel, model, cfg.maxTracked).0;
            var after := Charged(l, model, cfg.maxTracked, ChargeFor(tokens, images, rates));
            && PromptCharged(after.totals.entry, l.totals.entry, tokens, micros)
            && PromptCharged(Bucket(after.perModel, key), Bucket(l.perModel, key), tokens, micros)
            && (forall k :: k != key ==> Bucket(after.perModel, k) == Bucket(l.perModel, k))
            && Grown(after.totals.unpriced, l.totals.unpriced, if rates.None? then 1 else 0)
            && Grown(after.totals.images, l.totals.images, images)
            && after.totals.overflowTurns == l.totals.overflowTurns
  {
    micros := if rates.Some? then Price(tokens, rates.value.input) else 0;
    if rates.Some? { PriceWorth(tokens, rates.value.input); }
    var c := ChargeFor(tokens, images, rates);
    EntryCharged(l.totals.entry, c);
    EntryCharged(Home(l, cfg, model), c);
    OneBucketCharged(l, cfg, model, c);
    hide KeyFor, Price, Add, Bucket, PromptCharged;
  }

  lemma EntryCharged(e: CostEntry, c: Charge)
    requires Saturated(e)
    ensures PromptCharged(Add(e, c.Entry()), e, c.prompt, c.micros)
    ensures Add(ZERO, c.Entry()) == c.Entry()
  {
  }

  lemma OneBucketCharged(l: Ledger, cfg: Config, model: string, c: Charge)
    requires Add(ZERO, c.Entry()) == c.Entry()
    ensures var key := KeyFor(l.perModel, model, cfg.maxTracked).0;
            var after := Charged(l, model, cfg.maxTracked, c).perModel;
            && Bucket(after, key) == Add(Bucket(l.perModel, key), c.Entry())
            && forall k :: k != key ==> Bucket(after, k) == Bucket(l.perModel, k)
  {
    hide KeyFor, Add, ZERO;
  }

  lemma PriceWorth(tokens: nat, rate: nat)
    ensures Worth(Price(tokens, rate), tokens, rate)
  {
  }

  /** An entry after one turn's completion tokens and cached tokens were counted. */
  predicate TurnCounted(after: CostEntry, before: CostEntry, completion: nat, read: nat, write: nat) {
    && after.prompt == before.prompt && Grown(after.completion, before.completion, completion)
    && Grown(after.cacheRead, before.cacheRead, read) && Grown(after.cacheWrite, before.cacheWrite, write)
    && Grown(after.turns, before.turns, 1)
  }

  /**
    A finished turn counts its completion tokens, one turn, its cached writes, and its cached reads up to the prompt
    tokens its model's bucket was charged, in the totals and in that bucket alike, whether or not the model has rates.
   */
  lemma CompletionCounts(l: Ledger, cfg: Config, model: string, completion: nat, cache: Option<CacheUsage>,
                         rates: Option<Rates>)
    requires Saturated(l.totals.entry) && Saturated(Home(l, cfg, model))
    ensures var key := KeyFor(l.perModel, model, cfg.maxTracked).0;
            var after := Completed(l, cfg, model, completion, cache, rates);
            var charged := Home(l, cfg, model).prompt;
            var read := if cache.None? then 0 else if cache.value.read < charged then cache.value.read else charged;
            var write := if cache.None? then 0 else cache.value.write;
            && TurnCounted(after.totals.entry, l.totals.entry, completion, read, write)
            && TurnCounted(Bucket(after.perModel, key), Bucket(l.perModel, key), completion, read, write)
            && (forall k :: k != key ==> Bucket(after.perModel, k) == Bucket(l.perModel, k))
            && after.totals.unpriced == l.totals.unpriced && after.totals.images == l.totals.images
  {
    hide KeyFor, Price;
  }
}
