/** Exactly when the per-model breakdown adds up to the totals. */
module CostBreakdown {
  import opened Common
  import opened Cost
  import opened CostLaws
  import opened CostRuns
  import opened CostSum

  /** Every total is the sum over the buckets. */
  ghost predicate AddsUp(l: Ledger) { l.totals.entry == SumOf(l.perModel) }

  // ---------------------------------------------------------- one counter

  /**
    A total and one of the buckets it sums, when the same amount comes off both and then the same goes on both: nothing
    is cut off either, unless the bucket is all there is.
   */
  predicate Kept(total: nat, bucket: nat, added: nat, taken: nat) {
    bucket == total || (taken <= bucket && total - taken + added <= U64_MAX)
  }

  lemma CounterKept(total: nat, bucket: nat, added: nat, taken: nat)
    requires bucket <= total <= U64_MAX
    ensures SatAdd(SatSub(total, taken), added) == (total - bucket) + SatAdd(SatSub(bucket, taken), added)
            <==> Kept(total, bucket, added, taken)
  {
  }

  // ------------------------------------------------------------- one entry

  /** All counters of an entry, with the refund off the spend. */
  predicate EntryKept(total: CostEntry, bucket: CostEntry, d: CostEntry, refund: nat) {
    && Kept(total.prompt, bucket.prompt, d.prompt, 0) && Kept(total.completion, bucket.completion, d.completion, 0)
    && Kept(total.cacheRead, bucket.cacheRead, d.cacheRead, 0)
    && Kept(total.cacheWrite, bucket.cacheWrite, d.cacheWrite, 0)
    && Kept(total.spent, bucket.spent, d.spent, refund) && Kept(total.turns, bucket.turns, d.turns, 0)
  }

  /** The same change to the totals and to one bucket keeps them in step if and only if no counter is cut off. */
  lemma CommitKept(others: CostEntry, bucket: CostEntry, d: CostEntry, refund: nat)
    requires InRange(Plus(others, bucket))
    ensures CommitTo(Plus(others, bucket), d, refund) == Plus(others, CommitTo(bucket, d, refund))
            <==> EntryKept(Plus(others, bucket), bucket, d, refund)
  {
    var t := Plus(others, bucket);
    CounterKept(t.prompt, bucket.prompt, d.prompt, 0);
    CounterKept(t.completion, bucket.completion, d.completion, 0);
    CounterKept(t.cacheRead, bucket.cacheRead, d.cacheRead, 0);
    CounterKept(t.cacheWrite, bucket.cacheWrite, d.cacheWrite, 0);
    CounterKept(t.spent, bucket.spent, d.spent, refund);
    CounterKept(t.turns, bucket.turns, d.turns, 0);
    hide Kept, SatAdd;
  }

  lemma AddIsCommit(e: CostEntry, d: CostEntry)
    ensures Add(e, d) == CommitTo(e, d, 0)
  {
    assert e.(spent := SatSub(e.spent, 0)) == e;
  }

  /** What a refund takes is in the bucket, or the bucket is all there is. */
  predicate RefundKept(total: CostEntry, bucket: CostEntry, c: Charge) {
    && (c.prompt <= bucket.prompt || bucket.prompt == total.prompt)
    && (c.micros <= bucket.spent || bucket.spent == total.spent)
  }

  lemma SubKept(others: CostEntry, bucket: CostEntry, c: Charge)
    ensures var t := Plus(others, bucket);
            Sub(t, c.Entry()) == Plus(others, Sub(bucket, c.Entry())) <==> RefundKept(t, bucket, c)
  {
  }

  // ------------------------------------------------------------- one step

  /** The condition of one step, on the totals and on the bucket it writes to. */
  predicate StepKept(cfg: Config, w: World, s: Step) {
    var t := w.ledger.totals.entry;
    match s
    case Request(model, c) => Admitted(cfg, w, s) ==> EntryKept(t, Home(w.ledger, cfg, model), c.Entry(), 0)
    case Abort(turn) =>
      turn in w.open ==> RefundKept(t, Home(w.ledger, cfg, w.open[turn].model), w.open[turn].charge)
    case Complete(model, completion, cache, rates) =>
      var st := SettlementFor(w.ledger, cfg, model, completion, cache, rates);
      EntryKept(t, Home(w.ledger, cfg, model), st.delta, st.refund)
    case _ => true
  }

  /** Totals and breakdown after one bucket was written, or dropped as all zero. */
  lemma WrittenBucket(m: map<string, CostEntry>, after: map<string, CostEntry>, key: string, e: CostEntry)
    requires after == m[key := e] || (e == ZERO && (after == m - {key} || (after == m && key !in m)))
    ensures SumOf(after) == Plus(SumOf(m - {key}), e) && SumOf(m) == Plus(SumOf(m - {key}), Bucket(m, key))
  {
    SumUpdate(m, key, e);
    PlusNothing(SumOf(m - {key}));
    hide SumOf;
  }

  lemma PlusNothing(e: CostEntry)
    ensures Plus(e, ZERO) == e
  {
  }

  lemma RequestKept(cfg: Config, l: Ledger, model: string, c: Charge)
    requires AddsUp(l) && LedgerInRange(l)
    ensures AddsUp(Charged(l, model, cfg.maxTracked, c))
            <==> EntryKept(l.totals.entry, Home(l, cfg, model), c.Entry(), 0)
  {
    var m, key, d := l.perModel, KeyFor(l.perModel, model, cfg.maxTracked).0, c.Entry();
    var others, b := SumOf(m - {key}), Bucket(m, key);
    AddIsCommit(l.totals.entry, d);
    AddIsCommit(b, d);
    AddToNothing(c);
    hide SumOf, KeyFor, Add, CommitTo, EntryKept, InRange;
    WrittenBucket(m, Charged(l, model, cfg.maxTracked, c).perModel, key, CommitTo(b, d, 0));
    CommitKept(others, b, d, 0);
  }

  lemma AddToNothing(c: Charge)
    ensures Add(ZERO, c.Entry()) == c.Entry()
  {
  }

  lemma AbortKept(cfg: Config, l: Ledger, model: string, c: Charge)
    requires AddsUp(l)
    ensures AddsUp(Refunded(l, model, cfg.maxTracked, c)) <==> RefundKept(l.totals.entry, Home(l, cfg, model), c)
  {
    var m, key, d := l.perModel, KeyFor(l.perModel, model, cfg.maxTracked).0, c.Entry();
    var others, b := SumOf(m - {key}), Bucket(m, key);
    SubFromNothing(d);
    hide SumOf, KeyFor, Sub, RefundKept;
    WrittenBucket(m, Refunded(l, model, cfg.maxTracked, c).perModel, key, Sub(b, d));
    SubKept(others, b, c);
  }

  lemma SubFromNothing(d: CostEntry)
    ensures Sub(ZERO, d) == ZERO
  {
  }

  lemma CompleteKept(cfg: Config, l: Ledger, model: string, d: CostEntry, refund: nat)
    requires AddsUp(l) && LedgerInRange(l)
    ensures AddsUp(Committed(l, model, cfg.maxTracked, d, refund))
            <==> EntryKept(l.totals.entry, Home(l, cfg, model), d, refund)
  {
    var m, key := l.perModel, KeyFor(l.perModel, model, cfg.maxTracked).0;
    var others, b := SumOf(m - {key}), Bucket(m, key);
    hide SumOf, KeyFor, CommitTo, EntryKept, InRange;
    WrittenBucket(m, Committed(l, model, cfg.maxTracked, d, refund).perModel, key, CommitTo(b, d, refund));
    CommitKept(others, b, d, refund);
  }

  lemma NothingAddsUp()
    ensures AddsUp(EMPTY)
  {
  }

  lemma StepAddsUp(cfg: Config, w: World, s: Step)
    requires AddsUp(w.ledger) && LedgerInRange(w.ledger)
    ensures AddsUp(Next(cfg, w, s).ledger) <==> StepKept(cfg, w, s)
  {
    hide AddsUp, LedgerInRange, KeyFor, CapCrossed, Charged, Refunded, Committed, SettlementFor, EntryKept,
         RefundKept, Home;
    var l := w.ledger;
    match s {
      case Request(model, c) => RequestKept(cfg, l, model, c);
      case Abort(turn) =>
        if turn in w.open { AbortKept(cfg, l, w.open[turn].model, w.open[turn].charge); }
      case Complete(model, completion, cache, rates) =>
        var st := SettlementFor(l, cfg, model, completion, cache, rates);
        CompleteKept(cfg, l, model, st.delta, st.refund);
      case Proceed(_) =>
      case Reset => NothingAddsUp();
    }
  }

  // ------------------------------------------------------------------ runs

  ghost predicate AlwaysAddsUp(cfg: Config, steps: seq<Step>) {
    AddsUp(Run(cfg, steps).ledger) && (steps == [] || AlwaysAddsUp(cfg, steps[..|steps| - 1]))
  }

  predicate AllKept(cfg: Config, steps: seq<Step>) {
    steps == [] ||
    var front := steps[..|steps| - 1];
    AllKept(cfg, front) && StepKept(cfg, Run(cfg, front), steps[|steps| - 1])
  }

  /**
    Over every interleaving, saturation and resets included: each total is the sum over the buckets after every step,
    if and only if every step cuts off nothing at the totals or at the bucket it writes to, except where that bucket is
    all there is.
   */
  lemma {:induction false} BreakdownAddsUp(cfg: Config, steps: seq<Step>)
    ensures AlwaysAddsUp(cfg, steps) <==> AllKept(cfg, steps)
  {
    hide AddsUp, StepKept, Next, LedgerInRange;
    if steps == [] {
      NothingAddsUp();
    } else {
      var front := steps[..|steps| - 1];
      BreakdownAddsUp(cfg, front);
      RangeRun(cfg, front);
      if AlwaysAddsUp(cfg, front) { StepAddsUp(cfg, Run(cfg, front), steps[|steps| - 1]); }
    }
  }
}
