/** Exactly when the spend and the cache counters are what was charged, refunded and settled. */
module CostMoney {
  import opened Common
  import opened Cost
  import opened CostLaws
  import opened CostRuns

  /** Plain sums since the last reset: what went onto the spend, what came off it, and the cached tokens reported. */
  datatype MoneyBooks = MoneyBooks(paid: nat, returned: nat, cacheRead: nat, cacheWrite: nat)

  const NO_MONEY := MoneyBooks(0, 0, 0, 0)

  function Record(cfg: Config, w: World, b: MoneyBooks, s: Step): MoneyBooks {
    match s
    case Request(_, c) => if Admitted(cfg, w, s) then b.(paid := b.paid + c.micros) else b
    case Abort(turn) => if turn in w.open then b.(returned := b.returned + w.open[turn].charge.micros) else b
    case Proceed(_) => b
    case Complete(model, completion, cache, rates) =>
      var st := SettlementFor(w.ledger, cfg, model, completion, cache, rates);
      MoneyBooks(b.paid + st.delta.spent, b.returned + st.refund, b.cacheRead + st.delta.cacheRead,
                 b.cacheWrite + st.delta.cacheWrite)
    case Reset => NO_MONEY
  }

  function MoneyOf(cfg: Config, steps: seq<Step>): MoneyBooks {
    if steps == [] then NO_MONEY
    else
      var front := steps[..|steps| - 1];
      Record(cfg, Run(cfg, front), MoneyOf(cfg, front), steps[|steps| - 1])
  }

  predicate Exact(e: CostEntry, b: MoneyBooks) {
    e.spent + b.returned == b.paid && e.cacheRead == b.cacheRead && e.cacheWrite == b.cacheWrite
  }

  predicate AlwaysExact(cfg: Config, steps: seq<Step>) {
    Exact(Run(cfg, steps).ledger.totals.entry, MoneyOf(cfg, steps))
        && (steps == [] || AlwaysExact(cfg, steps[..|steps| - 1]))
  }

  /** A settlement's refund is covered by the spend, and the rest fits. */
  predicate SettlementFits(e: CostEntry, st: Settlement) {
    && st.refund <= e.spent && e.spent - st.refund + st.delta.spent <= U64_MAX
    && e.cacheRead + st.delta.cacheRead <= U64_MAX && e.cacheWrite + st.delta.cacheWrite <= U64_MAX
  }

  predicate Fits(cfg: Config, w: World, s: Step) {
    var e := w.ledger.totals.entry;
    match s
    case Request(_, c) => Admitted(cfg, w, s) ==> e.spent + c.micros <= U64_MAX
    case Abort(turn) => turn in w.open ==> w.open[turn].charge.micros <= e.spent
    case Complete(model, completion, cache, rates) =>
      SettlementFits(e, SettlementFor(w.ledger, cfg, model, completion, cache, rates))
    case _ => true
  }

  predicate AllFit(cfg: Config, steps: seq<Step>) {
    steps == [] ||
    var front := steps[..|steps| - 1];
    AllFit(cfg, front) && Fits(cfg, Run(cfg, front), steps[|steps| - 1])
  }

  lemma RequestExact(cfg: Config, w: World, b: MoneyBooks, s: Step)
    requires s.Request? && Exact(w.ledger.totals.entry, b) && LedgerInRange(w.ledger)
    ensures Exact(Next(cfg, w, s).ledger.totals.entry, Record(cfg, w, b, s)) <==> Fits(cfg, w, s)
  {
    hide KeyFor, CapCrossed;
  }

  lemma AbortExact(cfg: Config, w: World, b: MoneyBooks, s: Step)
    requires s.Abort? && Exact(w.ledger.totals.entry, b)
    ensures Exact(Next(cfg, w, s).ledger.totals.entry, Record(cfg, w, b, s)) <==> Fits(cfg, w, s)
  {
    hide KeyFor;
  }

  /** The spend of a settlement is a `u64`, its parts saturating. */
  lemma SpendInRange(l: Ledger, cfg: Config, s: Step)
    requires s.Complete?
    ensures SettlementFor(l, cfg, s.model, s.completion, s.cache, s.rates).delta.spent <= U64_MAX
  {
    hide KeyFor, Price;
  }

  /** One settlement on the four counters. */
  lemma CommitExact(e: CostEntry, b: MoneyBooks, st: Settlement)
    requires Exact(e, b) && InRange(e) && st.delta.spent <= U64_MAX
    ensures Exact(CommitTo(e, st.delta, st.refund),
                  MoneyBooks(b.paid + st.delta.spent, b.returned + st.refund, b.cacheRead + st.delta.cacheRead,
                             b.cacheWrite + st.delta.cacheWrite))
            <==> SettlementFits(e, st)
  {
  }

  lemma CompleteExact(cfg: Config, w: World, b: MoneyBooks, s: Step)
    requires s.Complete? && Exact(w.ledger.totals.entry, b) && LedgerInRange(w.ledger)
    ensures Exact(Next(cfg, w, s).ledger.totals.entry, Record(cfg, w, b, s)) <==> Fits(cfg, w, s)
  {
    SpendInRange(w.ledger, cfg, s);
    CommitExact(w.ledger.totals.entry, b, SettlementFor(w.ledger, cfg, s.model, s.completion, s.cache, s.rates));
    hide KeyFor, SettlementFor, Exact, CommitTo, SettlementFits;
  }

  lemma OtherExact(cfg: Config, w: World, b: MoneyBooks, s: Step)
    requires (s.Proceed? || s.Reset?) && Exact(w.ledger.totals.entry, b)
    ensures Exact(Next(cfg, w, s).ledger.totals.entry, Record(cfg, w, b, s))
  {
    hide Exact;
    NothingSpent();
  }

  lemma NothingSpent()
    ensures Exact(EMPTY.totals.entry, NO_MONEY)
  {
  }

  lemma StepExact(cfg: Config, w: World, b: MoneyBooks, s: Step)
    requires Exact(w.ledger.totals.entry, b) && LedgerInRange(w.ledger)
    ensures Exact(Next(cfg, w, s).ledger.totals.entry, Record(cfg, w, b, s)) <==> Fits(cfg, w, s)
  {
    hide Exact, LedgerInRange, Next, Record;
    if s.Request? {
      RequestExact(cfg, w, b, s);
    } else if s.Abort? {
      AbortExact(cfg, w, b, s);
    } else if s.Complete? {
      CompleteExact(cfg, w, b, s);
    } else {
      OtherExact(cfg, w, b, s);
    }
  }

  /**
    In every interleaving, the spend is what was charged and settled minus what was refunded and re-priced, and the
    cache totals are the reads and writes credited, after every step, if and only if every addition fits and every
    subtraction is covered.
   */
  lemma {:induction false} SpendIsExact(cfg: Config, steps: seq<Step>)
    ensures AlwaysExact(cfg, steps) <==> AllFit(cfg, steps)
  {
    hide Exact, Next, Record, LedgerInRange, Fits;
    if steps == [] {
      NothingSpent();
    } else {
      var front := steps[..|steps| - 1];
      SpendIsExact(cfg, front);
      RangeRun(cfg, front);
      if AlwaysExact(cfg, front) { StepExact(cfg, Run(cfg, front), MoneyOf(cfg, front), steps[|steps| - 1]); }
    }
  }
}
