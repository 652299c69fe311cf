/** Exactly when cached reads stay within the prompt tokens they are said to be a part of. */
module CostClamp {
  import opened Common
  import opened Cost
  import opened CostLaws
  import opened CostRuns

  /** In no bucket do cached reads exceed prompt tokens. */
  predicate Within(m: map<string, CostEntry>) { forall k :: k in m ==> m[k].cacheRead <= m[k].prompt }

  /** Room for `tokens` between what a bucket was charged and what it was credited as cached; any, while nothing was. */
  predicate Uncredited(b: CostEntry, tokens: nat) { b.cacheRead == 0 || tokens <= b.prompt - b.cacheRead }

  // ----------------------------------------------------------- completions

  /** The clamp of one completion, on the bucket's two counters alone. */
  lemma ClampedRead(b: CostEntry, usage: CacheUsage, d: CostEntry, refund: nat)
    requires b.cacheRead <= b.prompt <= U64_MAX && d.prompt == 0
    requires d.cacheRead == if usage.read <= b.prompt then usage.read else b.prompt
    ensures var after := CommitTo(b, d, refund);
            after.cacheRead <= after.prompt <==> Uncredited(b, usage.read) || b.prompt == U64_MAX
  {
  }

  /** What a completion reports as cached, clamped to the bucket. */
  lemma SettledRead(l: Ledger, cfg: Config, model: string, completion: nat, cache: Option<CacheUsage>,
                    rates: Option<Rates>)
    ensures var st := SettlementFor(l, cfg, model, completion, cache, rates);
            var b := Home(l, cfg, model);
            && st.delta.prompt == 0
            && st.delta.cacheRead ==
                 if cache.None? then 0 else if cache.value.read <= b.prompt then cache.value.read else b.prompt
  {
    hide KeyFor, Price;
  }

  /** What a completion reports as cached fits what its bucket has not yet been credited for. */
  predicate ReadFits(l: Ledger, cfg: Config, model: string, cache: Option<CacheUsage>) {
    var b := Home(l, cfg, model);
    cache.Some? ==> Uncredited(b, cache.value.read) || b.prompt == U64_MAX
  }

  /**
    A completion leaves its bucket's cached reads within its prompt tokens if and only if the reported reads fit what
    the bucket was charged and not yet credited; the clamp against the whole bucket helps only the first credit.
   */
  lemma CompletionWithin(l: Ledger, cfg: Config, model: string, completion: nat, cache: Option<CacheUsage>,
                    rates: Option<Rates>)
    requires LedgerInRange(l) && Home(l, cfg, model).cacheRead <= Home(l, cfg, model).prompt
    ensures var key := KeyFor(l.perModel, model, cfg.maxTracked).0;
            var after := Completed(l, cfg, model, completion, cache, rates).perModel;
            && after == l.perModel[key := after[key]]
            && (after[key].cacheRead <= after[key].prompt <==> ReadFits(l, cfg, model, cache))
  {
    var b := Home(l, cfg, model);
    var st := SettlementFor(l, cfg, model, completion, cache, rates);
    SettledRead(l, cfg, model, completion, cache, rates);
    hide KeyFor, SettlementFor;
    if cache.Some? {
      ClampedRead(b, cache.value, st.delta, st.refund);
    }
  }

  // --------------------------------------------------------------- refunds

  /**
    A refund leaves its bucket's cached reads within its prompt tokens if and only if at least the credited part
    stays.
   */
  lemma RefundWithin(l: Ledger, cfg: Config, model: string, c: Charge)
    requires LedgerInRange(l) && Home(l, cfg, model).cacheRead <= Home(l, cfg, model).prompt
    ensures var key := KeyFor(l.perModel, model, cfg.maxTracked).0;
            var after := Refunded(l, model, cfg.maxTracked, c).perModel;
            && (|| after == l.perModel || after == l.perModel - {key}
                || (key in after && after == l.perModel[key := after[key]]))
            && ((key in after ==> after[key].cacheRead <= after[key].prompt) <==>
                  Uncredited(Home(l, cfg, model), c.prompt))
  {
    hide KeyFor;
  }

  /** A charge only makes room. */
  lemma ChargeWithin(l: Ledger, cfg: Config, model: string, c: Charge)
    requires LedgerInRange(l) && Within(l.perModel)
    ensures Within(Charged(l, model, cfg.maxTracked, c).perModel)
  {
    hide KeyFor;
  }

  // ------------------------------------------------------------------ runs

  /** The condition of one step, on the ledger it meets. */
  predicate Credible(cfg: Config, w: World, s: Step) {
    match s
    case Complete(model, _, cache, _) => ReadFits(w.ledger, cfg, model, cache)
    case Abort(turn) =>
      turn in w.open ==> Uncredited(Home(w.ledger, cfg, w.open[turn].model), w.open[turn].charge.prompt)
    case _ => true
  }

  predicate AllCredible(cfg: Config, steps: seq<Step>) {
    steps == [] ||
    var front := steps[..|steps| - 1];
    AllCredible(cfg, front) && Credible(cfg, Run(cfg, front), steps[|steps| - 1])
  }

  predicate AlwaysWithin(cfg: Config, steps: seq<Step>) {
    Within(Run(cfg, steps).ledger.perModel) && (steps == [] || AlwaysWithin(cfg, steps[..|steps| - 1]))
  }

  lemma HomeWithin(l: Ledger, cfg: Config, model: string)
    requires Within(l.perModel)
    ensures Home(l, cfg, model).cacheRead <= Home(l, cfg, model).prompt
  {
    hide KeyFor;
  }

  lemma OneBucket(m: map<string, CostEntry>, after: map<string, CostEntry>, key: string)
    requires Within(m)
    requires after == m || after == m - {key} || (key in after && after == m[key := after[key]])
    ensures Within(after) <==> (key in after ==> after[key].cacheRead <= after[key].prompt)
  {
  }

  lemma WithinStep(cfg: Config, w: World, s: Step)
    requires LedgerInRange(w.ledger) && Within(w.ledger.perModel)
    ensures Within(Next(cfg, w, s).ledger.perModel) <==> Credible(cfg, w, s)
  {
    hide KeyFor, CapCrossed, Charged, Refunded, Completed, LedgerInRange, Within, ReadFits, Uncredited, Home;
    var l := w.ledger;
    match s {
      case Request(model, c) => ChargeWithin(l, cfg, model, c);
      case Abort(turn) =>
        if turn in w.open {
          var o := w.open[turn];
          HomeWithin(l, cfg, o.model);
          RefundWithin(l, cfg, o.model, o.charge);
          OneBucket(l.perModel, Refunded(l, o.model, cfg.maxTracked, o.charge).perModel,
                    KeyFor(l.perModel, o.model, cfg.maxTracked).0);
        }
      case Complete(model, completion, cache, rates) =>
        HomeWithin(l, cfg, model);
        CompletionWithin(l, cfg, model, completion, cache, rates);
        OneBucket(l.perModel, Completed(l, cfg, model, completion, cache, rates).perModel,
                  KeyFor(l.perModel, model, cfg.maxTracked).0);
      case Proceed(_) =>
      case Reset => NothingExceeds();
    }
  }

  lemma NothingExceeds()
    ensures Within(EMPTY.perModel)
  {
  }

  /**
    Over any run, resets and saturation included: no bucket's cached reads ever exceed its prompt tokens if and only if
    every completion reports, and every abort takes back, no more than its bucket has left uncredited at that moment.
   */
  lemma {:induction false} ReadsWithinPrompts(cfg: Config, steps: seq<Step>)
    ensures AlwaysWithin(cfg, steps) <==> AllCredible(cfg, steps)
  {
    hide Within, Credible, Next, LedgerInRange;
    if steps == [] {
      NothingExceeds();
    } else {
      var front := steps[..|steps| - 1];
      ReadsWithinPrompts(cfg, front);
      RangeRun(cfg, front);
      if AlwaysWithin(cfg, front) { WithinStep(cfg, Run(cfg, front), steps[|steps| - 1]); }
    }
  }

  // ---------------------------------------------------------- the totals

  /** Over all models, cached reads do not exceed prompt tokens. */
  predicate TotalWithin(e: CostEntry) { e.cacheRead <= e.prompt }

  /** The clamped reads of a completion fit the prompt total beside the reads credited before; a refund leaves those. */
  predicate TotalCredible(cfg: Config, w: World, s: Step) {
    var e := w.ledger.totals.entry;
    match s
    case Complete(model, _, cache, _) =>
      var b := Home(w.ledger, cfg, model);
      cache.Some? ==>
        SatAdd(e.cacheRead, if cache.value.read <= b.prompt then cache.value.read else b.prompt) <= e.prompt
    case Abort(turn) => turn in w.open ==> e.cacheRead <= SatSub(e.prompt, w.open[turn].charge.prompt)
    case _ => true
  }

  predicate AllTotalCredible(cfg: Config, steps: seq<Step>) {
    steps == [] ||
    var front := steps[..|steps| - 1];
    AllTotalCredible(cfg, front) && TotalCredible(cfg, Run(cfg, front), steps[|steps| - 1])
  }

  predicate TotalAlwaysWithin(cfg: Config, steps: seq<Step>) {
    TotalWithin(Run(cfg, steps).ledger.totals.entry) && (steps == [] || TotalAlwaysWithin(cfg, steps[..|steps| - 1]))
  }

  lemma TotalStep(cfg: Config, w: World, s: Step)
    requires LedgerInRange(w.ledger) && TotalWithin(w.ledger.totals.entry)
    ensures TotalWithin(Next(cfg, w, s).ledger.totals.entry) <==> TotalCredible(cfg, w, s)
  {
    hide KeyFor, CapCrossed;
    if s.Complete? {
      SettledRead(w.ledger, cfg, s.model, s.completion, s.cache, s.rates);
      hide SettlementFor, Home;
    }
  }

  /**
    The same over the totals: reads of all models within prompts of all models, if and only if every step keeps them
    so.
   */
  lemma {:induction false} TotalReadsWithinPrompts(cfg: Config, steps: seq<Step>)
    ensures TotalAlwaysWithin(cfg, steps) <==> AllTotalCredible(cfg, steps)
  {
    if steps != [] {
      hide TotalWithin, TotalCredible, Next, LedgerInRange;
      var front := steps[..|steps| - 1];
      TotalReadsWithinPrompts(cfg, front);
      RangeRun(cfg, front);
      if TotalAlwaysWithin(cfg, front) { TotalStep(cfg, Run(cfg, front), steps[|steps| - 1]); }
    }
  }
}
