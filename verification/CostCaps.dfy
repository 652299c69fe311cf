/** Exactly when the caps are never crossed: admission never crosses them, completions may. */
module CostCaps {
  import opened Common
  import opened Cost
  import opened CostLaws
  import opened CostRuns

  predicate BelowCaps(cfg: Config, e: CostEntry) {
    && (cfg.capTokens.Some? ==> TotalTokens(e) <= cfg.capTokens.value)
    && (cfg.capMicros.Some? ==> e.spent <= cfg.capMicros.value)
  }

  /** The completion's tokens, and its spend once the refund is off, fit under caps that can be crossed at all. */
  predicate LeavesRoom(cfg: Config, e: CostEntry, completion: nat, spend: nat, refund: nat) {
    && (cfg.capTokens.Some? && cfg.capTokens.value < U64_MAX ==>
         e.prompt + e.completion + completion <= cfg.capTokens.value)
    && (cfg.capMicros.Some? && cfg.capMicros.value < U64_MAX ==> SatSub(e.spent, refund) + spend <= cfg.capMicros.value)
  }

  /** A committed delta stays within the caps if and only if it leaves room. */
  lemma CommitBelowCaps(cfg: Config, e: CostEntry, d: CostEntry, refund: nat)
    requires InRange(e) && d.prompt == 0
    ensures BelowCaps(cfg, CommitTo(e, d, refund)) <==> LeavesRoom(cfg, e, d.completion, d.spent, refund)
  {
  }

  /** Completing a turn keeps both totals within their caps if and only if the completion leaves room. */
  lemma CompletionBelowCaps(cfg: Config, l: Ledger, model: string, completion: nat, cache: Option<CacheUsage>,
                            rates: Option<Rates>)
    requires InRange(l.totals.entry)
    ensures var st := SettlementFor(l, cfg, model, completion, cache, rates);
            BelowCaps(cfg, Completed(l, cfg, model, completion, cache, rates).totals.entry) <==>
              LeavesRoom(cfg, l.totals.entry, completion, st.delta.spent, st.refund)
  {
    var st := SettlementFor(l, cfg, model, completion, cache, rates);
    assert st.delta.prompt == 0 && st.delta.completion == completion;
    hide SettlementFor, KeyFor;
    CommitBelowCaps(cfg, l.totals.entry, st.delta, st.refund);
  }

  /** An admitted charge and a refund never cross a cap. */
  lemma OthersBelowCaps(cfg: Config, l: Ledger, c: Charge)
    requires BelowCaps(cfg, l.totals.entry) && InRange(l.totals.entry)
    ensures CapCrossed(cfg, l, c).None? ==> BelowCaps(cfg, Add(l.totals.entry, c.Entry()))
    ensures BelowCaps(cfg, Sub(l.totals.entry, c.Entry()))
  {
  }

  predicate Roomy(cfg: Config, w: World, s: Step) {
    s.Complete? ==>
      var st := SettlementFor(w.ledger, cfg, s.model, s.completion, s.cache, s.rates);
      LeavesRoom(cfg, w.ledger.totals.entry, s.completion, st.delta.spent, st.refund)
  }

  predicate AllRoomy(cfg: Config, steps: seq<Step>) {
    steps == [] ||
    var front := steps[..|steps| - 1];
    AllRoomy(cfg, front) && Roomy(cfg, Run(cfg, front), steps[|steps| - 1])
  }

  predicate NeverCrossed(cfg: Config, steps: seq<Step>) {
    BelowCaps(cfg, Run(cfg, steps).ledger.totals.entry) && (steps == [] || NeverCrossed(cfg, steps[..|steps| - 1]))
  }

  lemma CapsStep(cfg: Config, w: World, s: Step)
    requires InRange(w.ledger.totals.entry) && BelowCaps(cfg, w.ledger.totals.entry)
    ensures BelowCaps(cfg, Next(cfg, w, s).ledger.totals.entry) <==> Roomy(cfg, w, s)
  {
    hide BelowCaps, LeavesRoom, CapCrossed, KeyFor, InRange, Add, Sub, Completed, SettlementFor;
    match s {
      case Request(_, c) => OthersBelowCaps(cfg, w.ledger, c);
      case Abort(turn) =>
        if turn in w.open { OthersBelowCaps(cfg, w.ledger, w.open[turn].charge); }
      case Complete(model, completion, cache, rates) =>
        CompletionBelowCaps(cfg, w.ledger, model, completion, cache, rates);
      case Proceed(_) =>
      case Reset => EmptyBelowCaps(cfg);
    }
  }

  lemma EmptyBelowCaps(cfg: Config)
    ensures BelowCaps(cfg, EMPTY.totals.entry)
  {
  }

  /**
    Over any run, saturation included: the caps are never crossed if and only if every completion leaves room under
    them.
   */
  lemma {:induction false} CapsNeverCrossed(cfg: Config, steps: seq<Step>)
    ensures NeverCrossed(cfg, steps) <==> AllRoomy(cfg, steps)
  {
    hide BelowCaps, Roomy, Next, InRange;
    if steps == [] {
      EmptyBelowCaps(cfg);
    } else {
      var front := steps[..|steps| - 1];
      CapsNeverCrossed(cfg, front);
      RangeRun(cfg, front);
      if NeverCrossed(cfg, front) { CapsStep(cfg, Run(cfg, front), steps[|steps| - 1]); }
    }
  }
}
