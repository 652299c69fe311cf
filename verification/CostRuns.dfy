/**
  Every interleaving of the ledger's lock sections: requests of any number of turns, aborts by their observers,
  completions and resets, in any order.
 */
module CostRuns {
  import opened Common
  import opened Cost
  import opened CostLaws

  // -------------------------------------------------------------- machine

  datatype Step =
    | Request(model: string, charge: Charge)
    | Abort(turn: nat)    // an observer of this turn failed: its charge is refunded
    | Proceed(turn: nat)  // every observer of this turn accepted: its charge can no longer be refunded
    | Complete(model: string, completion: nat, cache: Option<CacheUsage>, rates: Option<Rates>)
    | Reset

  /** A turn between its charge and its last observer, with the bucket the charge landed in. */
  datatype Open = Open(model: string, charge: Charge, landed: string)

  datatype World = World(ledger: Ledger, open: map<nat, Open>, next: nat)

  predicate Admitted(cfg: Config, w: World, s: Step) {
    s.Request? && CapCrossed(cfg, w.ledger, s.charge).None?
  }

  /** One lock section. Turn numbers are handed out in request order. */
  function Next(cfg: Config, w: World, s: Step): World {
    match s
    case Request(model, c) =>
      if !Admitted(cfg, w, s) then w.(next := w.next + 1)
      else
        var landed := KeyFor(w.ledger.perModel, model, cfg.maxTracked).0;
        World(Charged(w.ledger, model, cfg.maxTracked, c), w.open[w.next := Open(model, c, landed)], w.next + 1)
    case Abort(turn) =>
      if turn !in w.open then w
      else
        w.(ledger := Refunded(w.ledger, w.open[turn].model, cfg.maxTracked, w.open[turn].charge),
            open := w.open - {turn})
    case Proceed(turn) => w.(open := w.open - {turn})
    case Complete(model, completion, cache, rates) =>
      w.(ledger := Completed(w.ledger, cfg, model, completion, cache, rates))
    case Reset => w.(ledger := EMPTY)
  }

  function Run(cfg: Config, steps: seq<Step>): World {
    if steps == [] then World(EMPTY, map[], 0)
    else Next(cfg, Run(cfg, steps[..|steps| - 1]), steps[|steps| - 1])
  }

  lemma RunSnoc(cfg: Config, steps: seq<Step>, s: Step)
    ensures Run(cfg, steps + [s]) == Next(cfg, Run(cfg, steps), s)
  {
    assert (steps + [s])[..|steps|] == steps;
  }

  // ---------------------------------------------------------- attribution

  /** Completed turns that folded into the reserved bucket since the last reset. */
  function Folds(cfg: Config, steps: seq<Step>): nat {
    if steps == [] then 0
    else
      var front, s := steps[..|steps| - 1], steps[|steps| - 1];
      if s.Reset? then 0
      else Folds(cfg, front)
           + if s.Complete? && KeyFor(Run(cfg, front).ledger.perModel, s.model, cfg.maxTracked).1 then 1 else 0
  }

  /** In every reachable state the breakdown is bounded and folded completions are counted one by one. */
  lemma {:induction false} BoundedAttribution(cfg: Config, steps: seq<Step>)
    ensures var l := Run(cfg, steps).ledger;
            && Bounded(l.perModel, cfg.maxTracked) && |l.perModel| <= cfg.maxTracked + 1
            && l.totals.overflowTurns == SatAdd(0, Folds(cfg, steps))
  {
    if steps != [] {
      hide KeyFor, CapCrossed, SettlementFor, CommitTo, Add, Sub, Bounded;
      var front, s := steps[..|steps| - 1], steps[|steps| - 1];
      BoundedAttribution(cfg, front);
      StepKeepsBound(cfg, Run(cfg, front), s);
      FoldCounted(cfg, Run(cfg, front), s);
      hide Next;
    }
    EmptyBounded(cfg.maxTracked);
    BoundedSize(Run(cfg, steps).ledger.perModel, cfg.maxTracked);
  }

  lemma FoldCounted(cfg: Config, w: World, s: Step)
    ensures var before, after := w.ledger.totals.overflowTurns, Next(cfg, w, s).ledger.totals.overflowTurns;
            after == if s.Reset? then 0
                     else if s.Complete? && KeyFor(w.ledger.perModel, s.model, cfg.maxTracked).1 then SatAdd(before, 1)
                     else before
  {
    hide KeyFor, CapCrossed, SettlementFor, CommitTo, Add, Sub, SatAdd;
  }

  lemma StepKeepsBound(cfg: Config, w: World, s: Step)
    requires Bounded(w.ledger.perModel, cfg.maxTracked)
    ensures Bounded(Next(cfg, w, s).ledger.perModel, cfg.maxTracked)
  {
    hide CapCrossed, SettlementFor, CommitTo, Add, Sub, Tracked, KeyFor, Bounded;
    var m := w.ledger.perModel;
    match s
    case Request(model, c) =>
      var key := KeyFor(m, model, cfg.maxTracked).0;
      WriteKeepsBound(m, model, cfg.maxTracked, if key in m then Add(m[key], c.Entry()) else c.Entry());
    case Abort(turn) =>
      if turn in w.open {
        var o := w.open[turn];
        var key := KeyFor(m, o.model, cfg.maxTracked).0;
        if key in m {
          WriteKeepsBound(m, o.model, cfg.maxTracked, Sub(m[key], o.charge.Entry()));
          DropKeepsBound(m, key, cfg.maxTracked);
        }
      }
    case Proceed(_) =>
    case Complete(model, completion, cache, rates) =>
      var st := SettlementFor(w.ledger, cfg, model, completion, cache, rates);
      var key := KeyFor(m, model, cfg.maxTracked).0;
      WriteKeepsBound(m, model, cfg.maxTracked, CommitTo(Bucket(m, key), st.delta, st.refund));
    case Reset => EmptyBounded(cfg.maxTracked);
  }

  lemma EmptyBounded(maxTracked: nat)
    ensures Bounded(map[], maxTracked)
  {
  }

  // ----------------------------------------------------------------- caps

  /** Completion tokens and spend committed since the last admitted charge, or since the last reset. */
  function AddedSince(cfg: Config, steps: seq<Step>): (nat, nat) {
    if steps == [] then (0, 0)
    else
      var front, s := steps[..|steps| - 1], steps[|steps| - 1];
      var w := Run(cfg, front);
      var (tokens, micros) := AddedSince(cfg, front);
      match s
      case Complete(model, completion, cache, rates) =>
        (tokens + completion, micros + SettlementFor(w.ledger, cfg, model, completion, cache, rates).delta.spent)
      case Reset => (0, 0)
      case _ => if Admitted(cfg, w, s) then (0, 0) else (tokens, micros)
  }

  /** How far totals may stand above the caps. */
  predicate WithinCaps(cfg: Config, e: CostEntry, added: (nat, nat)) {
    && (cfg.capTokens.Some? ==> e.prompt <= cfg.capTokens.value && TotalTokens(e) <= cfg.capTokens.value + added.0)
    && (cfg.capMicros.Some? ==> e.spent <= cfg.capMicros.value + added.1)
  }

  lemma CapStep(cfg: Config, l: Ledger, c: Charge, d: CostEntry, refund: nat, added: (nat, nat))
    requires WithinCaps(cfg, l.totals.entry, added)
    requires d.prompt == 0
    ensures CapCrossed(cfg, l, c).None? ==> WithinCaps(cfg, Add(l.totals.entry, c.Entry()), (0, 0))
    ensures WithinCaps(cfg, Sub(l.totals.entry, c.Entry()), added)
    ensures WithinCaps(cfg, CommitTo(l.totals.entry, d, refund), (added.0 + d.completion, added.1 + d.spent))
  {
  }

  /**
    In every reachable state of every interleaving, saturation included: prompt tokens are within the token cap, and
    all tokens and the spend exceed their caps by at most what was committed since a charge was last admitted.
   */
  lemma {:induction false} CapSafety(cfg: Config, steps: seq<Step>)
    ensures WithinCaps(cfg, Run(cfg, steps).ledger.totals.entry, AddedSince(cfg, steps))
  {
    if steps != [] {
      hide WithinCaps, CapCrossed, KeyFor, Add, Sub, CommitTo;
      var front, s := steps[..|steps| - 1], steps[|steps| - 1];
      var w, added := Run(cfg, front), AddedSince(cfg, front);
      CapSafety(cfg, front);
      match s {
        case Request(_, c) => CapStep(cfg, w.ledger, c, ZERO, 0, added);
        case Abort(turn) =>
          if turn in w.open { CapStep(cfg, w.ledger, w.open[turn].charge, ZERO, 0, added); }
        case Proceed(_) =>
        case Complete(model, completion, cache, rates) =>
          var st := SettlementFor(w.ledger, cfg, model, completion, cache, rates);
          assert st.delta.prompt == 0 && st.delta.completion == completion;
          hide SettlementFor;
          CapStep(cfg, w.ledger, Charge(0, 0, false, 0), st.delta, st.refund, added);
        case Reset => EmptyWithinCaps(cfg);
      }
    } else {
      EmptyWithinCaps(cfg);
    }
  }

  lemma EmptyWithinCaps(cfg: Config)
    ensures WithinCaps(cfg, ZERO, (0, 0))
  {
  }

  // ---------------------------------------------------------------- range

  /** Every counter is a `u64`. */
  ghost predicate LedgerInRange(l: Ledger) {
    && InRange(l.totals.entry) && l.totals.unpriced <= U64_MAX && l.totals.images <= U64_MAX
    && forall k :: k in l.perModel ==> InRange(l.perModel[k])
  }

  lemma RangeOps(e: CostEntry, d: CostEntry, refund: nat)
    requires InRange(e)
    ensures InRange(Add(e, d)) && InRange(Sub(e, d)) && InRange(CommitTo(e, d, refund))
  {
  }

  lemma RangeCharge(l: Ledger, model: string, maxTracked: nat, c: Charge)
    requires LedgerInRange(l)
    ensures LedgerInRange(Charged(l, model, maxTracked, c))
  {
    var m, key := l.perModel, KeyFor(l.perModel, model, maxTracked).0;
    RangeOps(l.totals.entry, c.Entry(), 0);
    if key in m { RangeOps(m[key], c.Entry(), 0); }
    hide KeyFor, Add;
  }

  lemma RangeRefund(l: Ledger, model: string, maxTracked: nat, c: Charge)
    requires LedgerInRange(l)
    ensures LedgerInRange(Refunded(l, model, maxTracked, c))
  {
    var m, key := l.perModel, KeyFor(l.perModel, model, maxTracked).0;
    RangeOps(l.totals.entry, c.Entry(), 0);
    if key in m { RangeOps(m[key], c.Entry(), 0); }
    hide KeyFor, Sub, InRange;
  }

  lemma RangeCommit(l: Ledger, model: string, maxTracked: nat, d: CostEntry, refund: nat)
    requires LedgerInRange(l)
    ensures LedgerInRange(Committed(l, model, maxTracked, d, refund))
  {
    var m, key := l.perModel, KeyFor(l.perModel, model, maxTracked).0;
    RangeOps(l.totals.entry, d, refund);
    RangeOps(Bucket(m, key), d, refund);
    hide KeyFor, CommitTo, InRange;
  }

  lemma EmptyInRange()
    ensures LedgerInRange(EMPTY)
  {
  }

  lemma RangeStep(cfg: Config, w: World, s: Step)
    requires LedgerInRange(w.ledger)
    ensures LedgerInRange(Next(cfg, w, s).ledger)
  {
    hide LedgerInRange, KeyFor, Charged, Refunded, Committed, SettlementFor, CapCrossed;
    EmptyInRange();
    match s {
      case Request(model, c) => RangeCharge(w.ledger, model, cfg.maxTracked, c);
      case Abort(turn) =>
        if turn in w.open { RangeRefund(w.ledger, w.open[turn].model, cfg.maxTracked, w.open[turn].charge); }
      case Complete(model, completion, cache, rates) =>
        var st := SettlementFor(w.ledger, cfg, model, completion, cache, rates);
        RangeCommit(w.ledger, model, cfg.maxTracked, st.delta, st.refund);
      case _ =>
    }
  }

  /** In every reachable state every counter is a `u64`. */
  lemma {:induction false} RangeRun(cfg: Config, steps: seq<Step>)
    ensures LedgerInRange(Run(cfg, steps).ledger)
  {
    hide LedgerInRange, Next;
    if steps == [] {
      EmptyInRange();
    } else {
      RangeRun(cfg, steps[..|steps| - 1]);
      RangeStep(cfg, Run(cfg, steps[..|steps| - 1]), steps[|steps| - 1]);
    }
  }
}
