/** Exactly when every charge that landed in its own model's bucket stays covered by it. */
module CostOwn {
  import opened Common
  import opened Cost
  import opened CostLaws
  import opened CostRuns
  import opened CostSum
  import opened CostExact
  import opened MapTotals

  /** Prompt tokens of open turns that landed in bucket `key`, all together. */
  ghost function OwedTo(w: World, key: string): nat { Total(w.open, LandedIn(key)) }

  /** Every model's own bucket holds what its open turns may still take back. */
  ghost predicate OwnBacked(w: World) {
    forall key: string :: key != OVERFLOW ==> OwedTo(w, key) <= Bucket(w.ledger.perModel, key).prompt
  }

  /** Turn numbers are handed out once, and a turn landed in its model's bucket or in the reserved one. */
  ghost predicate Landed(w: World) {
    forall t :: t in w.open ==> t < w.next && (w.open[t].landed == w.open[t].model || w.open[t].landed == OVERFLOW)
  }

  // ------------------------------------------------------- the conditions

  /** An admitted charge to an own bucket fits a counter beside the open charges already there. */
  ghost predicate ChargeHolds(cfg: Config, w: World, model: string, c: Charge) {
    var key := KeyFor(w.ledger.perModel, model, cfg.maxTracked).0;
    CapCrossed(cfg, w.ledger, c).None? && key != OVERFLOW ==> OwedTo(w, key) + c.prompt <= U64_MAX
  }

  /** An aborted folded turn that now resolves to its own model leaves that bucket what its open turns need. */
  ghost predicate StrayLeaves(cfg: Config, w: World, turn: nat) {
    turn in w.open ==>
      var o := w.open[turn];
      o.landed != o.model && KeyFor(w.ledger.perModel, o.model, cfg.maxTracked).0 == o.model ==>
        OwedTo(w, o.model) == 0 || OwedTo(w, o.model) + o.charge.prompt <= Bucket(w.ledger.perModel, o.model).prompt
  }

  /** No open turn with tokens landed in an own bucket. */
  predicate NothingOwn(w: World) {
    forall t :: t in w.open ==> w.open[t].landed == OVERFLOW || w.open[t].charge.prompt == 0
  }

  ghost predicate Spares(cfg: Config, w: World, s: Step) {
    match s
    case Request(model, c) => ChargeHolds(cfg, w, model, c)
    case Abort(turn) => StrayLeaves(cfg, w, turn)
    case Reset => NothingOwn(w)
    case _ => true
  }

  // ---------------------------------------------------------------- steps

  lemma LandedStep(cfg: Config, w: World, s: Step)
    requires Landed(w)
    ensures Landed(Next(cfg, w, s))
  {
    hide CapCrossed, Charged, Refunded, Completed, OVERFLOW, Tracked;
  }

  lemma OwedOpened(w: World, o: Open, key: string)
    requires Landed(w)
    ensures Total(w.open[w.next := o], LandedIn(key)) == OwedTo(w, key) + if o.landed == key then o.charge.prompt else 0
  {
    assert w.next !in w.open;
    TotalUpdate(w.open, w.next, o, LandedIn(key));
  }

  lemma OwedClosed(w: World, turn: nat, key: string)
    requires turn in w.open
    ensures OwedTo(w, key) == Total(w.open - {turn}, LandedIn(key))
                            + if w.open[turn].landed == key then w.open[turn].charge.prompt else 0
  {
    TotalRemove(w.open, turn, LandedIn(key));
  }

  /** A bucket's prompt tokens after a charge, a refund and a commit. */
  lemma PromptAfterCharge(cfg: Config, l: Ledger, model: string, c: Charge, k: string)
    ensures var key := KeyFor(l.perModel, model, cfg.maxTracked).0;
            Bucket(Charged(l, model, cfg.maxTracked, c).perModel, k).prompt ==
              if k == key then SatAdd(Bucket(l.perModel, k).prompt, c.prompt) else Bucket(l.perModel, k).prompt
  {
    hide KeyFor;
  }

  lemma PromptAfterRefund(cfg: Config, l: Ledger, model: string, c: Charge, k: string)
    ensures var key := KeyFor(l.perModel, model, cfg.maxTracked).0;
            Bucket(Refunded(l, model, cfg.maxTracked, c).perModel, k).prompt ==
              if k == key then SatSub(Bucket(l.perModel, k).prompt, c.prompt) else Bucket(l.perModel, k).prompt
  {
    hide KeyFor;
  }

  lemma PromptAfterCommit(cfg: Config, l: Ledger, model: string, d: CostEntry, refund: nat, k: string)
    requires LedgerInRange(l) && d.prompt == 0
    ensures Bucket(Committed(l, model, cfg.maxTracked, d, refund).perModel, k).prompt == Bucket(l.perModel, k).prompt
  {
    hide KeyFor;
  }

  lemma RequestBacked(cfg: Config, w: World, model: string, c: Charge)
    requires OwnBacked(w) && Landed(w) && LedgerInRange(w.ledger)
    ensures OwnBacked(Next(cfg, w, Request(model, c))) <==> ChargeHolds(cfg, w, model, c)
  {
    hide CapCrossed, KeyFor, Charged, LedgerInRange, OVERFLOW;
    if CapCrossed(cfg, w.ledger, c).None? {
      var landed := KeyFor(w.ledger.perModel, model, cfg.maxTracked).0;
      var after := Next(cfg, w, Request(model, c));
      forall key: string
        ensures OwedTo(after, key) == OwedTo(w, key) + if key == landed then c.prompt else 0
        ensures Bucket(after.ledger.perModel, key).prompt ==
                  if key == landed then SatAdd(Bucket(w.ledger.perModel, key).prompt, c.prompt)
                  else Bucket(w.ledger.perModel, key).prompt
      {
        OwedOpened(w, Open(model, c, landed), key);
        PromptAfterCharge(cfg, w.ledger, model, c, key);
      }
      hide OwedTo, Bucket;
      OneKey(w, after, landed);
    } else {
      OwnRefused(w);
    }
  }

  lemma OwnRefused(w: World)
    requires OwnBacked(w)
    ensures OwnBacked(w.(next := w.next + 1))
  {
  }

  /** When only one bucket and what it owes changed, it alone decides. */
  lemma OneKey(w: World, after: World, changed: string)
    requires OwnBacked(w)
    requires forall key: string :: key != changed ==>
               OwedTo(after, key) == OwedTo(w, key) &&
               Bucket(after.ledger.perModel, key).prompt == Bucket(w.ledger.perModel, key).prompt
    ensures OwnBacked(after) <==>
              (changed != OVERFLOW ==> OwedTo(after, changed) <= Bucket(after.ledger.perModel, changed).prompt)
  {
    hide OwedTo, Bucket, OVERFLOW;
  }

  /** The bucket an open own charge with tokens resolves to is its own. */
  lemma OwnResolves(cfg: Config, w: World, turn: nat)
    requires OwnBacked(w) && turn in w.open
    requires var o := w.open[turn]; o.landed == o.model && o.model != OVERFLOW && o.charge.prompt > 0
    ensures var o := w.open[turn];
            && KeyFor(w.ledger.perModel, o.model, cfg.maxTracked).0 == o.landed
            && o.landed in w.ledger.perModel && o.charge.prompt <= w.ledger.perModel[o.landed].prompt
  {
    var o := w.open[turn];
    TotalMember(w.open, turn, LandedIn(o.landed));
    hide OVERFLOW, Tracked;
    assert o.charge.prompt <= OwedTo(w, o.landed) <= Bucket(w.ledger.perModel, o.landed).prompt;
  }

  /** A refund with no tokens, or one that finds the reserved bucket, moves no own bucket's tokens. */
  lemma AbortElsewhere(cfg: Config, w: World, turn: nat)
    requires OwnBacked(w) && turn in w.open
    requires var o := w.open[turn];
             o.charge.prompt == 0 || KeyFor(w.ledger.perModel, o.model, cfg.maxTracked).0 == OVERFLOW
    ensures OwnBacked(Next(cfg, w, Abort(turn)))
  {
    hide KeyFor, Refunded, OVERFLOW;
    var o, after := w.open[turn], Next(cfg, w, Abort(turn));
    forall key: string | key != OVERFLOW ensures OwedTo(after, key) <= Bucket(after.ledger.perModel, key).prompt {
      OwedClosed(w, turn, key);
      PromptAfterRefund(cfg, w.ledger, o.model, o.charge, key);
    }
  }

  lemma AbortOwn(cfg: Config, w: World, turn: nat)
    requires OwnBacked(w) && turn in w.open
    requires var o := w.open[turn];
             o.landed == o.model && o.model != OVERFLOW
                 && KeyFor(w.ledger.perModel, o.model, cfg.maxTracked).0 == o.model
    ensures OwnBacked(Next(cfg, w, Abort(turn)))
  {
    hide KeyFor, Refunded, OVERFLOW;
    var o, after := w.open[turn], Next(cfg, w, Abort(turn));
    forall key: string | key != OVERFLOW ensures OwedTo(after, key) <= Bucket(after.ledger.perModel, key).prompt {
      OwedClosed(w, turn, key);
      PromptAfterRefund(cfg, w.ledger, o.model, o.charge, key);
    }
  }

  lemma AbortStray(cfg: Config, w: World, turn: nat)
    requires OwnBacked(w) && turn in w.open
    requires var o := w.open[turn];
             && o.landed == OVERFLOW && o.model != OVERFLOW
             && KeyFor(w.ledger.perModel, o.model, cfg.maxTracked).0 == o.model
    ensures OwnBacked(Next(cfg, w, Abort(turn))) <==> StrayLeaves(cfg, w, turn)
  {
    hide KeyFor, Refunded, OVERFLOW;
    var o, after := w.open[turn], Next(cfg, w, Abort(turn));
    forall key: string | key != OVERFLOW
      ensures OwedTo(after, key) == OwedTo(w, key)
      ensures Bucket(after.ledger.perModel, key).prompt ==
                if key == o.model then SatSub(Bucket(w.ledger.perModel, key).prompt, o.charge.prompt)
                else Bucket(w.ledger.perModel, key).prompt
    {
      OwedClosed(w, turn, key);
      PromptAfterRefund(cfg, w.ledger, o.model, o.charge, key);
    }
    hide OwedTo, Bucket;
    OneOwnKey(w, after, o.model);
  }

  /** The same for own buckets only. */
  lemma OneOwnKey(w: World, after: World, changed: string)
    requires OwnBacked(w) && changed != OVERFLOW
    requires forall key: string :: key != changed && key != OVERFLOW ==>
               OwedTo(after, key) == OwedTo(w, key) &&
               Bucket(after.ledger.perModel, key).prompt == Bucket(w.ledger.perModel, key).prompt
    ensures OwnBacked(after) <==> OwedTo(after, changed) <= Bucket(after.ledger.perModel, changed).prompt
  {
    hide OwedTo, Bucket, OVERFLOW;
  }

  /** A model resolves to its own bucket or to the reserved one. */
  lemma TwoWays(m: map<string, CostEntry>, model: string, maxTracked: nat)
    ensures var key := KeyFor(m, model, maxTracked).0; key == model || key == OVERFLOW
  {
    hide OVERFLOW, Tracked;
  }

  lemma AbortBacked(cfg: Config, w: World, turn: nat)
    requires OwnBacked(w) && Landed(w) && turn in w.open
    ensures OwnBacked(Next(cfg, w, Abort(turn))) <==> StrayLeaves(cfg, w, turn)
  {
    hide KeyFor, Next, OwnBacked, OVERFLOW;
    var o := w.open[turn];
    var key := KeyFor(w.ledger.perModel, o.model, cfg.maxTracked).0;
    TwoWays(w.ledger.perModel, o.model, cfg.maxTracked);
    if key == OVERFLOW {
      AbortElsewhere(cfg, w, turn);
    } else if o.landed == o.model {
      AbortOwn(cfg, w, turn);
    } else {
      AbortStray(cfg, w, turn);
    }
  }

  lemma ProceedBacked(cfg: Config, w: World, turn: nat)
    requires OwnBacked(w)
    ensures OwnBacked(Next(cfg, w, Proceed(turn)))
  {
    hide OVERFLOW;
    var after := Next(cfg, w, Proceed(turn));
    if turn in w.open {
      forall key: string | key != OVERFLOW ensures OwedTo(after, key) <= Bucket(after.ledger.perModel, key).prompt {
        OwedClosed(w, turn, key);
      }
    } else {
      assert w.open - {turn} == w.open;
    }
  }

  lemma CompleteBacked(cfg: Config, w: World, s: Step)
    requires s.Complete? && OwnBacked(w) && LedgerInRange(w.ledger)
    ensures OwnBacked(Next(cfg, w, s))
  {
    var st := SettlementFor(w.ledger, cfg, s.model, s.completion, s.cache, s.rates);
    assert st.delta.prompt == 0;
    hide OVERFLOW, SettlementFor, KeyFor, Committed, LedgerInRange;
    var after := Next(cfg, w, s);
    forall key: string | key != OVERFLOW ensures OwedTo(after, key) <= Bucket(after.ledger.perModel, key).prompt {
      PromptAfterCommit(cfg, w.ledger, s.model, st.delta, st.refund, key);
    }
  }

  /** A reset empties every bucket, so it spares own charges only when there are none with tokens. */
  lemma ResetBacked(cfg: Config, w: World)
    requires Landed(w)
    ensures OwnBacked(Next(cfg, w, Step.Reset)) <==> NothingOwn(w)
  {
    hide OVERFLOW;
    var after := Next(cfg, w, Step.Reset);
    assert forall key: string :: Bucket(after.ledger.perModel, key).prompt == 0;
    if NothingOwn(w) {
      forall key: string | key != OVERFLOW ensures OwedTo(after, key) == 0 { TotalOfNothing(w.open, LandedIn(key)); }
    }
    if OwnBacked(after) {
      forall t | t in w.open ensures w.open[t].landed == OVERFLOW || w.open[t].charge.prompt == 0 {
        TotalMember(w.open, t, LandedIn(w.open[t].landed));
        assert w.open[t].landed != OVERFLOW ==> OwedTo(after, w.open[t].landed) == 0;
      }
    }
  }

  lemma StepBacked(cfg: Config, w: World, s: Step)
    requires OwnBacked(w) && Landed(w) && LedgerInRange(w.ledger)
    ensures OwnBacked(Next(cfg, w, s)) <==> Spares(cfg, w, s)
  {
    hide OwnBacked, Landed, LedgerInRange, ChargeHolds, StrayLeaves, NothingOwn, KeyFor, CapCrossed, Completed;
    match s {
      case Request(model, c) => RequestBacked(cfg, w, model, c);
      case Abort(turn) => if turn in w.open { AbortBacked(cfg, w, turn); } else { NoTurn(cfg, w, turn); }
      case Proceed(turn) => ProceedBacked(cfg, w, turn);
      case Complete(_, _, _, _) => CompleteBacked(cfg, w, s);
      case Reset => ResetBacked(cfg, w);
    }
  }

  lemma NoTurn(cfg: Config, w: World, turn: nat)
    requires turn !in w.open
    ensures StrayLeaves(cfg, w, turn)
  {
  }

  // ------------------------------------------------------------------ runs

  ghost predicate AlwaysBacked(cfg: Config, steps: seq<Step>) {
    OwnBacked(Run(cfg, steps)) && (steps == [] || AlwaysBacked(cfg, steps[..|steps| - 1]))
  }

  ghost predicate AllSpare(cfg: Config, steps: seq<Step>) {
    steps == [] ||
    var front := steps[..|steps| - 1];
    AllSpare(cfg, front) && Spares(cfg, Run(cfg, front), steps[|steps| - 1])
  }

  lemma NothingOpen()
    ensures OwnBacked(World(EMPTY, map[], 0)) && Landed(World(EMPTY, map[], 0))
  {
  }

  lemma {:induction false} LandedRun(cfg: Config, steps: seq<Step>)
    ensures Landed(Run(cfg, steps))
  {
    hide Landed, OwnBacked, Next;
    if steps == [] {
      NothingOpen();
    } else {
      LandedRun(cfg, steps[..|steps| - 1]);
      LandedStep(cfg, Run(cfg, steps[..|steps| - 1]), steps[|steps| - 1]);
    }
  }

  /**
    Over every interleaving: each model's own bucket covers its open turns after every step, if and only if every
    charge fits beside the open ones, every folded turn aborted into its own model's bucket leaves that bucket enough,
    and no reset lands over an open own charge with tokens.
   */
  lemma {:induction false} OwnChargesCovered(cfg: Config, steps: seq<Step>)
    ensures AlwaysBacked(cfg, steps) <==> AllSpare(cfg, steps)
  {
    hide OwnBacked, Landed, Spares, Next, LedgerInRange;
    if steps == [] {
      NothingOpen();
    } else {
      var front := steps[..|steps| - 1];
      OwnChargesCovered(cfg, front);
      LandedRun(cfg, front);
      RangeRun(cfg, front);
      if AlwaysBacked(cfg, front) { StepBacked(cfg, Run(cfg, front), steps[|steps| - 1]); }
    }
  }

  /** Then every open charge in its own bucket is refunded from that bucket, which still holds its tokens. */
  lemma OwnRefundGoesHome(cfg: Config, steps: seq<Step>, turn: nat)
    requires AllSpare(cfg, steps)
    requires var w := Run(cfg, steps); turn in w.open ==> w.open[turn].landed == w.open[turn].model != OVERFLOW
    ensures RefundGoesHome(cfg, Run(cfg, steps), Abort(turn))
  {
    hide OwnBacked, Run, KeyFor, OVERFLOW;
    OwnChargesCovered(cfg, steps);
    var w := Run(cfg, steps);
    if turn in w.open && w.open[turn].charge.prompt > 0 { OwnResolves(cfg, w, turn); }
  }
}
