/** Exactness of the totals under concurrency, and where a refund goes. */
module CostExact {
  import opened Common
  import opened Cost
  import opened CostLaws
  import opened CostRuns
  import opened CostSum
  import opened MapTotals

  // ---------------------------------------------------------------- books

  /** Plain sums of what was admitted, refunded and committed since the last reset: no saturation, no buckets. */
  datatype Books = Books(promptIn: nat, promptOut: nat, completion: nat, turns: nat,
                         unpricedIn: nat, unpricedOut: nat, imagesIn: nat, imagesOut: nat)

  const NO_BOOKS := Books(0, 0, 0, 0, 0, 0, 0, 0)

  function One(unpriced: bool): nat { if unpriced then 1 else 0 }

  function Record(cfg: Config, w: World, b: Books, s: Step): Books {
    match s
    case Request(_, c) =>
      if Admitted(cfg, w, s)
      then b.(promptIn := b.promptIn + c.prompt, unpricedIn := b.unpricedIn + One(c.unpriced),
              imagesIn := b.imagesIn + c.images)
      else b
    case Abort(turn) =>
      if turn in w.open
      then
        var c := w.open[turn].charge;
        b.(promptOut := b.promptOut + c.prompt, unpricedOut := b.unpricedOut + One(c.unpriced),
           imagesOut := b.imagesOut + c.images)
      else b
    case Proceed(_) => b
    case Complete(_, completion, _, _) => b.(completion := b.completion + completion, turns := b.turns + 1)
    case Reset => NO_BOOKS
  }

  function BooksOf(cfg: Config, steps: seq<Step>): Books {
    if steps == [] then NO_BOOKS
    else
      var front := steps[..|steps| - 1];
      Record(cfg, Run(cfg, front), BooksOf(cfg, front), steps[|steps| - 1])
  }

  /** No reset lands while a charge awaits its observers. */
  predicate QuietResets(cfg: Config, steps: seq<Step>) {
    steps == [] ||
    var front := steps[..|steps| - 1];
    QuietResets(cfg, front) && (steps[|steps| - 1].Reset? ==> Run(cfg, front).open == map[])
  }

  // ------------------------------------------------------------ exactness

  ghost predicate Exact(t: Totals, b: Books) {
    && t.entry.prompt + b.promptOut == b.promptIn
    && t.entry.completion == b.completion && t.entry.turns == b.turns
    && t.unpriced + b.unpricedOut == b.unpricedIn
    && t.images + b.imagesOut == b.imagesIn
  }

  /** The totals agree with the books after every step. */
  ghost predicate AlwaysExact(cfg: Config, steps: seq<Step>) {
    Exact(Run(cfg, steps).ledger.totals, BooksOf(cfg, steps)) && (steps == [] || AlwaysExact(cfg, steps[..|steps| - 1]))
  }

  /** What the step adds fits the current totals. */
  predicate AddsFit(cfg: Config, w: World, s: Step) {
    var t := w.ledger.totals;
    match s
    case Request(_, c) =>
      Admitted(cfg, w, s) ==>
        && t.entry.prompt + c.prompt <= U64_MAX && t.unpriced + One(c.unpriced) <= U64_MAX
        && t.images + c.images <= U64_MAX
    case Complete(_, completion, _, _) => t.entry.completion + completion <= U64_MAX && t.entry.turns + 1 <= U64_MAX
    case _ => true
  }

  /** What an abort takes back is there to be taken. */
  predicate RefundCovered(w: World, s: Step) {
    s.Abort? && s.turn in w.open ==>
      var t, c := w.ledger.totals, w.open[s.turn].charge;
      c.prompt <= t.entry.prompt && One(c.unpriced) <= t.unpriced && c.images <= t.images
  }

  predicate AllAddsFit(cfg: Config, steps: seq<Step>) {
    steps == [] ||
    var front := steps[..|steps| - 1];
    AllAddsFit(cfg, front) && AddsFit(cfg, Run(cfg, front), steps[|steps| - 1])
  }

  predicate AllRefundsCovered(cfg: Config, steps: seq<Step>) {
    steps == [] ||
    var front := steps[..|steps| - 1];
    AllRefundsCovered(cfg, front) && RefundCovered(Run(cfg, front), steps[|steps| - 1])
  }

  lemma ExactRequest(cfg: Config, w: World, b: Books, s: Step)
    requires s.Request? && Exact(w.ledger.totals, b) && LedgerInRange(w.ledger)
    ensures Exact(Next(cfg, w, s).ledger.totals, Record(cfg, w, b, s)) <==> AddsFit(cfg, w, s)
  {
    hide KeyFor, CapCrossed;
  }

  lemma ExactAbort(cfg: Config, w: World, b: Books, s: Step)
    requires s.Abort? && Exact(w.ledger.totals, b)
    ensures Exact(Next(cfg, w, s).ledger.totals, Record(cfg, w, b, s)) <==> RefundCovered(w, s)
  {
    hide KeyFor;
  }

  /** What a completion adds to the counters the books keep. */
  lemma SettlementShape(l: Ledger, cfg: Config, s: Step)
    requires s.Complete?
    ensures var d := SettlementFor(l, cfg, s.model, s.completion, s.cache, s.rates).delta;
            d.prompt == 0 && d.completion == s.completion && d.turns == 1
  {
    hide KeyFor, Price;
  }

  lemma ExactComplete(cfg: Config, w: World, b: Books, s: Step)
    requires s.Complete? && Exact(w.ledger.totals, b) && LedgerInRange(w.ledger)
    ensures Exact(Next(cfg, w, s).ledger.totals, Record(cfg, w, b, s)) <==> AddsFit(cfg, w, s)
  {
    SettlementShape(w.ledger, cfg, s);
    hide KeyFor, SettlementFor;
  }

  /** A step keeps the totals exact if and only if none of its saturating operations on them saturates. */
  lemma ExactStep(cfg: Config, w: World, b: Books, s: Step)
    requires Exact(w.ledger.totals, b) && LedgerInRange(w.ledger)
    ensures Exact(Next(cfg, w, s).ledger.totals, Record(cfg, w, b, s)) <==> AddsFit(cfg, w, s) && RefundCovered(w, s)
  {
    hide Exact, LedgerInRange, Next, Record;
    if s.Request? {
      ExactRequest(cfg, w, b, s);
    } else if s.Abort? {
      ExactAbort(cfg, w, b, s);
    } else if s.Complete? {
      ExactComplete(cfg, w, b, s);
    } else {
      ExactOther(cfg, w, b, s);
    }
  }

  lemma ExactOther(cfg: Config, w: World, b: Books, s: Step)
    requires (s.Proceed? || s.Reset?) && Exact(w.ledger.totals, b)
    ensures Exact(Next(cfg, w, s).ledger.totals, Record(cfg, w, b, s))
  {
    hide Exact;
    NothingCounted();
  }

  lemma NothingCounted()
    ensures Exact(EMPTY.totals, NO_BOOKS)
  {
  }

  /**
    In every interleaving, the totals equal what was admitted minus what was refunded plus what was committed, after
    every step, if and only if every addition fits the totals it meets and every refund is covered by them.
   */
  lemma {:induction false} ExactnessIffUnsaturated(cfg: Config, steps: seq<Step>)
    ensures AlwaysExact(cfg, steps) <==> AllAddsFit(cfg, steps) && AllRefundsCovered(cfg, steps)
  {
    hide Exact, Next, Record, LedgerInRange, AddsFit, RefundCovered;
    if steps == [] {
      NothingCounted();
    } else {
      var front := steps[..|steps| - 1];
      ExactnessIffUnsaturated(cfg, front);
      RangeRun(cfg, front);
      if AlwaysExact(cfg, front) { ExactStep(cfg, Run(cfg, front), BooksOf(cfg, front), steps[|steps| - 1]); }
    }
  }

  // -------------------------------------------------- resets that stay quiet

  function PromptOf(o: Open): nat { o.charge.prompt }
  function UnpricedOf(o: Open): nat { One(o.charge.unpriced) }
  function ImagesOf(o: Open): nat { o.charge.images }

  /** What is still open was admitted and not refunded. */
  ghost predicate Owed(open: map<nat, Open>, b: Books) {
    && Total(open, PromptOf) + b.promptOut <= b.promptIn
    && Total(open, UnpricedOf) + b.unpricedOut <= b.unpricedIn
    && Total(open, ImagesOf) + b.imagesOut <= b.imagesIn
  }

  lemma OwedAfterCharge(open: map<nat, Open>, turn: nat, o: Open, b: Books, after: Books)
    requires Owed(open, b) && turn !in open
    requires after == b.(promptIn := b.promptIn + o.charge.prompt, unpricedIn := b.unpricedIn + One(o.charge.unpriced),
                         imagesIn := b.imagesIn + o.charge.images)
    ensures Owed(open[turn := o], after)
  {
    TotalUpdate(open, turn, o, PromptOf);
    TotalUpdate(open, turn, o, UnpricedOf);
    TotalUpdate(open, turn, o, ImagesOf);
  }

  lemma OwedAfterClose(open: map<nat, Open>, turn: nat, b: Books)
    requires Owed(open, b) && turn in open
    ensures var c := open[turn].charge;
            && Owed(open - {turn}, b)
            && Owed(open - {turn},
                    b.(promptOut := b.promptOut + c.prompt, unpricedOut := b.unpricedOut + One(c.unpriced),
                                      imagesOut := b.imagesOut + c.images))
            && c.prompt + b.promptOut <= b.promptIn && One(c.unpriced) + b.unpricedOut <= b.unpricedIn
            && c.images + b.imagesOut <= b.imagesIn
  {
    TotalRemove(open, turn, PromptOf);
    TotalRemove(open, turn, UnpricedOf);
    TotalRemove(open, turn, ImagesOf);
  }

  ghost predicate Numbered(w: World) { forall t :: t in w.open ==> t < w.next }

  lemma NumberedStep(cfg: Config, w: World, s: Step)
    requires Numbered(w)
    ensures Numbered(Next(cfg, w, s))
  {
    hide KeyFor, CapCrossed, Charged, Refunded, Completed;
  }

  lemma OwedRequest(cfg: Config, w: World, b: Books, s: Step)
    requires s.Request? && Owed(w.open, b) && Numbered(w)
    ensures Owed(Next(cfg, w, s).open, Record(cfg, w, b, s))
  {
    hide KeyFor, CapCrossed, Owed, Charged;
    if Admitted(cfg, w, s) {
      var o := Open(s.model, s.charge, KeyFor(w.ledger.perModel, s.model, cfg.maxTracked).0);
      OwedAfterCharge(w.open, w.next, o, b, Record(cfg, w, b, s));
    }
  }

  lemma OwedClose(cfg: Config, w: World, b: Books, s: Step)
    requires (s.Abort? || s.Proceed?) && Owed(w.open, b)
    ensures Owed(Next(cfg, w, s).open, Record(cfg, w, b, s))
  {
    hide Owed, Refunded;
    if s.turn in w.open { OwedAfterClose(w.open, s.turn, b); } else { assert w.open - {s.turn} == w.open; }
  }

  lemma OwedComplete(cfg: Config, w: World, b: Books, s: Step)
    requires s.Complete? && Owed(w.open, b)
    ensures Owed(Next(cfg, w, s).open, Record(cfg, w, b, s))
  {
    hide Owed, Completed;
    OwedAnyway(w.open, b, Record(cfg, w, b, s));
  }

  lemma OwedReset(cfg: Config, w: World, b: Books, s: Step)
    requires s.Reset? && w.open == map[]
    ensures Owed(Next(cfg, w, s).open, Record(cfg, w, b, s))
  {
    hide Owed, CapCrossed, KeyFor, Charged, Refunded, Completed;
    NothingOwed();
  }

  lemma OwedStep(cfg: Config, w: World, b: Books, s: Step)
    requires Owed(w.open, b) && Numbered(w) && (s.Reset? ==> w.open == map[])
    ensures Owed(Next(cfg, w, s).open, Record(cfg, w, b, s))
  {
    hide Next, Owed, Record, Numbered;
    if s.Request? {
      OwedRequest(cfg, w, b, s);
    } else if s.Abort? || s.Proceed? {
      OwedClose(cfg, w, b, s);
    } else if s.Complete? {
      OwedComplete(cfg, w, b, s);
    } else {
      OwedReset(cfg, w, b, s);
    }
  }

  lemma OwedAnyway(open: map<nat, Open>, b: Books, after: Books)
    requires Owed(open, b)
    requires after == b.(completion := after.completion, turns := after.turns)
    ensures Owed(open, after)
  {
  }

  lemma NothingOwed()
    ensures Owed(map[], NO_BOOKS)
  {
  }

  lemma OwedIsCovered(w: World, b: Books, s: Step)
    requires Exact(w.ledger.totals, b) && Owed(w.open, b)
    ensures RefundCovered(w, s)
  {
    hide Owed;
    if s.Abort? && s.turn in w.open { OwedAfterClose(w.open, s.turn, b); }
  }

  lemma {:induction false} ExactRun(cfg: Config, steps: seq<Step>)
    requires AllAddsFit(cfg, steps) && QuietResets(cfg, steps)
    ensures var w, b := Run(cfg, steps), BooksOf(cfg, steps);
            Exact(w.ledger.totals, b) && Owed(w.open, b) && Numbered(w)
    ensures AllRefundsCovered(cfg, steps)
  {
    hide Exact, Owed, Record, Next, AddsFit, RefundCovered, LedgerInRange;
    if steps == [] {
      NothingOwed();
      NothingCounted();
    } else {
      var front, s := steps[..|steps| - 1], steps[|steps| - 1];
      ExactRun(cfg, front);
      RangeRun(cfg, front);
      OwedIsCovered(Run(cfg, front), BooksOf(cfg, front), s);
      ExactStep(cfg, Run(cfg, front), BooksOf(cfg, front), s);
      OwedStep(cfg, Run(cfg, front), BooksOf(cfg, front), s);
      NumberedStep(cfg, Run(cfg, front), s);
    }
  }

  /** Without an overflow of the totals, and without a reset over an open charge, the totals are exact at every step. */
  lemma LedgerExactness(cfg: Config, steps: seq<Step>)
    requires AllAddsFit(cfg, steps) && QuietResets(cfg, steps)
    ensures AlwaysExact(cfg, steps)
  {
    ExactRun(cfg, steps);
    ExactnessIffUnsaturated(cfg, steps);
  }

  // ----------------------------------------------------- where refunds go

  /** Every admitted prompt fits the prompt total it meets; nothing else may overflow a bucket's prompt tokens. */
  predicate PromptsFit(cfg: Config, steps: seq<Step>) {
    steps == [] ||
    var front, s := steps[..|steps| - 1], steps[|steps| - 1];
    var w := Run(cfg, front);
    PromptsFit(cfg, front) && (Admitted(cfg, w, s) ==> w.ledger.totals.entry.prompt + s.charge.prompt <= U64_MAX)
  }

  /** Prompt tokens of open turns that landed in bucket `key`. */
  function LandedIn(key: string): Open -> nat {
    (o: Open) => if o.landed == key then o.charge.prompt else 0
  }

  /** A folded turn that is aborted still resolves to the reserved bucket it was charged to. */
  predicate FoldGoesHome(cfg: Config, w: World, s: Step) {
    s.Abort? && s.turn in w.open && w.open[s.turn].charge.prompt > 0 && w.open[s.turn].landed != w.open[s.turn].model
    ==> KeyFor(w.ledger.perModel, w.open[s.turn].model, cfg.maxTracked).1
  }

  predicate FoldsGoHome(cfg: Config, steps: seq<Step>) {
    steps == [] ||
    var front := steps[..|steps| - 1];
    FoldsGoHome(cfg, front) && FoldGoesHome(cfg, Run(cfg, front), steps[|steps| - 1])
  }

  /** Every bucket still holds the charges of the open turns that landed in it, and the totals hold every bucket. */
  ghost predicate Backed(w: World) {
    && (forall key: string :: Total(w.open, LandedIn(key)) <= Bucket(w.ledger.perModel, key).prompt)
    && Total(w.ledger.perModel, PromptIn) <= w.ledger.totals.entry.prompt
    && (forall t :: t in w.open ==> t < w.next && (w.open[t].landed == w.open[t].model || w.open[t].landed == OVERFLOW))
  }

  /** A turn whose tokens are still in its bucket is refunded from that bucket. */
  lemma RefundFindsBucket(cfg: Config, w: World, turn: nat)
    requires Backed(w) && turn in w.open && w.open[turn].charge.prompt > 0
    requires FoldGoesHome(cfg, w, Abort(turn))
    ensures var o := w.open[turn];
            && KeyFor(w.ledger.perModel, o.model, cfg.maxTracked).0 == o.landed
            && o.landed in w.ledger.perModel && o.charge.prompt <= w.ledger.perModel[o.landed].prompt
  {
    hide OVERFLOW, Tracked;
    var o := w.open[turn];
    TotalMember(w.open, turn, LandedIn(o.landed));
    assert 0 < o.charge.prompt <= Bucket(w.ledger.perModel, o.landed).prompt;
  }

  /** A bucket and the total it is part of. */
  lemma BucketTotal(m: map<string, CostEntry>, key: string, e: CostEntry)
    ensures Total(m, PromptIn) == Total(m - {key}, PromptIn) + Bucket(m, key).prompt
    ensures Total(m[key := e], PromptIn) == Total(m - {key}, PromptIn) + e.prompt
  {
    TotalUpdate(m, key, e, PromptIn);
  }

  lemma ChargeBuckets(cfg: Config, l: Ledger, model: string, c: Charge)
    requires Total(l.perModel, PromptIn) <= l.totals.entry.prompt && l.totals.entry.prompt + c.prompt <= U64_MAX
    ensures var key := KeyFor(l.perModel, model, cfg.maxTracked).0;
            var after := Charged(l, model, cfg.maxTracked, c);
            && (forall k: string :: Bucket(after.perModel, k).prompt ==
                  Bucket(l.perModel, k).prompt + if k == key then c.prompt else 0)
            && Total(after.perModel, PromptIn) <= after.totals.entry.prompt
  {
    var key := KeyFor(l.perModel, model, cfg.maxTracked).0;
    hide KeyFor;
    var after := Charged(l, model, cfg.maxTracked, c);
    BucketTotal(l.perModel, key, after.perModel[key]);
  }

  lemma BackedCharge(cfg: Config, w: World, model: string, c: Charge)
    requires Backed(w) && w.ledger.totals.entry.prompt + c.prompt <= U64_MAX && CapCrossed(cfg, w.ledger, c).None?
    ensures Backed(Next(cfg, w, Request(model, c)))
  {
    hide CapCrossed, Tracked, OVERFLOW;
    ChargeBuckets(cfg, w.ledger, model, c);
    hide Charged;
    var after := Next(cfg, w, Request(model, c));
    var landed := KeyFor(w.ledger.perModel, model, cfg.maxTracked).0;
    forall key: string ensures Total(after.open, LandedIn(key)) <= Bucket(after.ledger.perModel, key).prompt {
      TotalUpdate(w.open, w.next, Open(model, c, landed), LandedIn(key));
      assert Total(w.open, LandedIn(key)) <= Bucket(w.ledger.perModel, key).prompt;
    }
  }

  /** What a refund takes from its bucket, when the bucket covers it, it takes from the totals too. */
  lemma RefundBuckets(cfg: Config, l: Ledger, model: string, c: Charge)
    requires Total(l.perModel, PromptIn) <= l.totals.entry.prompt
    requires c.prompt <= Bucket(l.perModel, KeyFor(l.perModel, model, cfg.maxTracked).0).prompt
    ensures var key := KeyFor(l.perModel, model, cfg.maxTracked).0;
            var after := Refunded(l, model, cfg.maxTracked, c);
            && (forall k: string :: Bucket(after.perModel, k).prompt ==
                  Bucket(l.perModel, k).prompt - if k == key then c.prompt else 0)
            && Total(after.perModel, PromptIn) <= after.totals.entry.prompt
  {
    var m, key := l.perModel, KeyFor(l.perModel, model, cfg.maxTracked).0;
    hide KeyFor;
    BucketTotal(m, key, Sub(Bucket(m, key), c.Entry()));
  }

  lemma BackedAbort(cfg: Config, w: World, turn: nat)
    requires Backed(w) && turn in w.open && FoldGoesHome(cfg, w, Abort(turn))
    ensures Backed(Next(cfg, w, Abort(turn)))
  {
    hide Tracked, OVERFLOW;
    var o := w.open[turn];
    var after := Next(cfg, w, Abort(turn));
    if o.charge.prompt > 0 { RefundFindsBucket(cfg, w, turn); }
    RefundBuckets(cfg, w.ledger, o.model, o.charge);
    hide KeyFor, Refunded;
    forall key: string ensures Total(after.open, LandedIn(key)) <= Bucket(after.ledger.perModel, key).prompt {
      TotalRemove(w.open, turn, LandedIn(key));
      assert Total(w.open, LandedIn(key)) <= Bucket(w.ledger.perModel, key).prompt;
    }
  }

  lemma BackedProceed(cfg: Config, w: World, turn: nat)
    requires Backed(w)
    ensures Backed(Next(cfg, w, Proceed(turn)))
  {
    hide OVERFLOW;
    if turn in w.open {
      forall key: string ensures Total(w.open - {turn}, LandedIn(key)) <= Total(w.open, LandedIn(key)) {
        TotalRemove(w.open, turn, LandedIn(key));
      }
    } else {
      assert w.open - {turn} == w.open;
    }
  }

  /** A completion moves no prompt tokens. */
  lemma CompleteBuckets(l: Ledger, cfg: Config, model: string, d: CostEntry, refund: nat)
    requires LedgerInRange(l) && d.prompt == 0 && Total(l.perModel, PromptIn) <= l.totals.entry.prompt
    ensures var after := Committed(l, model, cfg.maxTracked, d, refund);
            && (forall k: string :: Bucket(after.perModel, k).prompt == Bucket(l.perModel, k).prompt)
            && Total(after.perModel, PromptIn) <= after.totals.entry.prompt
  {
    var key := KeyFor(l.perModel, model, cfg.maxTracked).0;
    hide KeyFor;
    BucketTotal(l.perModel, key, CommitTo(Bucket(l.perModel, key), d, refund));
  }

  lemma BackedComplete(cfg: Config, w: World, s: Step)
    requires Backed(w) && s.Complete? && LedgerInRange(w.ledger)
    ensures Backed(Next(cfg, w, s))
  {
    hide OVERFLOW, KeyFor, LedgerInRange;
    var st := SettlementFor(w.ledger, cfg, s.model, s.completion, s.cache, s.rates);
    assert st.delta.prompt == 0;
    hide SettlementFor;
    CompleteBuckets(w.ledger, cfg, s.model, st.delta, st.refund);
    hide Committed;
  }

  lemma {:induction false} BackedRun(cfg: Config, steps: seq<Step>)
    requires PromptsFit(cfg, steps) && QuietResets(cfg, steps) && FoldsGoHome(cfg, steps)
    ensures Backed(Run(cfg, steps))
  {
    hide Backed, FoldGoesHome, CapCrossed, KeyFor, LedgerInRange;
    if steps == [] {
      NothingBacked(World(EMPTY, map[], 0));
    } else {
      var front, s := steps[..|steps| - 1], steps[|steps| - 1];
      var w := Run(cfg, front);
      BackedRun(cfg, front);
      RangeRun(cfg, front);
      match s {
        case Request(model, c) =>
          if Admitted(cfg, w, s) { BackedCharge(cfg, w, model, c); } else { BackedRefused(w); }
        case Abort(turn) =>
          if turn in w.open { BackedAbort(cfg, w, turn); }
        case Proceed(turn) => BackedProceed(cfg, w, turn);
        case Complete(_, _, _, _) => BackedComplete(cfg, w, s);
        case Reset => NothingBacked(w.(ledger := EMPTY));
      }
    }
  }

  lemma BackedRefused(w: World)
    requires Backed(w)
    ensures Backed(w.(next := w.next + 1))
  {
  }

  lemma NothingBacked(w: World)
    requires w.open == map[] && w.ledger == EMPTY
    ensures Backed(w)
  {
  }

  /** The abort takes the turn's tokens out of the bucket they were charged to, which still holds them. */
  predicate RefundGoesHome(cfg: Config, w: World, s: Step) {
    s.Abort? && s.turn in w.open && w.open[s.turn].charge.prompt > 0
    ==> var o := w.open[s.turn];
        && KeyFor(w.ledger.perModel, o.model, cfg.maxTracked).0 == o.landed
        && o.landed in w.ledger.perModel && o.charge.prompt <= w.ledger.perModel[o.landed].prompt
  }

  predicate RefundsGoHome(cfg: Config, steps: seq<Step>) {
    steps == [] ||
    var front := steps[..|steps| - 1];
    RefundsGoHome(cfg, front) && RefundGoesHome(cfg, Run(cfg, front), steps[|steps| - 1])
  }

  /** While earlier folded aborts went home, the next refund goes home exactly when its own fold does. */
  lemma RefundKey(cfg: Config, steps: seq<Step>, s: Step)
    requires PromptsFit(cfg, steps) && QuietResets(cfg, steps) && FoldsGoHome(cfg, steps)
    ensures RefundGoesHome(cfg, Run(cfg, steps), s) <==> FoldGoesHome(cfg, Run(cfg, steps), s)
  {
    hide PromptsFit, QuietResets, FoldsGoHome, Run, OVERFLOW, Tracked;
    BackedRun(cfg, steps);
    var w := Run(cfg, steps);
    if s.Abort? && s.turn in w.open && w.open[s.turn].charge.prompt > 0 {
      if FoldGoesHome(cfg, w, s) { RefundFindsBucket(cfg, w, s.turn); }
    }
  }

  /**
    Whatever other turns do in between, every refund of a run that charged tokens goes back to the bucket it was
    charged to, which still holds those tokens, if and only if every aborted folded turn still resolves to the
    reserved bucket. A charge that landed in its own model's bucket needs nothing.
   */
  lemma {:induction false} RefundKeyStability(cfg: Config, steps: seq<Step>)
    requires PromptsFit(cfg, steps) && QuietResets(cfg, steps)
    ensures RefundsGoHome(cfg, steps) <==> FoldsGoHome(cfg, steps)
  {
    if steps != [] {
      hide RefundGoesHome, FoldGoesHome, Run;
      var front := steps[..|steps| - 1];
      RefundKeyStability(cfg, front);
      if FoldsGoHome(cfg, front) { RefundKey(cfg, front, steps[|steps| - 1]); }
    }
  }

  // --------------------------------------------- when nothing ever folds

  function ModelsOf(steps: seq<Step>): set<string> {
    if steps == [] then {}
    else
      var s := steps[|steps| - 1];
      ModelsOf(steps[..|steps| - 1]) + if s.Request? || s.Complete? then {s.model} else {}
  }

  /** Only `models` are known, and every open turn landed in its own model's bucket. */
  ghost predicate AllOwn(w: World, models: set<string>) {
    && w.ledger.perModel.Keys <= models
    && forall t :: t in w.open ==> w.open[t].model in models && w.open[t].landed == w.open[t].model
  }

  lemma AllOwnStep(cfg: Config, w: World, s: Step, models: set<string>)
    requires AllOwn(w, models) && |models| <= cfg.maxTracked
    requires s.Request? || s.Complete? ==> s.model in models
    ensures AllOwn(Next(cfg, w, s), models) && FoldGoesHome(cfg, w, s)
    ensures s.Complete? ==> !KeyFor(w.ledger.perModel, s.model, cfg.maxTracked).1
  {
    hide Tracked, KeyFor, CapCrossed, Add, Sub, CommitTo, SettlementFor, OVERFLOW;
    if s.Request? || s.Complete? {
      OwnKey(w.ledger.perModel, s.model, models, cfg.maxTracked);
    } else if s.Abort? && s.turn in w.open {
      OwnKey(w.ledger.perModel, w.open[s.turn].model, models, cfg.maxTracked);
    }
  }

  lemma {:induction false} FewModelsKeys(cfg: Config, steps: seq<Step>, models: set<string>)
    requires ModelsOf(steps) <= models && |models| <= cfg.maxTracked
    ensures AllOwn(Run(cfg, steps), models) && FoldsGoHome(cfg, steps) && Folds(cfg, steps) == 0
  {
    if steps != [] {
      hide AllOwn, FoldGoesHome, Next, KeyFor;
      var front := steps[..|steps| - 1];
      FewModelsKeys(cfg, front, models);
      AllOwnStep(cfg, Run(cfg, front), steps[|steps| - 1], models);
    }
  }

  lemma OwnKey(perModel: map<string, CostEntry>, model: string, models: set<string>, maxTracked: nat)
    requires perModel.Keys <= models && model in models && |models| <= maxTracked
    ensures KeyFor(perModel, model, maxTracked) == (model, false)
  {
    hide OVERFLOW;
    if model !in perModel {
      SubsetSize(perModel.Keys - {OVERFLOW}, models - {model});
    }
  }

  /** A run that names at most as many models as may be tracked never folds, so every refund goes home. */
  lemma FewModelsNeverFold(cfg: Config, steps: seq<Step>)
    requires PromptsFit(cfg, steps) && QuietResets(cfg, steps)
    requires |ModelsOf(steps)| <= cfg.maxTracked
    ensures Folds(cfg, steps) == 0 && RefundsGoHome(cfg, steps)
  {
    FewModelsKeys(cfg, steps, ModelsOf(steps));
    RefundKeyStability(cfg, steps);
  }
}
