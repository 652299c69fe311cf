/** Concrete runs in which a ledger law fails together with its condition. */
module CostLimits {
  import opened Common
  import opened Cost
  import opened CostLaws
  import opened CostRuns
  import opened CostExact
  import opened CostConserve

  function Tokens(n: U64): Charge { Charge(n, 0, false, 0) }

  function Spent(n: nat): CostEntry { CostEntry(n, 0, 0, 0, 0, 0) }

  function Holding(perModel: map<string, CostEntry>, prompt: nat): Ledger {
    Ledger(Totals(Spent(prompt), 0, 0, 0), perModel)
  }

  const ONE_SLOT := Config(1, None, None)

  const X := "x"
  const Y := "y"

  lemma KeyIn(m: map<string, CostEntry>, model: string)
    requires model in m
    ensures KeyFor(m, model, 1) == (model, false)
  {
  }

  lemma KeyFull(m: map<string, CostEntry>, model: string, holder: string)
    requires m.Keys - {OVERFLOW} == {holder} && model !in m
    ensures KeyFor(m, model, 1) == (OVERFLOW, true)
  {
  }

  lemma KeyFree(m: map<string, CostEntry>, model: string)
    requires m.Keys <= {OVERFLOW} && model !in m
    ensures KeyFor(m, model, 1) == (model, false)
  {
    assert m.Keys - {OVERFLOW} == {};
  }

  lemma Distinct()
    ensures X != Y && X != OVERFLOW && Y != OVERFLOW
  {
    assert |X| == 1 && |Y| == 1 && |OVERFLOW| == 19;
    assert X[0] != Y[0];
  }

  lemma RunTo(steps: seq<Step>, i: nat)
    requires i < |steps|
    ensures Run(ONE_SLOT, steps[..i + 1]) == Next(ONE_SLOT, Run(ONE_SLOT, steps[..i]), steps[i])
  {
    assert steps[..i + 1] == steps[..i] + [steps[i]];
    RunSnoc(ONE_SLOT, steps[..i], steps[i]);
  }

  /** One slot: `x` takes it, a turn of `y` folds, `x` is aborted and frees it, a second turn of `y` takes it. */
  function FreedSlot(): seq<Step> {
    [Request(X, Tokens(1)), Request(Y, Tokens(5)), Step.Abort(0), Request(Y, Tokens(3))]
  }

  function XCharged(): World { World(Holding(map[X := Spent(1)], 1), map[0 := Open(X, Tokens(1), X)], 1) }

  function YFolded(): World {
    World(Holding(map[X := Spent(1), OVERFLOW := Spent(5)], 6),
          map[0 := Open(X, Tokens(1), X), 1 := Open(Y, Tokens(5), OVERFLOW)], 2)
  }

  function XDropped(): World {
    World(Holding(map[OVERFLOW := Spent(5)], 5), map[1 := Open(Y, Tokens(5), OVERFLOW)], 2)
  }

  function YOwn(): World {
    World(Holding(map[OVERFLOW := Spent(5), Y := Spent(3)], 8),
          map[1 := Open(Y, Tokens(5), OVERFLOW), 2 := Open(Y, Tokens(3), Y)], 3)
  }

  lemma ChargeX()
    ensures Next(ONE_SLOT, World(EMPTY, map[], 0), Request(X, Tokens(1))) == XCharged()
  {
    Distinct();
    hide KeyFor, OVERFLOW;
    KeyFree(map[], X);
  }

  lemma FoldY()
    ensures Next(ONE_SLOT, XCharged(), Request(Y, Tokens(5))) == YFolded()
  {
    Distinct();
    hide KeyFor, OVERFLOW;
    assert XCharged().ledger.perModel.Keys - {OVERFLOW} == {X};
    KeyFull(XCharged().ledger.perModel, Y, X);
  }

  lemma DropX()
    ensures Next(ONE_SLOT, YFolded(), Step.Abort(0)) == XDropped()
  {
    Distinct();
    hide KeyFor, OVERFLOW;
    KeyIn(YFolded().ledger.perModel, X);
    assert YFolded().ledger.perModel - {X} == XDropped().ledger.perModel;
    assert YFolded().open - {0} == XDropped().open;
  }

  lemma ChargeY()
    ensures Next(ONE_SLOT, XDropped(), Request(Y, Tokens(3))) == YOwn()
  {
    Distinct();
    hide KeyFor, OVERFLOW;
    KeyFree(XDropped().ledger.perModel, Y);
  }

  lemma FreedSlotRun()
    ensures Run(ONE_SLOT, FreedSlot()) == YOwn()
  {
    hide Next, XCharged, YFolded, XDropped, YOwn, OVERFLOW;
    var s := FreedSlot();
    assert s[..0] == [] && s[..4] == s;
    ChargeX();
    FoldY();
    DropX();
    ChargeY();
    assert Run(ONE_SLOT, []) == World(EMPTY, map[], 0);
    hide Run;
    RunTo(s, 0);
    RunTo(s, 1);
    RunTo(s, 2);
    RunTo(s, 3);
  }

  /**
    Aborting the folded turn now takes its five tokens out of the three-token bucket of the second turn, which is
    dropped while that turn is open: its tokens are in the totals but in no bucket, and its own refund finds none.
   */
  lemma FoldedRefundEmptiesAnotherBucket()
    ensures var w := Run(ONE_SLOT, FreedSlot() + [Step.Abort(1)]);
            && 2 in w.open && w.open[2].charge.prompt == 3 && w.open[2].landed == w.open[2].model
            && w.open[2].model !in w.ledger.perModel
            && w.ledger.totals.entry.prompt == 3
            && !FoldGoesHome(ONE_SLOT, Run(ONE_SLOT, FreedSlot()), Step.Abort(1))
  {
    FreedSlotRun();
    Distinct();
    RunSnoc(ONE_SLOT, FreedSlot(), Step.Abort(1));
    hide OVERFLOW, KeyFor, Run;
    var w := Run(ONE_SLOT, FreedSlot());
    KeyIn(w.ledger.perModel, Y);
    assert w.ledger.perModel[Y] == Spent(3);
  }

  function LateRefund(): seq<Step> { [Request(X, Tokens(5)), Step.Reset, Request(X, Tokens(3)), Step.Abort(0)] }

  function AfterReset(): World { World(EMPTY, map[0 := Open(X, Tokens(5), X)], 1) }

  function LaterTurn(): World {
    World(Holding(map[X := Spent(3)], 3), map[0 := Open(X, Tokens(5), X), 1 := Open(X, Tokens(3), X)], 2)
  }

  lemma ResetRun()
    ensures Run(ONE_SLOT, LateRefund()[..2]) == AfterReset()
  {
    var s := LateRefund();
    assert s[..0] == [];
    assert Run(ONE_SLOT, []) == World(EMPTY, map[], 0);
    hide KeyFor, OVERFLOW, Run, Charged;
    KeyFree(map[], X);
    RunTo(s, 0);
    RunTo(s, 1);
  }

  lemma LaterRun()
    ensures Run(ONE_SLOT, LateRefund()[..3]) == LaterTurn()
  {
    ResetRun();
    hide KeyFor, OVERFLOW, Run;
    KeyFree(map[], X);
    RunTo(LateRefund(), 2);
  }

  /** A reset between a charge and its refund: the refund takes tokens of a later turn. */
  lemma ResetBeforeRefund()
    ensures var w := Run(ONE_SLOT, LateRefund());
            && 1 in w.open && w.open[1].charge.prompt == 3
            && w.ledger.totals.entry.prompt == 0
  {
    var s := LateRefund();
    assert s[..4] == s;
    LaterRun();
    hide KeyFor, OVERFLOW, Run;
    RunTo(s, 3);
    KeyIn(LaterTurn().ledger.perModel, X);
  }

  /** A turn of `x` charged without a rate, one of `y` with one, and a completion of `x` once its rate is known. */
  function LateRate(): seq<Step> {
    [Request(X, Charge(5, 0, true, 0)), Request(Y, Charge(5, 10, false, 0)),
     Step.Complete(X, 0, Some(CacheUsage(5, 0)), Some(Rates(1_000_000, 0, 0, 0)))]
  }

  function TwoSlots(): Config { Config(2, None, None) }

  lemma BothCharged()
    ensures var l := Run(TwoSlots(), LateRate()[..2]).ledger;
            && l.perModel == map[X := Spent(5), Y := CostEntry(5, 0, 0, 0, 10, 0)]
            && l.totals.entry == CostEntry(10, 0, 0, 0, 10, 0)
  {
    var s := LateRate();
    assert s[..0] == [] && s[..1] == [] + [s[0]] && s[..2] == s[..1] + [s[1]];
    assert Run(TwoSlots(), []) == World(EMPTY, map[], 0);
    RunSnoc(TwoSlots(), [], s[0]);
    RunSnoc(TwoSlots(), s[..1], s[1]);
    Distinct();
    hide KeyFor, OVERFLOW, Run;
    FreeSlot(map[], X);
    FreeSlot(map[X := Spent(5)], Y);
    assert Run(TwoSlots(), s[..1]).ledger.perModel == map[X := Spent(5)];
  }

  lemma FreeSlot(m: map<string, CostEntry>, model: string)
    requires |m| <= 1 && model !in m
    ensures KeyFor(m, model, 2) == (model, false)
  {
    hide OVERFLOW;
    SubsetSize(m.Keys - {OVERFLOW}, m.Keys);
  }

  /**
    The refund of the completion comes off the total spend but not off its own bucket, which holds none: one model's
    spend exceeds the total. No turn folded or aborted, nothing overflowed, no reset.
   */
  lemma LateRateBreaksSum()
    ensures var l := Run(TwoSlots(), LateRate()).ledger;
            Y in l.perModel && l.perModel[Y].spent == 10 && l.totals.entry.spent == 5
  {
    var s := LateRate();
    assert s == s[..2] + [s[2]];
    BothCharged();
    RunSnoc(TwoSlots(), s[..2], s[2]);
    Distinct();
    var l := Run(TwoSlots(), s[..2]).ledger;
    assert KeyFor(l.perModel, X, 2) == (X, false);
    hide KeyFor, OVERFLOW, Run;
  }

  /** One turn of eight tokens under a cap of ten is admitted, and its completion adds five. */
  lemma CompletionCrossesCap()
    ensures var cfg := Config(1, Some(10), None);
            var steps := [Request(X, Tokens(8)), Step.Complete(X, 5, None, None)];
            Admitted(cfg, World(EMPTY, map[], 0), steps[0]) && TotalTokens(Run(cfg, steps).ledger.totals.entry) == 13
  {
    var cfg := Config(1, Some(10), None);
    var steps := [Request(X, Tokens(8)), Step.Complete(X, 5, None, None)];
    assert steps[..0] == [] && steps[..1] == [] + [steps[0]] && steps == steps[..1] + [steps[1]];
    assert Run(cfg, []) == World(EMPTY, map[], 0);
    RunSnoc(cfg, [], steps[0]);
    RunSnoc(cfg, steps[..1], steps[1]);
    hide Run, KeyFor, OVERFLOW;
    assert Run(cfg, steps[..1]).ledger.totals.entry == Spent(8);
  }

  /** Two turns of ten tokens each report twenty cached reads each. */
  function OverReported(): seq<Act> {
    var cached := Some(CacheUsage(20, 0));
    [Begin(X, 10, 0), Begin(X, 10, 0), Finish(0, 0, cached), Finish(1, 0, cached)]
  }

  function Unpriced(): Setup { Setup(ONE_SLOT, map[]) }

  lemma DoTo(acts: seq<Act>, i: nat)
    requires i < |acts|
    ensures DoAll(Unpriced(), acts[..i + 1]) == Do(Unpriced(), DoAll(Unpriced(), acts[..i]), acts[i])
  {
    assert acts[..i + 1][..i] == acts[..i];
  }

  lemma TwoBegun()
    ensures var b := DoAll(Unpriced(), OverReported()[..2]);
            && b.ledger.perModel == map[X := Spent(20)] && b.ledger.totals.entry == Spent(20)
            && b.running == map[0 := Turn(X, 10, X), 1 := Turn(X, 10, X)]
  {
    var acts := OverReported();
    assert acts[..0] == [];
    assert DoAll(Unpriced(), []) == Book(EMPTY, map[], 0);
    Distinct();
    hide KeyFor, OVERFLOW, DoAll;
    KeyFree(map[], X);
    DoTo(acts, 0);
    assert DoAll(Unpriced(), acts[..1]).ledger.perModel == map[X := Spent(10)];
    DoTo(acts, 1);
    KeyIn(map[X := Spent(10)], X);
  }

  /** A completion of either turn, while the bucket holds twenty prompt tokens, is credited all twenty. */
  lemma CreditedTwenty(b: Book, turn: nat)
    requires X in b.ledger.perModel && b.ledger.perModel[X].prompt == 20 && b.ledger.perModel[X].cacheRead <= 20
    requires turn in b.running && b.running[turn].model == X && b.ledger.totals.entry.cacheRead <= 20
    requires b.ledger.totals.entry.prompt <= U64_MAX
    ensures var after := Do(Unpriced(), b, Finish(turn, 0, Some(CacheUsage(20, 0))));
            && after.ledger.totals.entry.cacheRead == b.ledger.totals.entry.cacheRead + 20
            && after.ledger.totals.entry.prompt == b.ledger.totals.entry.prompt
            && X in after.ledger.perModel && after.ledger.perModel[X].prompt == 20
            && after.ledger.perModel[X].cacheRead == b.ledger.perModel[X].cacheRead + 20
            && after.running == b.running - {turn}
  {
    KeyIn(b.ledger.perModel, X);
    hide KeyFor, OVERFLOW;
  }

  /**
    The clamp looks at the model's whole bucket, so over-reporting turns can push the cached reads to twice the prompt
    tokens they are said to be a part of.
   */
  lemma CumulativeClampOverCredits()
    ensures var e := DoAll(Unpriced(), OverReported()).ledger.totals.entry;
            e.prompt == 20 && e.cacheRead == 40
  {
    var acts := OverReported();
    assert acts[..4] == acts;
    TwoBegun();
    hide DoAll, Do;
    DoTo(acts, 2);
    CreditedTwenty(DoAll(Unpriced(), acts[..2]), 0);
    DoTo(acts, 3);
    CreditedTwenty(DoAll(Unpriced(), acts[..3]), 1);
  }

  /**
    A turn of `x` with an empty prompt holds the only slot; a refund drops its bucket, and `y` leaves the reserved
    one.
   */
  function EmptyPrompt(): seq<Act> {
    [Begin(X, 0, 0), Begin(Y, 5, 0), Bounce(X, 1, 0), Begin(Y, 10, 0),
     Finish(1, 0, Some(CacheUsage(5, 0))), Finish(3, 0, Some(CacheUsage(10, 0)))]
  }

  lemma EmptyThenFold()
    ensures var b := DoAll(Unpriced(), EmptyPrompt()[..2]);
            && b.ledger.perModel == map[X := ZERO, OVERFLOW := Spent(5)]
            && b.running == map[0 := Turn(X, 0, X), 1 := Turn(Y, 5, OVERFLOW)] && b.next == 2
            && b.ledger.totals.entry == Spent(5)
  {
    var acts := EmptyPrompt();
    assert acts[..0] == [];
    assert DoAll(Unpriced(), []) == Book(EMPTY, map[], 0);
    Distinct();
    hide KeyFor, OVERFLOW, DoAll;
    KeyFree(map[], X);
    DoTo(acts, 0);
    assert DoAll(Unpriced(), acts[..1]).ledger.perModel == map[X := ZERO];
    var m: map<string, CostEntry> := map[X := ZERO];
    assert m.Keys - {OVERFLOW} == {X};
    KeyFull(m, Y, X);
    DoTo(acts, 1);
  }

  lemma SlotFreed()
    ensures var b := DoAll(Unpriced(), EmptyPrompt()[..3]);
            && b.ledger.perModel == map[OVERFLOW := Spent(5)]
            && b.running == map[0 := Turn(X, 0, X), 1 := Turn(Y, 5, OVERFLOW)] && b.next == 3
            && b.ledger.totals.entry == Spent(5)
  {
    var acts := EmptyPrompt();
    EmptyThenFold();
    Distinct();
    hide KeyFor, OVERFLOW, DoAll;
    var m := DoAll(Unpriced(), acts[..2]).ledger.perModel;
    KeyIn(m, X);
    KeyIn(m[X := Spent(1)], X);
    DoTo(acts, 2);
    assert m[X := Spent(1)] - {X} == map[OVERFLOW := Spent(5)];
  }

  lemma OwnSlot()
    ensures var b := DoAll(Unpriced(), EmptyPrompt()[..4]);
            && b.ledger.perModel == map[OVERFLOW := Spent(5), Y := Spent(10)]
            && 1 in b.running && b.running[1] == Turn(Y, 5, OVERFLOW)
            && 3 in b.running && b.running[3] == Turn(Y, 10, Y)
  {
    var acts := EmptyPrompt();
    SlotFreed();
    Distinct();
    hide KeyFor, OVERFLOW, DoAll;
    KeyFree(map[OVERFLOW := Spent(5)], Y);
    DoTo(acts, 3);
  }

  lemma CreditedAgain(b: Book, turn: nat, read: nat)
    requires Y in b.ledger.perModel && b.ledger.perModel[Y].prompt == 10 && b.ledger.perModel[Y].cacheRead <= 10
            && read <= 10
    requires turn in b.running && b.running[turn].model == Y
    ensures var after := Do(Unpriced(), b, Finish(turn, 0, Some(CacheUsage(read, 0))));
            && Y in after.ledger.perModel && after.ledger.perModel[Y].prompt == 10
            && after.ledger.perModel[Y].cacheRead == b.ledger.perModel[Y].cacheRead + read
            && after.running == b.running - {turn}
  {
    KeyIn(b.ledger.perModel, Y);
    hide KeyFor, OVERFLOW;
  }

  /**
    With an empty prompt, conservation fails though every response reports no more than its own turn's prompt: a model's
    cached reads exceed its prompt tokens.
   */
  lemma EmptyPromptBreaksConservation()
    ensures var b := DoAll(Unpriced(), EmptyPrompt());
            Y in b.ledger.perModel && b.ledger.perModel[Y].prompt == 10 && b.ledger.perModel[Y].cacheRead == 15
    ensures var running := DoAll(Unpriced(), EmptyPrompt()[..4]).running;
            1 in running && running[1].tokens == 5 && 3 in running && running[3].tokens == 10
  {
    var acts := EmptyPrompt();
    assert acts[..6] == acts;
    OwnSlot();
    hide DoAll, Do, KeyFor;
    DoTo(acts, 4);
    CreditedAgain(DoAll(Unpriced(), acts[..4]), 1, 5);
    DoTo(acts, 5);
    CreditedAgain(DoAll(Unpriced(), acts[..5]), 3, 10);
  }
}
