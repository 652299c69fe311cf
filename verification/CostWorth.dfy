/** What the spend is worth: every kind of token at its own rate, over any run with fixed rates. */
module CostWorth {
  import opened Common
  import opened Cost
  import opened CostRuns
  import opened CostMoney

  /** A fixed price list; a model missing from it is unpriced. */
  type Card = map<string, Rates>

  function RatesOf(card: Card, model: string): Option<Rates> {
    if model in card then Some(card[model]) else None
  }

  /** The step was priced by the list. */
  predicate Uses(card: Card, s: Step) {
    match s
    case Request(model, c) => c == ChargeFor(c.prompt, c.images, RatesOf(card, model))
    case Complete(model, _, _, rates) => rates == RatesOf(card, model)
    case _ => true
  }

  /** Millionths of a micro-unit that go onto the spend and come off it, and the number of prices on each side. */
  datatype Bill = Bill(onto: nat, off: nat, added: nat, taken: nat) {
    function Plus(b: Bill): Bill { Bill(onto + b.onto, off + b.off, added + b.added, taken + b.taken) }
  }

  const NO_BILL := Bill(0, 0, 0, 0)

  /** The cached reads a finished turn is credited for: at most the prompt tokens its model's bucket was charged. */
  function Credited(l: Ledger, cfg: Config, model: string, usage: CacheUsage): nat {
    var charged := Home(l, cfg, model).prompt;
    if usage.read < charged then usage.read else charged
  }

  /** Prompt tokens cost the input rate; a credited read gives that back and costs the cache-read rate instead. */
  function BillOf(card: Card, cfg: Config, w: World, s: Step): Bill {
    match s
    case Request(model, c) =>
      if Admitted(cfg, w, s) && model in card then Bill(c.prompt * card[model].input, 0, 1, 0) else NO_BILL
    case Abort(turn) =>
      if turn in w.open && w.open[turn].model in card
      then Bill(0, w.open[turn].charge.prompt * card[w.open[turn].model].input, 0, 1)
      else NO_BILL
    case Complete(model, completion, cache, _) =>
      if model !in card then NO_BILL
      else if cache.None? then Bill(completion * card[model].output, 0, 1, 0)
      else
        var read := Credited(w.ledger, cfg, model, cache.value);
        Bill(completion * card[model].output + read * card[model].cacheRead
             + cache.value.write * card[model].cacheWrite, read * card[model].input, 3, 1)
    case _ => NO_BILL
  }

  function Billed(card: Card, cfg: Config, steps: seq<Step>): Bill {
    if steps == [] then NO_BILL
    else
      var front, s := steps[..|steps| - 1], steps[|steps| - 1];
      if s.Reset? then NO_BILL else Billed(card, cfg, front).Plus(BillOf(card, cfg, Run(cfg, front), s))
  }

  /** No single bill is beyond what a `u64` of micro-units can hold. */
  predicate BillFits(b: Bill) { b.onto <= 1_000_000 * U64_MAX && b.off <= 1_000_000 * U64_MAX }

  predicate AllBilled(card: Card, cfg: Config, steps: seq<Step>) {
    steps == [] ||
    var front, s := steps[..|steps| - 1], steps[|steps| - 1];
    AllBilled(card, cfg, front) && Uses(card, s) && BillFits(BillOf(card, cfg, Run(cfg, front), s))
  }

  // --------------------------------------------------------------- proofs

  /** One price is the exact product, rounded down to a whole micro-unit. */
  lemma PriceRoundsDown(tokens: nat, rate: nat)
    requires tokens * rate <= 1_000_000 * U64_MAX
    ensures 1_000_000 * Price(tokens, rate) <= tokens * rate < 1_000_000 * Price(tokens, rate) + 1_000_000
  {
  }

  /** `x` micro-units stand for `exact` millionths, each of `n` prices rounded down. */
  predicate Stands(x: nat, exact: nat, n: nat) { 1_000_000 * x <= exact <= 1_000_000 * x + 1_000_000 * n }

  predicate Accounts(b: MoneyBooks, bill: Bill) {
    Stands(b.paid, bill.onto, bill.added) && Stands(b.returned, bill.off, bill.taken)
  }

  /** Every open turn was charged by the list. */
  predicate OpenPriced(card: Card, w: World) {
    forall t :: t in w.open ==> w.open[t].charge.micros == OpenPrice(card, w.open[t])
  }

  function OpenPrice(card: Card, o: Open): nat {
    if o.model in card then Price(o.charge.prompt, card[o.model].input) else 0
  }

  lemma OpenStaysPriced(card: Card, cfg: Config, w: World, s: Step)
    requires OpenPriced(card, w) && Uses(card, s)
    ensures OpenPriced(card, Next(cfg, w, s))
  {
    hide KeyFor, CapCrossed, Charged, Refunded, Completed, Price;
  }

  lemma RequestBilled(card: Card, cfg: Config, w: World, b: MoneyBooks, bill: Bill, s: Step)
    requires s.Request? && Uses(card, s) && Accounts(b, bill) && BillFits(BillOf(card, cfg, w, s))
    ensures Accounts(Record(cfg, w, b, s), bill.Plus(BillOf(card, cfg, w, s)))
  {
    hide CapCrossed, Price;
    if Admitted(cfg, w, s) && s.model in card { PriceRoundsDown(s.charge.prompt, card[s.model].input); }
  }

  lemma AbortBilled(card: Card, cfg: Config, w: World, b: MoneyBooks, bill: Bill, s: Step)
    requires s.Abort? && OpenPriced(card, w) && Accounts(b, bill) && BillFits(BillOf(card, cfg, w, s))
    ensures Accounts(Record(cfg, w, b, s), bill.Plus(BillOf(card, cfg, w, s)))
  {
    hide Price;
    if s.turn in w.open && w.open[s.turn].model in card {
      PriceRoundsDown(w.open[s.turn].charge.prompt, card[w.open[s.turn].model].input);
    }
  }

  /** The four prices of one completion, each at the rate of its kind. */
  lemma SettledAtRates(l: Ledger, cfg: Config, model: string, completion: nat, usage: CacheUsage, r: Rates)
    requires var read := Credited(l, cfg, model, usage);
             && completion * r.output + read * r.cacheRead + usage.write * r.cacheWrite <= 1_000_000 * U64_MAX
             && read * r.input <= 1_000_000 * U64_MAX
    ensures var read := Credited(l, cfg, model, usage);
            var st := SettlementFor(l, cfg, model, completion, Some(usage), Some(r));
            && Stands(st.delta.spent,
                      completion * r.output + read * r.cacheRead + usage.write * r.cacheWrite, 3)
            && Stands(st.refund, read * r.input, 1)
  {
    hide KeyFor, Price;
    var read := Credited(l, cfg, model, usage);
    Nonnegative(completion, r.output);
    Nonnegative(read, r.cacheRead);
    Nonnegative(usage.write, r.cacheWrite);
    PriceRoundsDown(completion, r.output);
    PriceRoundsDown(read, r.cacheRead);
    PriceRoundsDown(usage.write, r.cacheWrite);
    PriceRoundsDown(read, r.input);
  }

  lemma Nonnegative(a: nat, b: nat)
    ensures a * b >= 0
  {
  }

  lemma CompleteBilled(card: Card, cfg: Config, w: World, b: MoneyBooks, bill: Bill, s: Step)
    requires s.Complete? && Uses(card, s) && Accounts(b, bill) && BillFits(BillOf(card, cfg, w, s))
    ensures Accounts(Record(cfg, w, b, s), bill.Plus(BillOf(card, cfg, w, s)))
  {
    if s.model in card && s.cache.Some? {
      SettledAtRates(w.ledger, cfg, s.model, s.completion, s.cache.value, card[s.model]);
      hide SettlementFor;
    } else {
      hide KeyFor, Price;
      if s.model in card { PriceRoundsDown(s.completion, card[s.model].output); }
    }
  }

  lemma StepBilled(card: Card, cfg: Config, w: World, b: MoneyBooks, bill: Bill, s: Step)
    requires OpenPriced(card, w) && Uses(card, s) && Accounts(b, bill) && BillFits(BillOf(card, cfg, w, s))
    requires !s.Reset?
    ensures Accounts(Record(cfg, w, b, s), bill.Plus(BillOf(card, cfg, w, s)))
  {
    hide Accounts, OpenPriced, Uses, BillFits;
    match s
    case Request(_, _) => RequestBilled(card, cfg, w, b, bill, s);
    case Abort(_) => AbortBilled(card, cfg, w, b, bill, s);
    case Complete(_, _, _, _) => CompleteBilled(card, cfg, w, b, bill, s);
    case Proceed(_) =>
  }

  lemma {:induction false} RunBilled(card: Card, cfg: Config, steps: seq<Step>)
    requires AllBilled(card, cfg, steps)
    ensures OpenPriced(card, Run(cfg, steps)) && Accounts(MoneyOf(cfg, steps), Billed(card, cfg, steps))
  {
    if steps != [] {
      hide Accounts, OpenPriced, Uses, BillFits, Next, Record, BillOf;
      var front, s := steps[..|steps| - 1], steps[|steps| - 1];
      RunBilled(card, cfg, front);
      OpenStaysPriced(card, cfg, Run(cfg, front), s);
      if s.Reset? {
        ResetBilled(cfg, Run(cfg, front), MoneyOf(cfg, front), s);
      } else {
        StepBilled(card, cfg, Run(cfg, front), MoneyOf(cfg, front), Billed(card, cfg, front), s);
      }
    }
  }

  lemma ResetBilled(cfg: Config, w: World, b: MoneyBooks, s: Step)
    requires s.Reset?
    ensures Accounts(Record(cfg, w, b, s), NO_BILL)
  {
  }

  /**
    In every interleaving in which nothing saturates, the spend is the money's worth of the tokens: prompt tokens at the
    input rate, completion tokens at the output rate, credited reads moved from the input to the cache-read rate, and
    writes at the cache-write rate, within one micro-unit for each price added or taken off.
   */
  lemma SpendIsWorth(card: Card, cfg: Config, steps: seq<Step>)
    requires AllFit(cfg, steps) && AllBilled(card, cfg, steps)
    ensures var spent, b := Run(cfg, steps).ledger.totals.entry.spent, Billed(card, cfg, steps);
            -1_000_000 * b.added <= 1_000_000 * spent - (b.onto - b.off) <= 1_000_000 * b.taken
  {
    hide AllFit, AllBilled, OpenPriced, Run, MoneyOf, Billed;
    RunBilled(card, cfg, steps);
    SpendIsExact(cfg, steps);
    ExactNow(cfg, steps);
  }

  lemma ExactNow(cfg: Config, steps: seq<Step>)
    requires AlwaysExact(cfg, steps)
    ensures Exact(Run(cfg, steps).ledger.totals.entry, MoneyOf(cfg, steps))
  {
    hide Exact, Run, MoneyOf;
  }
}
