/** The two-phase token and money ledger of `src/plugins/cost.rs`: prices, entries, the ledger and its lock sections. */
module Cost {
  import opened Common

  // --------------------------------------------------------------- prices

  const TOKENS_PER_MTOK: nat := 1_000_000

  datatype Rates = Rates(input: nat, output: nat, cacheRead: nat, cacheWrite: nat)

  /** `price_micros`: exact product, truncating division, saturating cast. */
  function Price(tokens: nat, rate: nat): U64 {
    SatAdd(0, tokens * rate / TOKENS_PER_MTOK)
  }

  // -------------------------------------------------------------- entries

  datatype CostEntry = CostEntry(prompt: nat, completion: nat, cacheRead: nat, cacheWrite: nat, spent: nat, turns: nat)

  const ZERO := CostEntry(0, 0, 0, 0, 0, 0)

  function Add(e: CostEntry, d: CostEntry): CostEntry {
    CostEntry(SatAdd(e.prompt, d.prompt), SatAdd(e.completion, d.completion), SatAdd(e.cacheRead, d.cacheRead),
              SatAdd(e.cacheWrite, d.cacheWrite), SatAdd(e.spent, d.spent), SatAdd(e.turns, d.turns))
  }

  function Sub(e: CostEntry, d: CostEntry): CostEntry {
    CostEntry(SatSub(e.prompt, d.prompt), SatSub(e.completion, d.completion), SatSub(e.cacheRead, d.cacheRead),
              SatSub(e.cacheWrite, d.cacheWrite), SatSub(e.spent, d.spent), SatSub(e.turns, d.turns))
  }

  function CommitTo(e: CostEntry, d: CostEntry, refund: nat): CostEntry {
    Add(e.(spent := SatSub(e.spent, refund)), d)
  }

  function TotalTokens(e: CostEntry): nat { SatAdd(e.prompt, e.completion) }

  // --------------------------------------------------------------- ledger

  datatype Totals = Totals(entry: CostEntry, unpriced: nat, images: nat, overflowTurns: nat)

  /** What one request adds: its prompt estimate, its price, and the counters riding with it. */
  datatype Charge = Charge(prompt: U64, micros: U64, unpriced: bool, images: U64) {
    function Entry(): CostEntry { CostEntry(prompt, 0, 0, 0, micros, 0) }
  }

  datatype Ledger = Ledger(totals: Totals, perModel: map<string, CostEntry>)

  const EMPTY := Ledger(Totals(ZERO, 0, 0, 0), map[])

  /** The reserved bucket; its leading NUL keeps it apart from real model names. */
  const OVERFLOW := "\0cuca-cost-overflow"

  /** Models holding a slot of their own. */
  function Tracked(perModel: map<string, CostEntry>): nat {
    |perModel.Keys - {OVERFLOW}|
  }

  /** `key_for`: the bucket a model uses now, and whether that is a fold into the reserved one. */
  function KeyFor(perModel: map<string, CostEntry>, model: string, maxTracked: nat): (string, bool) {
    if model in perModel then (model, false)
    else if Tracked(perModel) >= maxTracked then (OVERFLOW, true)
    else (model, false)
  }

  function Bucket(perModel: map<string, CostEntry>, key: string): CostEntry {
    if key in perModel then perModel[key] else ZERO
  }

  function Charged(l: Ledger, model: string, maxTracked: nat, c: Charge): Ledger {
    var key := KeyFor(l.perModel, model, maxTracked).0;
    Ledger(Totals(Add(l.totals.entry, c.Entry()),
                  if c.unpriced then SatAdd(l.totals.unpriced, 1) else l.totals.unpriced,
                  SatAdd(l.totals.images, c.images),
                  l.totals.overflowTurns),
           l.perModel[key := if key in l.perModel then Add(l.perModel[key], c.Entry()) else c.Entry()])
  }

  function Refunded(l: Ledger, model: string, maxTracked: nat, c: Charge): Ledger {
    var key := KeyFor(l.perModel, model, maxTracked).0;
    Ledger(Totals(Sub(l.totals.entry, c.Entry()),
                  if c.unpriced then SatSub(l.totals.unpriced, 1) else l.totals.unpriced,
                  SatSub(l.totals.images, c.images),
                  l.totals.overflowTurns),
           if key !in l.perModel then l.perModel
           else
             var left := Sub(l.perModel[key], c.Entry());
             if left == ZERO then l.perModel - {key} else l.perModel[key := left])
  }

  function Committed(l: Ledger, model: string, maxTracked: nat, d: CostEntry, refund: nat): Ledger {
    var (key, folded) := KeyFor(l.perModel, model, maxTracked);
    Ledger(Totals(CommitTo(l.totals.entry, d, refund), l.totals.unpriced, l.totals.images,
                  if folded then SatAdd(l.totals.overflowTurns, 1) else l.totals.overflowTurns),
           l.perModel[key := CommitTo(Bucket(l.perModel, key), d, refund)])
  }

  // -------------------------------------------------------- lock sections

  datatype Config = Config(maxTracked: nat, capTokens: Option<U64>, capMicros: Option<U64>)

  /** The bucket a model resolves to now. */
  function Home(l: Ledger, cfg: Config, model: string): CostEntry {
    Bucket(l.perModel, KeyFor(l.perModel, model, cfg.maxTracked).0)
  }

  datatype Refusal = Unpriced | TokenCap | MicrosCap

  function ChargeFor(tokens: U64, images: U64, rates: Option<Rates>): Charge {
    Charge(tokens, if rates.Some? then Price(tokens, rates.value.input) else 0, rates.None?, images)
  }

  /** Which cap, if any, the projected totals would cross; tokens are looked at first. */
  function CapCrossed(cfg: Config, l: Ledger, c: Charge): Option<Refusal> {
    if cfg.capTokens.Some? && SatAdd(TotalTokens(l.totals.entry), c.prompt) > cfg.capTokens.value then Some(TokenCap)
    else if cfg.capMicros.Some? && SatAdd(l.totals.entry.spent, c.micros) > cfg.capMicros.value then Some(MicrosCap)
    else None
  }

  datatype CacheUsage = CacheUsage(read: nat, write: nat)

  /** What a finished turn adds, and what it takes off the spend first. */
  datatype Settlement = Settlement(delta: CostEntry, refund: nat)

  /** The provider's cached reads, clamped to what the model's bucket was charged, are re-priced. */
  function SettlementFor(l: Ledger, cfg: Config, model: string, completion: nat, cache: Option<CacheUsage>,
                         rates: Option<Rates>): Settlement
  {
    var charged := Bucket(l.perModel, KeyFor(l.perModel, model, cfg.maxTracked).0).prompt;
    var read := if cache.None? then 0 else if cache.value.read <= charged then cache.value.read else charged;
    var write := if cache.None? then 0 else cache.value.write;
    match rates
    case None => Settlement(CostEntry(0, completion, read, write, 0, 1), 0)
    case Some(r) =>
      var output := Price(completion, r.output);
      if cache.None? then Settlement(CostEntry(0, completion, 0, 0, output, 1), 0)
      else
        var spend := SatAdd(SatAdd(output, Price(read, r.cacheRead)), Price(write, r.cacheWrite));
        Settlement(CostEntry(0, completion, read, write, spend, 1), Price(read, r.input))
  }

  function Completed(l: Ledger, cfg: Config, model: string, completion: nat, cache: Option<CacheUsage>,
                     rates: Option<Rates>): Ledger
  {
    var s := SettlementFor(l, cfg, model, completion, cache, rates);
    Committed(l, model, cfg.maxTracked, s.delta, s.refund)
  }

  // ------------------------------------------------------------ the plugin

  /** The mutable ledger with its configuration; each method is one lock section, or one whole hook. */
  class CostPlugin {
    const cfg: Config
    const rejectUnpriced: bool
    var totals: Totals
    var perModel: map<string, CostEntry>

    constructor (cfg: Config, rejectUnpriced: bool)
      ensures this.cfg == cfg && this.rejectUnpriced == rejectUnpriced && View() == EMPTY
    {
      this.cfg, this.rejectUnpriced := cfg, rejectUnpriced;
      totals, perModel := EMPTY.totals, map[];
    }

    function View(): Ledger
      reads this
    {
      Ledger(totals, perModel)
    }

    method AddToBucket(key: string, delta: CostEntry)
      modifies this`perModel
      ensures perModel == old(perModel)[key := if key in old(perModel) then Add(old(perModel)[key], delta) else delta]
    {
      if key in perModel {
        perModel := perModel[key := Add(perModel[key], delta)];
        return;
      }
      perModel := perModel[key := delta];
    }

    method ChargeRequest(model: string, c: Charge)
      modifies this
      ensures View() == Charged(old(View()), model, cfg.maxTracked, c)
    {
      totals := totals.(entry := Add(totals.entry, c.Entry()));
      if c.unpriced {
        totals := totals.(unpriced := SatAdd(totals.unpriced, 1));
      }
      totals := totals.(images := SatAdd(totals.images, c.images));
      var (key, _) := KeyFor(perModel, model, cfg.maxTracked);
      AddToBucket(key, c.Entry());
    }

    method RefundRequest(model: string, c: Charge)
      modifies this
      ensures View() == Refunded(old(View()), model, cfg.maxTracked, c)
    {
      totals := totals.(entry := Sub(totals.entry, c.Entry()));
      if c.unpriced {
        totals := totals.(unpriced := SatSub(totals.unpriced, 1));
      }
      totals := totals.(images := SatSub(totals.images, c.images));
      var (key, _) := KeyFor(perModel, model, cfg.maxTracked);
      var emptied := false;
      if key in perModel {
        perModel := perModel[key := Sub(perModel[key], c.Entry())];
        emptied := perModel[key] == ZERO;
      }
      if emptied {
        perModel := perModel - {key};
        assert perModel == old(perModel) - {key};
      }
    }

    method CommitResponse(model: string, d: CostEntry, refund: nat)
      modifies this
      ensures View() == Committed(old(View()), model, cfg.maxTracked, d, refund)
    {
      var (key, folded) := KeyFor(perModel, model, cfg.maxTracked);
      if folded {
        totals := totals.(overflowTurns := SatAdd(totals.overflowTurns, 1));
      }
      totals := totals.(entry := CommitTo(totals.entry, d, refund));
      if key in perModel {
        perModel := perModel[key := CommitTo(perModel[key], d, refund)];
        return;
      }
      perModel := perModel[key := CommitTo(ZERO, d, refund)];
    }

    method Reset()
      modifies this
      ensures View() == EMPTY
    {
      totals, perModel := EMPTY.totals, map[];
    }

    /** The check-and-charge section: a turn that would cross a cap is refused and changes nothing. */
    method Admit(model: string, c: Charge) returns (refusal: Option<Refusal>)
      modifies this
      ensures refusal == CapCrossed(cfg, old(View()), c)
      ensures View() == if refusal.Some? then old(View()) else Charged(old(View()), model, cfg.maxTracked, c)
    {
      var projectedTokens := SatAdd(TotalTokens(totals.entry), c.prompt);
      if cfg.capTokens.Some? && projectedTokens > cfg.capTokens.value {
        return Some(TokenCap);
      }
      var projectedMicros := SatAdd(totals.entry.spent, c.micros);
      if cfg.capMicros.Some? && projectedMicros > cfg.capMicros.value {
        return Some(MicrosCap);
      }
      ChargeRequest(model, c);
      refusal := None;
    }

    /** The whole request hook of a turn nobody interleaves with; `observers[i]` says whether observer `i` accepts. */
    method OnRequest(model: string, tokens: U64, images: U64, rates: Option<Rates>, observers: seq<bool>)
      returns (refusal: Option<Refusal>, aborted: bool)
      modifies this
      ensures refusal == Some(Unpriced) <==> rates.None? && rejectUnpriced
      ensures refusal.Some? && refusal != Some(Unpriced) ==>
                refusal == CapCrossed(cfg, old(View()), ChargeFor(tokens, images, rates))
      ensures refusal.Some? ==> View() == old(View()) && !aborted
      ensures refusal.None? ==>
                var c := ChargeFor(tokens, images, rates);
                var charged := Charged(old(View()), model, cfg.maxTracked, c);
                && CapCrossed(cfg, old(View()), c).None?
                && (aborted <==> false in observers)
                && View() == if aborted then Refunded(charged, model, cfg.maxTracked, c) else charged
    {
      aborted := false;
      if rates.None? && rejectUnpriced {
        return Some(Unpriced), false;
      }
      var c := ChargeFor(tokens, images, rates);
      refusal := Admit(model, c);
      if refusal.Some? {
        return;
      }
      for i := 0 to |observers|
        invariant forall j :: 0 <= j < i ==> observers[j]
        invariant View() == Charged(old(View()), model, cfg.maxTracked, c)
      {
        if !observers[i] {
          RefundRequest(model, c);
          return None, true;
        }
      }
    }

    /** The completion hook. */
    method OnResponseComplete(model: string, completion: nat, cache: Option<CacheUsage>, rates: Option<Rates>)
      modifies this
      ensures View() == Completed(old(View()), cfg, model, completion, cache, rates)
    {
      var delta := CostEntry(0, completion, 0, 0, 0, 1);
      var spend := if rates.Some? then Price(completion, rates.value.output) else 0;
      var refund := 0;
      if cache.Some? {
        var (key, _) := KeyFor(perModel, model, cfg.maxTracked);
        var charged := Bucket(perModel, key).prompt;
        var read := if cache.value.read <= charged then cache.value.read else charged;
        var write := cache.value.write;
        delta := delta.(cacheRead := read, cacheWrite := write);
        if rates.Some? {
          refund := Price(read, rates.value.input);
          spend := SatAdd(SatAdd(spend, Price(read, rates.value.cacheRead)), Price(write, rates.value.cacheWrite));
        }
      }
      delta := delta.(spent := spend);
      CommitResponse(model, delta, refund);
    }
  }
}
