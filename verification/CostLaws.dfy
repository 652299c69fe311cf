/** Laws of one price, one bucket map and one charge-refund pair. */
module CostLaws {
  import opened Common
  import opened Cost

  // --------------------------------------------------------------- prices

  /** The `u128` product cannot overflow, so the only rounding is the division's. */
  lemma ProductFits(tokens: nat, rate: nat)
    requires tokens <= U64_MAX && rate <= U64_MAX
    ensures tokens * rate < 0x1_0000_0000_0000_0000_0000_0000_0000_0000
  {
    MulMonotone(tokens, U64_MAX, rate);
    MulMonotone(rate, U64_MAX, U64_MAX);
  }

  lemma MulMonotone(a: nat, b: nat, c: nat)
    requires a <= b
    ensures a * c <= b * c
  {
    assert b * c == a * c + (b - a) * c;
  }

  lemma PriceMonotone(a: nat, b: nat, rate: nat)
    requires a <= b
    ensures Price(a, rate) <= Price(b, rate)
  {
    MulMonotone(a, b, rate);
  }

  function Sum(tokens: seq<nat>): nat {
    if tokens == [] then 0 else Sum(tokens[..|tokens| - 1]) + tokens[|tokens| - 1]
  }

  function SumOfPrices(tokens: seq<nat>, rate: nat): nat {
    if tokens == [] then 0 else SumOfPrices(tokens[..|tokens| - 1], rate) + Price(tokens[|tokens| - 1], rate)
  }

  lemma DivSplit(x: nat, y: nat)
    ensures x / TOKENS_PER_MTOK + y / TOKENS_PER_MTOK <= (x + y) / TOKENS_PER_MTOK
            <= x / TOKENS_PER_MTOK + y / TOKENS_PER_MTOK + 1
  {
  }

  /** Truncation never over-charges, and loses less than one micro-unit for each charge but one. */
  lemma {:induction false} TruncationBound(tokens: seq<nat>, rate: nat)
    requires tokens != [] && Sum(tokens) * rate / TOKENS_PER_MTOK <= U64_MAX
    ensures SumOfPrices(tokens, rate) <= Price(Sum(tokens), rate) <= SumOfPrices(tokens, rate) + |tokens| - 1
  {
    var front, last := tokens[..|tokens| - 1], tokens[|tokens| - 1];
    assert Sum(tokens) * rate == Sum(front) * rate + last * rate;
    DivSplit(Sum(front) * rate, last * rate);
    if front == [] {
      assert Sum(front) == 0 && SumOfPrices(front, rate) == 0;
    } else {
      TruncationBound(front, rate);
    }
  }

  // ----------------------------------------------------------- attribution

  /** The map holds at most `maxTracked` real models, hence at most one entry more in all. */
  predicate Bounded(perModel: map<string, CostEntry>, maxTracked: nat) {
    Tracked(perModel) <= maxTracked
  }

  lemma BoundedSize(perModel: map<string, CostEntry>, maxTracked: nat)
    requires Bounded(perModel, maxTracked)
    ensures |perModel| <= maxTracked + 1
  {
    var named := perModel.Keys - {OVERFLOW};
    if OVERFLOW in perModel {
      assert perModel.Keys == named + {OVERFLOW};
    } else {
      assert perModel.Keys == named;
    }
    assert |perModel| == |perModel.Keys|;
  }

  /** Writing to the key a model resolves to never breaks the bound. */
  lemma WriteKeepsBound(perModel: map<string, CostEntry>, model: string, maxTracked: nat, e: CostEntry)
    requires Bounded(perModel, maxTracked)
    ensures Bounded(perModel[KeyFor(perModel, model, maxTracked).0 := e], maxTracked)
  {
    hide OVERFLOW;
    var key := KeyFor(perModel, model, maxTracked).0;
    assert perModel[key := e].Keys == perModel.Keys + {key};
    WithKey(perModel.Keys, key, OVERFLOW);
  }

  lemma WithKey<K>(keys: set<K>, key: K, reserved: K)
    ensures |keys + {key} - {reserved}| == |keys - {reserved}| + if key in keys || key == reserved then 0 else 1
  {
    if key in keys {
      assert keys + {key} == keys;
    } else if key == reserved {
      assert keys + {key} - {reserved} == keys - {reserved};
    } else {
      assert keys + {key} - {reserved} == (keys - {reserved}) + {key};
    }
  }

  /** How writing to a bucket changes the number of tracked models. */
  lemma TrackedWrite(m: map<string, CostEntry>, key: string, e: CostEntry)
    ensures Tracked(m[key := e]) == Tracked(m) + if key in m || key == OVERFLOW then 0 else 1
  {
    hide OVERFLOW;
    assert m[key := e].Keys == m.Keys + {key};
    WithKey(m.Keys, key, OVERFLOW);
  }

  lemma DropKeepsBound(perModel: map<string, CostEntry>, key: string, maxTracked: nat)
    requires Bounded(perModel, maxTracked)
    ensures Bounded(perModel - {key}, maxTracked)
  {
    SubsetSize((perModel - {key}).Keys - {OVERFLOW}, perModel.Keys - {OVERFLOW});
  }

  // -------------------------------------------------------- charge, refund

  /** Adding this charge saturates nowhere. */
  predicate Fits(l: Ledger, model: string, maxTracked: nat, c: Charge) {
    var b := Bucket(l.perModel, KeyFor(l.perModel, model, maxTracked).0);
    && l.totals.entry.prompt + c.prompt <= U64_MAX && l.totals.entry.spent + c.micros <= U64_MAX
    && (c.unpriced ==> l.totals.unpriced + 1 <= U64_MAX) && l.totals.images + c.images <= U64_MAX
    && b.prompt + c.prompt <= U64_MAX && b.spent + c.micros <= U64_MAX
    && InRange(l.totals.entry) && InRange(b)
  }

  /** Every counter is a `u64`. */
  predicate InRange(e: CostEntry) {
    && e.prompt <= U64_MAX && e.completion <= U64_MAX && e.cacheRead <= U64_MAX
    && e.cacheWrite <= U64_MAX && e.spent <= U64_MAX && e.turns <= U64_MAX
  }

  /** A charge does not change which bucket its own model resolves to. */
  lemma SameKeyAfterCharge(l: Ledger, model: string, maxTracked: nat, c: Charge)
    ensures KeyFor(Charged(l, model, maxTracked, c).perModel, model, maxTracked).0 ==
            KeyFor(l.perModel, model, maxTracked).0
  {
    var key := KeyFor(l.perModel, model, maxTracked).0;
    var after := Charged(l, model, maxTracked, c).perModel;
    if key == OVERFLOW && model !in after {
      assert after.Keys - {OVERFLOW} == l.perModel.Keys - {OVERFLOW};
    }
  }

  lemma SubAfterAdd(e: CostEntry, d: CostEntry)
    requires InRange(e) && d.completion == d.cacheRead == d.cacheWrite == d.turns == 0
    requires e.prompt + d.prompt <= U64_MAX && e.spent + d.spent <= U64_MAX
    ensures Sub(Add(e, d), d) == e
    ensures e == ZERO ==> Add(e, d) == d
  {
  }

  /** A bucket written and then put back, or dropped as all zero. */
  lemma BucketUndone(m: map<string, CostEntry>, key: string, e: CostEntry)
    ensures m[key := e] - {key} == m - {key}
    ensures key in m ==> m[key := e][key := m[key]] == m
  {
  }

  /** The token and money part of a refund right after its charge. */
  lemma EntriesUndone(l: Ledger, model: string, maxTracked: nat, c: Charge)
    requires InRange(l.totals.entry) && InRange(Bucket(l.perModel, KeyFor(l.perModel, model, maxTracked).0))
    requires l.totals.entry.prompt + c.prompt <= U64_MAX && l.totals.entry.spent + c.micros <= U64_MAX
    requires var b := Bucket(l.perModel, KeyFor(l.perModel, model, maxTracked).0);
             b.prompt + c.prompt <= U64_MAX && b.spent + c.micros <= U64_MAX
    ensures var after := Refunded(Charged(l, model, maxTracked, c), model, maxTracked, c);
            var key := KeyFor(l.perModel, model, maxTracked).0;
            && after.totals.entry == l.totals.entry
            && after.perModel == if Bucket(l.perModel, key) == ZERO then l.perModel - {key} else l.perModel
  {
    SameKeyAfterCharge(l, model, maxTracked, c);
    var key, d := KeyFor(l.perModel, model, maxTracked).0, c.Entry();
    var b := Bucket(l.perModel, key);
    SubAfterAdd(l.totals.entry, d);
    SubAfterAdd(b, d);
    hide KeyFor, Add, Sub, OVERFLOW, InRange;
    var charged := if key in l.perModel then Add(l.perModel[key], d) else d;
    BucketUndone(l.perModel, key, charged);
    assert Sub(charged, d) == b;
  }

  /**
    A refund right after its charge restores the ledger, bucket map included, exactly when the model's bucket was not
    an all-zero one: such a bucket is dropped with the refund.
   */
  lemma RefundUndoesCharge(l: Ledger, model: string, maxTracked: nat, c: Charge)
    requires Fits(l, model, maxTracked, c)
    ensures var key := KeyFor(l.perModel, model, maxTracked).0;
            Refunded(Charged(l, model, maxTracked, c), model, maxTracked, c) == l
            <==> !(key in l.perModel && l.perModel[key] == ZERO)
  {
    EntriesUndone(l, model, maxTracked, c);
    hide KeyFor, Add, Sub, OVERFLOW;
    var key := KeyFor(l.perModel, model, maxTracked).0;
    var after := Refunded(Charged(l, model, maxTracked, c), model, maxTracked, c);
    assert after.totals == l.totals;
    if key !in l.perModel { assert l.perModel - {key} == l.perModel; }
  }
}
