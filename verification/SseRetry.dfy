/** Malformed `retry` values: when they are ignored, and when they erase a good one. */
module SseRetry {
  import opened Common
  import opened Text
  import opened SseSpec
  import opened SseParser
  import opened SseRoundTrip

  /** A value that is a number. */
  predicate Good(v: Bytes) { ValidUtf8(v) && ParseU64(Trim(v)).Some? }

  /** A value that is text but no number. */
  predicate Malformed(v: Bytes) { ValidUtf8(v) && ParseU64(Trim(v)).None? }

  function Number(last: Option<Bytes>): Option<nat> { if last.Some? then ParseU64(Trim(last.value)) else None }

  /** What ignoring malformed values would give: the last good one. */
  function LastGood(values: seq<Bytes>): Option<nat> { Number(Last(Filter(values, Good))) }

  /** What the parser keeps of the values. */
  function Kept(values: seq<Bytes>): Option<nat> { Number(Last(Filter(values, ValidUtf8))) }

  /** A good value is followed by a malformed one and by no good one after that. */
  ghost predicate GoodErased(values: seq<Bytes>) {
    exists i, j :: 0 <= i < j < |values| && Good(values[i]) && Malformed(values[j]) && NoneGoodAfter(values, j)
  }

  ghost predicate NoneGoodAfter(values: seq<Bytes>, j: nat) { forall k :: j < k < |values| ==> !Good(values[k]) }

  ghost predicate HasGood(values: seq<Bytes>) { exists i :: 0 <= i < |values| && Good(values[i]) }

  lemma HasGoodSnoc(front: seq<Bytes>, v: Bytes)
    ensures HasGood(front + [v]) <==> HasGood(front) || Good(v)
  {
    hide Good;
    var values := front + [v];
    if i :| 0 <= i < |front| && Good(front[i]) { assert Good(values[i]); }
    if Good(v) { assert Good(values[|front|]); }
    if i :| 0 <= i < |values| && Good(values[i]) { assert i < |front| ==> Good(front[i]); }
  }

  lemma LastGoodSnoc(front: seq<Bytes>, v: Bytes)
    ensures LastGood(front + [v]) == if Good(v) then ParseU64(Trim(v)) else LastGood(front)
  {
    FilterSnoc(front, v, Good);
    hide Good, Filter, ParseU64, Trim;
  }

  lemma KeptSnoc(front: seq<Bytes>, v: Bytes)
    ensures Kept(front + [v]) == if ValidUtf8(v) then ParseU64(Trim(v)) else Kept(front)
  {
    FilterSnoc(front, v, ValidUtf8);
    hide ValidUtf8, Filter, ParseU64, Trim;
  }

  lemma NothingKept()
    ensures Kept([]) == LastGood([]) == None && !HasGood([]) && !GoodErased([])
  {
    hide Good, Malformed, ValidUtf8;
  }

  lemma {:induction false} LastGoodExists(values: seq<Bytes>)
    ensures LastGood(values).Some? <==> HasGood(values)
  {
    hide LastGood, HasGood, ValidUtf8, ParseU64, Trim, GoodErased;
    if values == [] {
      NothingKept();
    } else {
      var front, v := values[..|values| - 1], values[|values| - 1];
      assert values == front + [v];
      LastGoodExists(front);
      LastGoodSnoc(front, v);
      HasGoodSnoc(front, v);
    }
  }

  lemma ErasedSnoc(front: seq<Bytes>, v: Bytes)
    ensures GoodErased(front + [v]) <==>
              if Good(v) then false
              else if Malformed(v) then HasGood(front)
              else GoodErased(front)
  {
    hide Good, Malformed;
    NotBoth(v);
    var values := front + [v];
    assert values[|front|] == v;
    if Malformed(v) {
      assert NoneGoodAfter(values, |front|);
      if i :| 0 <= i < |front| && Good(front[i]) { assert Good(values[i]) && Malformed(values[|front|]); }
      if GoodErased(values) {
        var i, j :| 0 <= i < j < |values| && Good(values[i]) && Malformed(values[j]) && NoneGoodAfter(values, j);
        assert Good(front[i]);
      }
    } else if !Good(v) {
      ErasedBehind(front, v);
    }
  }

  lemma NotBoth(v: Bytes)
    ensures !(Good(v) && Malformed(v))
  {
    hide ValidUtf8, ParseU64, Trim;
  }

  lemma ErasedBehind(front: seq<Bytes>, v: Bytes)
    requires !Good(v) && !Malformed(v)
    ensures GoodErased(front + [v]) <==> GoodErased(front)
  {
    hide Good, Malformed;
    var values := front + [v];
    if GoodErased(front) {
      var i, j :| 0 <= i < j < |front| && Good(front[i]) && Malformed(front[j]) && NoneGoodAfter(front, j);
      assert Good(values[i]) && Malformed(values[j]);
      assert NoneGoodAfter(values, j);
    }
    if GoodErased(values) {
      var i, j :| 0 <= i < j < |values| && Good(values[i]) && Malformed(values[j]) && NoneGoodAfter(values, j);
      assert Good(front[i]) && Malformed(front[j]);
      forall k | j < k < |front| ensures !Good(front[k]) { assert values[k] == front[k]; }
      assert NoneGoodAfter(front, j);
    }
  }

  lemma {:induction false} KeptIffNotErased(values: seq<Bytes>)
    ensures Kept(values) == LastGood(values) <==> !GoodErased(values)
  {
    hide Kept, LastGood, HasGood, GoodErased, ValidUtf8, ParseU64, Trim;
    if values == [] {
      NothingKept();
    } else {
      var front, v := values[..|values| - 1], values[|values| - 1];
      assert values == front + [v];
      KeptIffNotErased(front);
      KeptSnoc(front, v);
      LastGoodSnoc(front, v);
      ErasedSnoc(front, v);
      LastGoodExists(front);
    }
  }

  /**
    An event's `retry` is the last well-formed value of its frame if and only if no well-formed value is erased: a
    malformed value that is UTF-8 erases every one before it.
   */
  lemma RetryIgnoresMalformed(lines: seq<Bytes>)
    ensures RetryOf(lines) == LastGood(Values(lines, Retry)) <==> !GoodErased(Values(lines, Retry))
  {
    KeptIffNotErased(Values(lines, Retry));
  }

  lemma TwoValues(good: Bytes, bad: Bytes)
    requires Good(good) && Malformed(bad)
    ensures Kept([good, bad]) == None && LastGood([good, bad]) == ParseU64(Trim(good))
  {
    KeptSnoc([good], bad);
    LastGoodSnoc([good], bad);
    LastGoodSnoc([], good);
    NotBoth(bad);
    hide Kept, LastGood, ValidUtf8, ParseU64, Trim;
    assert [] + [good] == [good] && [good] + [bad] == [good, bad];
  }

  lemma DecimalIsGood(n: U64)
    ensures Good(Decimal(n)) && LineValue(Decimal(n)) && ParseU64(Trim(Decimal(n))) == Some(n)
  {
    DecimalIsLineValue(n);
    DecimalRoundTrip(n);
    hide Decimal, ValidUtf8, ParseU64, Trim;
  }

  /** `retry: n` followed by `retry: x` loses the number. */
  lemma RetryErased(n: U64)
    ensures var lines := [FieldLine(RETRY, Decimal(n)), FieldLine(RETRY, [120])];
            LastGood(Values(lines, Retry)) == Some(n) && RetryOf(lines) == None
  {
    hide Values, Kept, LastGood, FieldLine, RETRY, Good, Malformed, LineValue, ParseU64, Trim, Decimal, RetryOf;
    DecimalIsGood(n);
    LetterIsMalformed();
    TwoRetries(Decimal(n), [120]);
    TwoValues(Decimal(n), [120]);
    KeptMeansRetry([FieldLine(RETRY, Decimal(n)), FieldLine(RETRY, [120])]);
  }

  lemma KeptMeansRetry(lines: seq<Bytes>)
    ensures RetryOf(lines) == Kept(Values(lines, Retry))
  {
  }

  lemma TwoRetries(a: Bytes, b: Bytes)
    requires LineValue(a) && LineValue(b)
    ensures Values([FieldLine(RETRY, a), FieldLine(RETRY, b)], Retry) == [a, b]
  {
    hide ValidUtf8, KindOf, FieldLine, FieldOf;
    var first, second := FieldLine(RETRY, a), FieldLine(RETRY, b);
    Names();
    ReadField(RETRY, a);
    ReadField(RETRY, b);
    ValuesOne(first, Retry);
    ValuesSnoc([first], second, Retry);
    assert [first] + [second] == [first, second] && [a] + [b] == [a, b];
  }

  lemma LetterIsMalformed()
    ensures Malformed([120]) && LineValue([120])
  {
    var letter: Bytes := [120];
    ValidAscii(letter);
    assert LineValue(letter);
    hide ValidUtf8;
    assert SpaceLength(letter) == 0 && letter[0..] == letter;
    assert Trim(letter) == letter;
  }
}
