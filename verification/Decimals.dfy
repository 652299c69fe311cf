/** Decimal numbers: which digits are written, and exactly which texts are read. */
module Decimals {
  import opened Common
  import opened Text

  // ------------------------------------------------------------ written

  function Pow10(k: nat): nat { if k == 0 then 1 else 10 * Pow10(k - 1) }

  /** The digits of a number, from the last one on: each is the remainder by ten of the number without its last `k`. */
  lemma {:induction false} DigitAt(n: nat, k: nat)
    requires k < |Decimal(n)|
    ensures Pow10(k) > 0 && Decimal(n)[|Decimal(n)| - 1 - k] == '0' as int + n / Pow10(k) % 10
  {
    if k > 0 {
      DigitAt(n / 10, k - 1);
      DivDiv(n, Pow10(k - 1));
    }
  }

  lemma Quotient(x: nat, d: nat, q: nat, r: nat)
    requires r < d && x == d * q + r
    ensures x / d == q
  {
    var p := x / d;
    assert x == d * p + x % d;
    assert d * (q - p) == x % d - r;
    if q > p { AtLeast(d, q - p); }
    if p > q { AtLeast(d, p - q); }
  }

  lemma AtLeast(d: nat, k: nat)
    requires k > 0
    ensures d * k >= d
  {
    assert d * k == d + d * (k - 1);
  }

  lemma DivDiv(n: nat, p: nat)
    requires p > 0
    ensures n / (10 * p) == n / 10 / p
  {
    var t := n / 10;
    var q, r := t / p, t % p;
    assert t == p * q + r;
    assert n == 10 * t + n % 10;
    Spread(p, q, r);
    Quotient(n, 10 * p, q, 10 * r + n % 10);
  }

  lemma Spread(p: nat, q: nat, r: nat)
    ensures 10 * (p * q + r) == (10 * p) * q + 10 * r
  {
  }

  // --------------------------------------------------------------- read

  function Zeros(n: nat): (s: Bytes)
    ensures |s| == n && forall i :: 0 <= i < n ==> s[i] == '0' as int
  {
    seq(n, i => '0' as int)
  }

  lemma {:induction false} ZerosWorthNothing(n: nat)
    ensures DigitsValue(Zeros(n)) == 0
  {
    if n > 0 {
      assert Zeros(n)[..n - 1] == Zeros(n - 1);
      ZerosWorthNothing(n - 1);
    }
  }

  /** One digit more at the end: a leading zero stays one, and any other number grows by a digit. */
  lemma DigitAppended(z: nat, n: nat, d: Byte)
    requires Digit(d)
    ensures n > 0 ==> Zeros(z) + Decimal(n) + [d] == Zeros(z) + Decimal(10 * n + (d - 48))
    ensures n == 0 ==> Zeros(z) + Decimal(n) + [d] == Zeros(z + 1) + Decimal(d - 48)
  {
    var m := 10 * n + (d - 48);
    assert m / 10 == n && m % 10 == d - 48;
    if n > 0 {
      Assoc(Zeros(z), Decimal(n), [d]);
    } else {
      assert Zeros(z + 1) == Zeros(z) + [48];
    }
  }

  /** Digits are zeros followed by the number they stand for. */
  lemma {:induction false} DigitsAre(s: Bytes) returns (z: nat)
    requires s != [] && AllDigits(s)
    ensures s == Zeros(z) + Decimal(DigitsValue(s))
  {
    var front, d := s[..|s| - 1], s[|s| - 1];
    assert s == front + [d];
    if front == [] {
      z := 0;
    } else {
      var y := DigitsAre(front);
      var n := DigitsValue(front);
      DigitAppended(y, n, d);
      hide Decimal, DigitsValue;
      z := if n > 0 then y else y + 1;
    }
  }

  lemma {:induction false} LeadingZeros(z: nat, s: Bytes)
    requires AllDigits(s)
    ensures AllDigits(Zeros(z) + s) && DigitsValue(Zeros(z) + s) == DigitsValue(s)
  {
    if s == [] {
      ZerosWorthNothing(z);
      assert Zeros(z) + s == Zeros(z);
    } else {
      var front := s[..|s| - 1];
      LeadingZeros(z, front);
      assert (Zeros(z) + s)[..z + |s| - 1] == Zeros(z) + front;
    }
  }

  /** Texts that stand for `n`: an optional plus sign, any number of zeros, and the number itself. */
  ghost predicate Spells(s: Bytes, n: nat) {
    exists z: nat :: s == Zeros(z) + Decimal(n) || s == Ascii("+") + (Zeros(z) + Decimal(n))
  }

  /** A text is read as `n` if and only if it spells it and it is a `u64`: no sign but plus, no space, no overflow. */
  lemma ParsesIff(s: Bytes, n: nat)
    ensures ParseU64(s) == Some(n) <==> n <= 0xFFFF_FFFF_FFFF_FFFF && Spells(s, n)
  {
    assert Ascii("+") == [43];
    if ParseU64(s) == Some(n) {
      var digits := if s != [] && s[0] == 43 then s[1..] else s;
      var z := DigitsAre(digits);
      assert s == digits || s == [43] + digits;
    }
    if z: nat :| s == Zeros(z) + Decimal(n) || s == Ascii("+") + (Zeros(z) + Decimal(n)) {
      LeadingZeros(z, Decimal(n));
      DecimalValue(n);
      var digits := Zeros(z) + Decimal(n);
      assert Digit(digits[0]);
      assert ([43] + digits)[1..] == digits;
    }
  }
}
