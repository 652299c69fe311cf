/** Byte-level text: UTF-8 validity, decimal numbers and whitespace, as the Rust standard library defines them. */
module Text {
  import opened Common

  type Byte = b: int | 0 <= b < 256
  type Bytes = seq<Byte>

  const LF: Byte := 10
  const CR: Byte := 13
  const SPACE: Byte := 32
  const COLON: Byte := 58

  /** `memchr`: the first position of `b` in `s`. */
  function Find(b: Byte, s: Bytes): (r: Option<nat>)
    ensures r.None? ==> b !in s
    ensures r.Some? ==> r.value < |s| && s[r.value] == b && b !in s[..r.value]
  {
    if s == [] then None
    else if s[0] == b then Some(0)
    else
      match Find(b, s[1..])
      case None => None
      case Some(n) =>
        assert s[..n + 1] == [s[0]] + s[1..][..n];
        Some(n + 1)
  }

  /** The first position is determined by what stands before it. */
  lemma FindAt(b: Byte, before: Bytes, after: Bytes)
    requires b !in before
    ensures Find(b, before + [b] + after) == Some(|before|)
  {
    var s := before + [b] + after;
    assert s[|before|] == b;
    assert forall i :: 0 <= i < |before| ==> s[i] == before[i];
    assert Find(b, s).Some?;
  }

  /** The bytes of an ASCII text. */
  function Ascii(s: string): (b: Bytes)
    requires forall i :: 0 <= i < |s| ==> s[i] < 128 as char
    ensures |b| == |s| && forall i :: 0 <= i < |s| ==> b[i] == s[i] as int
  {
    seq(|s|, i requires 0 <= i < |s| => s[i] as int)
  }

  // ---------------------------------------------------------------- UTF-8

  predicate Continuation(b: Byte) { 0x80 <= b <= 0xBF }

  /** Length of the well-formed code point that starts `s` (RFC 3629, section 4); 0 when there is none. */
  function CharLength(s: Bytes): (n: nat)
    ensures n <= |s| && n <= 4
  {
    if s == [] then 0
    else if s[0] <= 0x7F then 1
    else if 0xC2 <= s[0] <= 0xDF && |s| >= 2 && Continuation(s[1]) then 2
    else if |s| >= 3 && Continuation(s[1]) && Continuation(s[2]) && 0xE0 <= s[0] <= 0xEF
            && (s[0] == 0xE0 ==> 0xA0 <= s[1]) && (s[0] == 0xED ==> s[1] <= 0x9F) then 3
    else if |s| >= 4 && Continuation(s[1]) && Continuation(s[2]) && Continuation(s[3]) && 0xF0 <= s[0] <= 0xF4
            && (s[0] == 0xF0 ==> 0x90 <= s[1]) && (s[0] == 0xF4 ==> s[1] <= 0x8F) then 4
    else 0
  }

  /** `std::str::from_utf8` succeeds. */
  predicate ValidUtf8(s: Bytes)
    decreases |s|
  {
    s == [] || (CharLength(s) != 0 && ValidUtf8(s[CharLength(s)..]))
  }

  lemma {:induction false} ValidConcat(a: Bytes, b: Bytes)
    requires ValidUtf8(a) && ValidUtf8(b)
    ensures ValidUtf8(a + b)
    decreases |a|
  {
    if a == [] {
      assert a + b == b;
    } else {
      var n := CharLength(a);
      assert (a + b)[n..] == a[n..] + b;
      ValidConcat(a[n..], b);
    }
  }

  lemma {:induction false} ValidAscii(a: Bytes)
    requires forall i :: 0 <= i < |a| ==> a[i] <= 0x7F
    ensures ValidUtf8(a)
    decreases |a|
  {
    if a != [] { ValidAscii(a[1..]); }
  }

  /** A line feed never stands inside a code point, so a valid text may be cut there. */
  lemma {:induction false} ValidSplitAtLf(a: Bytes, b: Bytes)
    requires ValidUtf8(a + [LF] + b)
    ensures ValidUtf8(a) && ValidUtf8(b)
    decreases |a|
  {
    var s := a + [LF] + b;
    if a == [] {
      assert s[1..] == b;
    } else {
      var n := CharLength(s);
      assert s[|a|] == LF && !Continuation(s[|a|]);
      assert n <= |a|;
      assert CharLength(a) == n;
      assert s[n..] == a[n..] + [LF] + b;
      ValidSplitAtLf(a[n..], b);
    }
  }

  // ------------------------------------------------------------- decimals

  predicate Digit(b: Byte) { 48 <= b <= 57 }

  predicate AllDigits(s: Bytes) { forall i :: 0 <= i < |s| ==> Digit(s[i]) }

  /** Decimal digits of `n`, without leading zeros: what `format!("{}", n)` writes. */
  function Decimal(n: nat): (s: Bytes)
    ensures s != [] && AllDigits(s)
  {
    if n < 10 then [48 + n] else Decimal(n / 10) + [48 + n % 10]
  }

  function DigitsValue(s: Bytes): nat
    requires AllDigits(s)
  {
    if s == [] then 0 else 10 * DigitsValue(s[..|s| - 1]) + (s[|s| - 1] - 48)
  }

  lemma {:induction false} DecimalValue(n: nat)
    ensures DigitsValue(Decimal(n)) == n
  {
    if n < 10 {
      assert Decimal(n)[..0] == [];
    } else {
      DecimalValue(n / 10);
      assert Decimal(n)[..|Decimal(n)| - 1] == Decimal(n / 10);
    }
  }

  /** `str::parse::<u64>().ok()`: an optional plus sign, at least one digit, no overflow. */
  function ParseU64(s: Bytes): Option<nat> {
    var digits := if s != [] && s[0] == 43 then s[1..] else s;
    if digits == [] || !AllDigits(digits) || DigitsValue(digits) > U64_MAX then None
    else Some(DigitsValue(digits))
  }

  /** Length of the white-space code point (Unicode White_Space) that starts `s`; 0 when there is none. */
  function SpaceLength(s: Bytes): (n: nat)
    ensures n <= |s|
  {
    if s == [] then 0
    else if 9 <= s[0] <= 13 || s[0] == 32 then 1
    else if |s| >= 2 && s[0] == 0xC2 && (s[1] == 0x85 || s[1] == 0xA0) then 2
    else if |s| >= 3
        && (s[..3] == [0xE1, 0x9A, 0x80] || s[..3] == [0xE2, 0x81, 0x9F] || s[..3] == [0xE3, 0x80, 0x80]) then 3
    else if |s| >= 3 && s[0] == 0xE2 && s[1] == 0x80
            && (0x80 <= s[2] <= 0x8A || s[2] == 0xA8 || s[2] == 0xA9 || s[2] == 0xAF) then 3
    else 0
  }

  function TrimStart(s: Bytes): Bytes
    decreases |s|
  {
    if SpaceLength(s) == 0 then s else TrimStart(s[SpaceLength(s)..])
  }

  /** The last `n` bytes of `s` are one white-space code point. */
  predicate EndsInSpace(s: Bytes, n: nat) { n <= |s| && SpaceLength(s[|s| - n..]) == n }

  /** Length of the white-space code point that ends `s`; 0 when there is none. */
  function SpaceLengthAtEnd(s: Bytes): (n: nat)
    ensures n <= |s|
  {
    if EndsInSpace(s, 1) then 1 else if EndsInSpace(s, 2) then 2 else if EndsInSpace(s, 3) then 3 else 0
  }

  function TrimEnd(s: Bytes): Bytes
    decreases |s|
  {
    if SpaceLengthAtEnd(s) == 0 then s else TrimEnd(s[..|s| - SpaceLengthAtEnd(s)])
  }

  /** `str::trim`. */
  function Trim(s: Bytes): Bytes { TrimEnd(TrimStart(s)) }

  lemma DigitIsNoSpace(s: Bytes)
    requires s != [] && Digit(s[0])
    ensures SpaceLength(s) == 0
  {
  }

  lemma DigitsEndInNoSpace(s: Bytes, n: nat)
    requires AllDigits(s) && n > 0
    ensures !EndsInSpace(s, n)
  {
    hide SpaceLength;
    if n <= |s| {
      assert s[|s| - n..][0] == s[|s| - n];
      DigitIsNoSpace(s[|s| - n..]);
    }
  }

  lemma TrimDigits(s: Bytes)
    requires s != [] && AllDigits(s)
    ensures Trim(s) == s
  {
    hide SpaceLength, EndsInSpace;
    DigitIsNoSpace(s);
    DigitsEndInNoSpace(s, 1);
    DigitsEndInNoSpace(s, 2);
    DigitsEndInNoSpace(s, 3);
  }

  /** Writing a `u64` in decimal and parsing it, trimmed, gives the number back. */
  lemma DecimalRoundTrip(n: nat)
    requires n <= U64_MAX
    ensures ParseU64(Trim(Decimal(n))) == Some(n)
  {
    TrimDigits(Decimal(n));
    DecimalValue(n);
    assert Digit(Decimal(n)[0]);
  }
}
