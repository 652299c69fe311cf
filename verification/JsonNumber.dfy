/** Numbers of a JSON value: integers of the two 64-bit kinds, and floats by their text. */
module JsonNumber {
  import opened Common
  import opened Text

  /** A float is its shortest text; integers are `u64` or `i64`. */
  datatype Number = Int(value: int) | Float(lexeme: Bytes)

  const I64_LIMIT: int := 0x8000_0000_0000_0000

  predicate NumberByte(b: Byte) { Digit(b) || b == 43 || b == 45 || b == 46 || b == 69 || b == 101 }

  // -------------------------------------------------------------- grammar

  function DigitRun(s: Bytes): (n: nat)
    ensures n <= |s| && AllDigits(s[..n])
  {
    if s == [] || !Digit(s[0]) then 0
    else
      assert s[..1 + DigitRun(s[1..])] == [s[0]] + s[1..][..DigitRun(s[1..])];
      1 + DigitRun(s[1..])
  }

  function Unsigned(s: Bytes): Bytes { if s != [] && s[0] == 45 then s[1..] else s }

  predicate Exponent(s: Bytes) {
    s == [] ||
    ((s[0] == 101 || s[0] == 69) &&
     var digits := if |s| > 1 && (s[1] == 43 || s[1] == 45) then s[2..] else s[1..];
     digits != [] && AllDigits(digits))
  }

  predicate Fraction(s: Bytes) {
    if s != [] && s[0] == 46 then DigitRun(s[1..]) > 0 && Exponent(s[1..][DigitRun(s[1..])..]) else Exponent(s)
  }

  /** A number (RFC 8259, section 6). */
  predicate Grammar(s: Bytes) {
    var u := Unsigned(s);
    var n := DigitRun(u);
    n > 0 && (n == 1 || u[0] != 48) && Fraction(u[n..])
  }

  /** It has neither a fraction nor an exponent. */
  predicate Integral(s: Bytes) { AllDigits(Unsigned(s)) }

  // ------------------------------------------------------ writing, reading

  function WriteNumber(n: Number): Bytes {
    match n
    case Int(v) => if v >= 0 then Decimal(v) else [45] + Decimal(-v)
    case Float(lexeme) => lexeme
  }

  /** Integral text in range is an integer, except minus zero; other numbers are floats. */
  function ReadNumber(s: Bytes): Option<Number> {
    if !Grammar(s) then None
    else if !Integral(s) then Some(Float(s))
    else
      var m: int := DigitsValue(Unsigned(s));
      if s[0] != 45 && m <= U64_MAX then Some(Int(m))
      else if s[0] == 45 && 0 < m <= I64_LIMIT then Some(Int(-m))
      else Some(Float(s))
  }

  /** A `u64`, a negative `i64`, or the text of a float, which always has a fraction or an exponent. */
  predicate WellFormedNumber(n: Number) {
    match n
    case Int(v) => -I64_LIMIT <= v <= U64_MAX
    case Float(lexeme) => Grammar(lexeme) && !Integral(lexeme)
  }

  // --------------------------------------------------------------- proofs

  lemma {:induction false} NoLeadingZero(n: nat)
    ensures Decimal(n)[0] == 48 ==> n == 0
    ensures n == 0 ==> |Decimal(n)| == 1
  {
    if n >= 10 {
      NoLeadingZero(n / 10);
      assert Decimal(n)[0] == Decimal(n / 10)[0];
    }
  }

  lemma {:induction false} AllDigitRun(s: Bytes)
    requires AllDigits(s)
    ensures DigitRun(s) == |s|
  {
    if s != [] { AllDigitRun(s[1..]); }
  }

  lemma DecimalGrammar(n: nat)
    ensures var s := Decimal(n);
            && Grammar(s) && Integral(s) && Unsigned(s) == s && s[0] != 45
            && (n > 0 ==> Grammar([45] + s) && Integral([45] + s) && Unsigned([45] + s) == s)
            && DigitsValue(s) == n
  {
    var s := Decimal(n);
    NoLeadingZero(n);
    AllDigitRun(s);
    DecimalValue(n);
    assert Digit(s[0]);
    hide Decimal, DigitsValue, DigitRun;
    assert ([45] + s)[1..] == s && s[|s|..] == [];
  }

  /** A written number is read back: integers with their value, floats with their text. */
  lemma ReadWrittenNumber(n: Number)
    requires WellFormedNumber(n)
    ensures ReadNumber(WriteNumber(n)) == Some(n)
  {
    hide Grammar, Integral, Decimal, DigitsValue;
    if n.Int? {
      DecimalGrammar(if n.value >= 0 then n.value else -n.value);
    }
  }

  lemma {:induction false} ExponentBytes(s: Bytes)
    requires Exponent(s)
    ensures forall i :: 0 <= i < |s| ==> NumberByte(s[i])
  {
    if s != [] {
      var skip := if |s| > 1 && (s[1] == 43 || s[1] == 45) then 2 else 1;
      forall i | skip <= i < |s| ensures NumberByte(s[i]) { assert s[i] == s[skip..][i - skip]; }
    }
  }

  lemma BytesOf(a: Bytes, b: Bytes, s: Bytes)
    requires s == a + b
    requires (forall i :: 0 <= i < |a| ==> NumberByte(a[i])) && forall i :: 0 <= i < |b| ==> NumberByte(b[i])
    ensures forall i :: 0 <= i < |s| ==> NumberByte(s[i])
  {
  }

  lemma FractionBytes(s: Bytes)
    requires Fraction(s)
    ensures forall i :: 0 <= i < |s| ==> NumberByte(s[i])
  {
    hide DigitRun, Exponent;
    if s != [] && s[0] == 46 {
      var n := DigitRun(s[1..]);
      ExponentBytes(s[1..][n..]);
      BytesOf(s[1..][..n], s[1..][n..], s[1..]);
      BytesOf([s[0]], s[1..], s);
    } else {
      ExponentBytes(s);
    }
  }

  /** A number starts with a digit or a minus sign and contains nothing but number bytes. */
  lemma GrammarBytes(s: Bytes)
    requires Grammar(s)
    ensures s != [] && (Digit(s[0]) || s[0] == 45) && forall i :: 0 <= i < |s| ==> NumberByte(s[i])
  {
    hide Fraction;
    var u := Unsigned(s);
    var n := DigitRun(u);
    FractionBytes(u[n..]);
    assert Digit(u[..n][0]);
    hide DigitRun;
    BytesOf(u[..n], u[n..], u);
    if u != s { BytesOf([s[0]], u, s); }
  }

  lemma WrittenShape(n: Number)
    requires WellFormedNumber(n)
    ensures var s := WriteNumber(n);
            s != [] && (Digit(s[0]) || s[0] == 45) && forall i :: 0 <= i < |s| ==> NumberByte(s[i])
  {
    hide Grammar, Integral, Decimal;
    if n.Int? {
      DecimalGrammar(if n.value >= 0 then n.value else -n.value);
    }
    GrammarBytes(WriteNumber(n));
  }
}
