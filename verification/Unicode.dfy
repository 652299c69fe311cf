/** The byte-level definitions of `Text` against the code points they stand for. */
module Unicode {
  import opened Common
  import opened Text

  // ------------------------------------------------------------- encoding

  /** A Unicode scalar value. */
  predicate Scalar(c: nat) { c < 0xD800 || 0xE000 <= c < 0x11_0000 }

  /** The bytes of a code point (RFC 3629, section 3). */
  function Encode(c: nat): (s: Bytes)
    requires Scalar(c)
    ensures 1 <= |s| <= 4
  {
    if c < 0x80 then [c]
    else if c < 0x800 then [0xC0 + c / 64, 0x80 + c % 64]
    else if c < 0x1_0000 then [0xE0 + c / 4096, 0x80 + c / 64 % 64, 0x80 + c % 64]
    else [0xF0 + c / 262144, 0x80 + c / 4096 % 64, 0x80 + c / 64 % 64, 0x80 + c % 64]
  }

  predicate Scalars(cs: seq<nat>) { forall i :: 0 <= i < |cs| ==> Scalar(cs[i]) }

  function EncodeAll(cs: seq<nat>): Bytes
    requires Scalars(cs)
  {
    if cs == [] then [] else Encode(cs[0]) + EncodeAll(cs[1..])
  }

  /** The payload of a byte above the marker in its upper bits. */
  function Payload(b: Byte, marker: nat): nat
    requires marker <= b
  {
    b - marker
  }

  /** The code point whose encoding starts `s`. */
  function CharAt(s: Bytes): nat
    requires CharLength(s) != 0
  {
    var n := CharLength(s);
    if n == 1 then s[0]
    else if n == 2 then Payload(s[0], 0xC0) * 64 + Payload(s[1], 0x80)
    else if n == 3 then Payload(s[0], 0xE0) * 4096 + Payload(s[1], 0x80) * 64 + Payload(s[2], 0x80)
    else Payload(s[0], 0xF0) * 262144 + Payload(s[1], 0x80) * 4096 + Payload(s[2], 0x80) * 64 + Payload(s[3], 0x80)
  }

  lemma ThreeDigits(c: nat)
    requires c < 0x1_0000
    ensures c == c / 4096 * 4096 + c / 64 % 64 * 64 + c % 64 && c / 4096 < 16
  {
    assert c / 64 == c / 64 / 64 * 64 + c / 64 % 64;
    assert c / 64 / 64 == c / 4096;
  }

  lemma FourDigits(c: nat)
    requires c < 0x11_0000
    ensures c == c / 262144 * 262144 + c / 4096 % 64 * 4096 + c / 64 % 64 * 64 + c % 64 && c / 262144 < 5
  {
    assert c / 64 == c / 64 / 64 * 64 + c / 64 % 64;
    assert c / 64 / 64 == c / 4096;
    assert c / 4096 == c / 4096 / 64 * 64 + c / 4096 % 64;
    assert c / 4096 / 64 == c / 262144;
  }

  /** An encoded code point is recognised, whatever follows it. */
  lemma EncodedLength(c: nat, rest: Bytes)
    requires Scalar(c)
    ensures CharLength(Encode(c) + rest) == |Encode(c)|
  {
    if 0x800 <= c < 0x1_0000 { ThreeDigits(c); }
    if 0x1_0000 <= c { FourDigits(c); }
  }

  lemma DigitsOf3(a: nat, b: nat, d: nat)
    requires b < 64 && d < 64
    ensures var c := a * 4096 + b * 64 + d; c / 4096 == a && c / 64 % 64 == b && c % 64 == d
  {
    var c := a * 4096 + b * 64 + d;
    assert c / 64 == a * 64 + b;
  }

  lemma DigitsOf4(a: nat, b: nat, d: nat, e: nat)
    requires b < 64 && d < 64 && e < 64
    ensures var c := a * 262144 + b * 4096 + d * 64 + e;
            c / 262144 == a && c / 4096 % 64 == b && c / 64 % 64 == d && c % 64 == e
  {
    var c := a * 262144 + b * 4096 + d * 64 + e;
    assert c / 64 == a * 4096 + b * 64 + d;
    DigitsOf3(a, b, d);
    assert c / 4096 == a * 64 + b;
  }

  lemma RecognisedShort(s: Bytes)
    requires CharLength(s) == 1 || CharLength(s) == 2
    ensures Scalar(CharAt(s)) && Encode(CharAt(s)) == s[..CharLength(s)]
  {
  }

  lemma Recognised3(s: Bytes)
    requires CharLength(s) == 3
    ensures Scalar(CharAt(s)) && Encode(CharAt(s)) == s[..3]
  {
    DigitsOf3(s[0] - 0xE0, s[1] - 0x80, s[2] - 0x80);
    assert s[..3] == [s[0], s[1], s[2]];
  }

  lemma Recognised4(s: Bytes)
    requires CharLength(s) == 4
    ensures Scalar(CharAt(s)) && Encode(CharAt(s)) == s[..4]
  {
    DigitsOf4(s[0] - 0xF0, s[1] - 0x80, s[2] - 0x80, s[3] - 0x80);
    assert s[..4] == [s[0], s[1], s[2], s[3]];
  }

  /** What is recognised is the encoding of a scalar value. */
  lemma RecognisedIsEncoded(s: Bytes)
    requires CharLength(s) != 0
    ensures Scalar(CharAt(s)) && Encode(CharAt(s)) == s[..CharLength(s)]
  {
    hide Scalar, Encode, CharAt;
    if CharLength(s) == 3 {
      Recognised3(s);
    } else if CharLength(s) == 4 {
      Recognised4(s);
    } else {
      RecognisedShort(s);
    }
  }

  lemma {:induction false} EncodedIsValid(cs: seq<nat>)
    requires Scalars(cs)
    ensures ValidUtf8(EncodeAll(cs))
  {
    if cs != [] {
      var rest := EncodeAll(cs[1..]);
      EncodedLength(cs[0], rest);
      EncodedIsValid(cs[1..]);
      hide CharLength, Encode;
      assert EncodeAll(cs)[|Encode(cs[0])|..] == rest;
    }
  }

  lemma TakeChar(s: Bytes) returns (c: nat, rest: Bytes)
    requires ValidUtf8(s) && s != []
    ensures Scalar(c) && s == Encode(c) + rest && ValidUtf8(rest) && |rest| < |s|
  {
    RecognisedIsEncoded(s);
    c, rest := CharAt(s), s[CharLength(s)..];
    hide Encode, CharAt, Scalar;
  }

  lemma JoinChar(c: nat, cs: seq<nat>)
    requires Scalar(c) && Scalars(cs)
    ensures Scalars([c] + cs) && EncodeAll([c] + cs) == Encode(c) + EncodeAll(cs)
  {
    hide Encode;
    assert ([c] + cs)[1..] == cs;
  }

  lemma {:induction false} ValidIsEncoded(s: Bytes) returns (cs: seq<nat>)
    requires ValidUtf8(s)
    ensures Scalars(cs) && EncodeAll(cs) == s
    decreases |s|
  {
    hide Encode, Scalar;
    if s == [] {
      cs := [];
    } else {
      var c, rest := TakeChar(s);
      hide ValidUtf8;
      var more := ValidIsEncoded(rest);
      JoinChar(c, more);
      cs := [c] + more;
    }
  }

  /** A byte sequence is valid UTF-8 if and only if it is the encoding of some scalar values. */
  lemma ValidIffEncoded(s: Bytes)
    ensures ValidUtf8(s) <==> exists cs: seq<nat> :: Scalars(cs) && EncodeAll(cs) == s
  {
    if ValidUtf8(s) { var cs := ValidIsEncoded(s); }
    if cs: seq<nat> :| Scalars(cs) && EncodeAll(cs) == s { EncodedIsValid(cs); }
  }

  lemma {:induction false} EncodeAllAppend(a: seq<nat>, b: seq<nat>)
    requires Scalars(a) && Scalars(b)
    ensures Scalars(a + b) && EncodeAll(a + b) == EncodeAll(a) + EncodeAll(b)
  {
    hide Encode;
    if a == [] {
      assert a + b == b;
    } else {
      assert (a + b)[1..] == a[1..] + b;
      EncodeAllAppend(a[1..], b);
    }
  }

  // ----------------------------------------------------------- white space

  /** The Unicode White_Space property. */
  predicate WhiteSpace(c: nat) {
    9 <= c <= 13 || c == 0x20 || c == 0x85 || c == 0xA0 || c == 0x1680 || 0x2000 <= c <= 0x200A || c == 0x2028
    || c == 0x2029 || c == 0x202F || c == 0x205F || c == 0x3000
  }

  predicate AllWhite(cs: seq<nat>) { forall i :: 0 <= i < |cs| ==> WhiteSpace(cs[i]) }

  lemma FirstThree(s: Bytes, x: Byte, y: Byte, z: Byte)
    requires |s| >= 3
    ensures s[..3] == [x, y, z] <==> s[0] == x && s[1] == y && s[2] == z
  {
    assert s[..3] == [s[0], s[1], s[2]];
  }

  /** White space is recognised at the front of a text, and nothing else is. */
  lemma SpaceInFront(c: nat, rest: Bytes)
    requires Scalar(c)
    ensures SpaceLength(Encode(c) + rest) == if WhiteSpace(c) then |Encode(c)| else 0
  {
    var s := Encode(c) + rest;
    if |s| >= 3 {
      FirstThree(s, 0xE1, 0x9A, 0x80);
      FirstThree(s, 0xE2, 0x81, 0x9F);
      FirstThree(s, 0xE3, 0x80, 0x80);
    }
    if 0x800 <= c < 0x1_0000 { ThreeDigits(c); }
    if 0x1_0000 <= c { FourDigits(c); }
  }

  lemma SpaceAtEnd1(s: Bytes, b: Byte)
    requires s != [] && s[|s| - 1] == b
    ensures EndsInSpace(s, 1) <==> 9 <= b <= 13 || b == 32
  {
    assert s[|s| - 1..] == [b];
  }

  lemma SpaceAtEnd2(s: Bytes, a: Byte, b: Byte)
    requires |s| >= 2 && s[|s| - 2] == a && s[|s| - 1] == b
    ensures EndsInSpace(s, 2) <==> a == 0xC2 && (b == 0x85 || b == 0xA0)
  {
    assert s[|s| - 2..] == [a, b];
  }

  /** A white-space code point of three bytes. */
  predicate Space3(a: Byte, b: Byte, c: Byte) {
    || (a == 0xE1 && b == 0x9A && c == 0x80) || (a == 0xE2 && b == 0x81 && c == 0x9F)
    || (a == 0xE3 && b == 0x80 && c == 0x80)
    || (a == 0xE2 && b == 0x80 && (0x80 <= c <= 0x8A || c == 0xA8 || c == 0xA9 || c == 0xAF))
  }

  lemma SpaceAtEnd3(s: Bytes, a: Byte, b: Byte, c: Byte)
    requires |s| >= 3 && s[|s| - 3] == a && s[|s| - 2] == b && s[|s| - 1] == c
    ensures EndsInSpace(s, 3) <==> Space3(a, b, c)
  {
    var t: Bytes := [a, b, c];
    assert s[|s| - 3..] == t;
    FirstThree(t, 0xE1, 0x9A, 0x80);
    FirstThree(t, 0xE2, 0x81, 0x9F);
    FirstThree(t, 0xE3, 0x80, 0x80);
  }

  lemma LastByte(before: Bytes, e: Bytes, k: nat)
    requires 1 <= k <= |e|
    ensures (before + e)[|before| + |e| - k] == e[|e| - k]
  {
  }

  lemma Behind1(before: Bytes, e: Bytes)
    requires |e| == 1 && e[0] < 0x80
    ensures SpaceLengthAtEnd(before + e) == if 9 <= e[0] <= 13 || e[0] == 32 then 1 else 0
  {
    var s := before + e;
    LastByte(before, e, 1);
    SpaceAtEnd1(s, e[0]);
    if |s| >= 2 { SpaceAtEnd2(s, s[|s| - 2], e[0]); }
    if |s| >= 3 { SpaceAtEnd3(s, s[|s| - 3], s[|s| - 2], e[0]); }
    hide SpaceLength;
  }

  lemma Behind2(before: Bytes, e: Bytes)
    requires |e| == 2 && e[0] >= 0xC0 && 0x80 <= e[1] < 0xC0
    ensures SpaceLengthAtEnd(before + e) == if e[0] == 0xC2 && (e[1] == 0x85 || e[1] == 0xA0) then 2 else 0
  {
    var s := before + e;
    LastByte(before, e, 1);
    LastByte(before, e, 2);
    SpaceAtEnd1(s, e[1]);
    SpaceAtEnd2(s, e[0], e[1]);
    if |s| >= 3 { SpaceAtEnd3(s, s[|s| - 3], e[0], e[1]); }
    hide SpaceLength;
  }

  lemma Behind3(before: Bytes, e: Bytes)
    requires 3 <= |e| <= 4 && forall i :: 1 <= i < |e| ==> 0x80 <= e[i] < 0xC0
    ensures SpaceLengthAtEnd(before + e) == if Space3(e[|e| - 3], e[|e| - 2], e[|e| - 1]) then 3 else 0
  {
    var s := before + e;
    LastByte(before, e, 1);
    LastByte(before, e, 2);
    LastByte(before, e, 3);
    SpaceAtEnd1(s, e[|e| - 1]);
    SpaceAtEnd2(s, e[|e| - 2], e[|e| - 1]);
    SpaceAtEnd3(s, e[|e| - 3], e[|e| - 2], e[|e| - 1]);
    hide SpaceLength;
  }

  /** White space is recognised at the end of a text, and nothing else is, whatever stands before it. */
  lemma SpaceBehind(before: Bytes, c: nat)
    requires Scalar(c)
    ensures SpaceLengthAtEnd(before + Encode(c)) == if WhiteSpace(c) then |Encode(c)| else 0
  {
    var e := Encode(c);
    EncodedShape(c);
    hide Encode, SpaceLengthAtEnd;
    if |e| == 1 {
      Behind1(before, e);
    } else if |e| == 2 {
      Behind2(before, e);
    } else {
      Behind3(before, e);
    }
  }

  /** The bytes of a code point, and which of them are white space. */
  lemma EncodedShape(c: nat)
    requires Scalar(c)
    ensures var e := Encode(c);
            && (|e| == 1 ==> e[0] == c < 0x80 && (WhiteSpace(c) <==> 9 <= c <= 13 || c == 32))
            && (|e| >= 2 ==> e[0] >= 0xC0 && forall i :: 1 <= i < |e| ==> 0x80 <= e[i] < 0xC0)
            && (|e| == 2 ==> (WhiteSpace(c) <==> e[0] == 0xC2 && (e[1] == 0x85 || e[1] == 0xA0)))
            && (|e| == 3 ==> (WhiteSpace(c) <==> Space3(e[0], e[1], e[2])))
            && (|e| == 4 ==> !WhiteSpace(c))
  {
    if 0x800 <= c < 0x1_0000 { ThreeDigits(c); }
    if 0x1_0000 <= c { FourDigits(c); }
  }

  // -------------------------------------------------------------- trimming

  lemma {:induction false} WhiteFrontDropped(ws: seq<nat>, rest: Bytes)
    requires Scalars(ws) && AllWhite(ws)
    ensures TrimStart(EncodeAll(ws) + rest) == TrimStart(rest)
  {
    hide Encode, SpaceLength, WhiteSpace;
    if ws == [] {
      assert EncodeAll(ws) + rest == rest;
    } else {
      var e, more := Encode(ws[0]), EncodeAll(ws[1..]) + rest;
      SpaceInFront(ws[0], more);
      WhiteFrontDropped(ws[1..], rest);
      assert EncodeAll(ws) + rest == e + more;
      assert (e + more)[|e|..] == more;
    }
  }

  lemma {:induction false} WhiteEndDropped(before: Bytes, ws: seq<nat>)
    requires Scalars(ws) && AllWhite(ws)
    ensures TrimEnd(before + EncodeAll(ws)) == TrimEnd(before)
    decreases |ws|
  {
    hide Encode, SpaceLengthAtEnd, WhiteSpace, EncodeAll;
    if ws == [] {
      NothingEncoded();
      assert before + EncodeAll(ws) == before;
    } else {
      var front, last := ws[..|ws| - 1], ws[|ws| - 1];
      OneEncoded(last);
      EncodeAllAppend(front, [last]);
      assert ws == front + [last];
      var rest := before + EncodeAll(front);
      SpaceBehind(rest, last);
      assert before + EncodeAll(ws) == rest + Encode(last);
      assert (rest + Encode(last))[..|rest|] == rest;
      WhiteEndDropped(before, front);
    }
  }

  lemma NothingEncoded()
    ensures EncodeAll([]) == []
  {
  }

  lemma OneEncoded(c: nat)
    requires Scalar(c)
    ensures Scalars([c]) && EncodeAll([c]) == Encode(c)
  {
    hide Encode;
    assert [c][1..] == [];
    assert Encode(c) + [] == Encode(c);
  }

  /** A text that starts and ends in something else than white space. */
  predicate Solid(cs: seq<nat>) { cs != [] && !WhiteSpace(cs[0]) && !WhiteSpace(cs[|cs| - 1]) }

  lemma SolidStays(cs: seq<nat>, after: Bytes)
    requires Scalars(cs) && Solid(cs)
    ensures TrimStart(EncodeAll(cs) + after) == EncodeAll(cs) + after && TrimEnd(EncodeAll(cs)) == EncodeAll(cs)
  {
    hide Encode, SpaceLength, SpaceLengthAtEnd, WhiteSpace;
    var more := EncodeAll(cs[1..]) + after;
    SpaceInFront(cs[0], more);
    assert EncodeAll(cs) + after == Encode(cs[0]) + more;
    var front, last := cs[..|cs| - 1], cs[|cs| - 1];
    OneEncoded(last);
    EncodeAllAppend(front, [last]);
    assert cs == front + [last];
    SpaceBehind(EncodeAll(front), last);
  }

  /** Trimming takes white space off both ends and leaves the rest. */
  lemma TrimTakesWhiteSpace(left: seq<nat>, middle: seq<nat>, right: seq<nat>)
    requires Scalars(left) && Scalars(middle) && Scalars(right)
    requires AllWhite(left) && AllWhite(right) && Solid(middle)
    ensures Trim(EncodeAll(left) + EncodeAll(middle) + EncodeAll(right)) == EncodeAll(middle)
  {
    var m, r := EncodeAll(middle), EncodeAll(right);
    WhiteFrontDropped(left, m + r);
    SolidStays(middle, r);
    WhiteEndDropped(m, right);
    Assoc(EncodeAll(left), m, r);
    hide TrimStart, TrimEnd, EncodeAll;
  }

  lemma TrimOfWhite(ws: seq<nat>)
    requires Scalars(ws) && AllWhite(ws)
    ensures Trim(EncodeAll(ws)) == [] && TrimStart(EncodeAll(ws)) == []
  {
    WhiteFrontDropped(ws, []);
    assert EncodeAll(ws) + [] == EncodeAll(ws);
  }

  lemma {:induction false} LeadingWhite(cs: seq<nat>) returns (n: nat)
    ensures n <= |cs| && AllWhite(cs[..n]) && (n < |cs| ==> !WhiteSpace(cs[n]))
  {
    n := 0;
    while n < |cs| && WhiteSpace(cs[n])
      invariant n <= |cs| && AllWhite(cs[..n])
    {
      n := n + 1;
    }
  }

  lemma {:induction false} TrailingWhite(cs: seq<nat>) returns (n: nat)
    ensures n <= |cs| && AllWhite(cs[n..]) && (n > 0 ==> !WhiteSpace(cs[n - 1]))
  {
    n := |cs|;
    while n > 0 && WhiteSpace(cs[n - 1])
      invariant n <= |cs| && AllWhite(cs[n..])
    {
      n := n - 1;
      assert cs[n..] == [cs[n]] + cs[n + 1..];
    }
  }

  lemma WhiteOnBothSides(cs: seq<nat>, a: nat, b: nat)
    requires b <= a <= |cs| && AllWhite(cs[..a]) && AllWhite(cs[b..])
    ensures AllWhite(cs)
  {
    hide WhiteSpace;
    forall i | 0 <= i < |cs| ensures WhiteSpace(cs[i]) {
      if i < a { assert cs[..a][i] == cs[i]; } else { assert cs[b..][i - b] == cs[i]; }
    }
  }

  /** Nothing is left exactly when everything was white space. */
  lemma BlankIffWhite(cs: seq<nat>)
    requires Scalars(cs)
    ensures Trim(EncodeAll(cs)) == [] <==> AllWhite(cs)
  {
    hide WhiteSpace, Trim, Encode;
    if AllWhite(cs) {
      TrimOfWhite(cs);
    } else {
      var a := LeadingWhite(cs);
      var b := TrailingWhite(cs);
      if b <= a { WhiteOnBothSides(cs, a, b); }
      var left, middle, right := cs[..a], cs[a..b], cs[b..];
      assert cs == left + middle + right;
      EncodeAllAppend(left, middle);
      EncodeAllAppend(left + middle, right);
      TrimTakesWhiteSpace(left, middle, right);
      assert EncodeAll(middle) != [];
    }
  }

  /** The first byte left by trimming the front is the first byte of the first code point that is not white space. */
  lemma FirstVisible(ws: seq<nat>, c: nat, rest: Bytes)
    requires Scalars(ws) && AllWhite(ws) && Scalar(c) && !WhiteSpace(c)
    ensures TrimStart(EncodeAll(ws) + (Encode(c) + rest)) == Encode(c) + rest
  {
    WhiteFrontDropped(ws, Encode(c) + rest);
    SpaceInFront(c, rest);
    hide Encode, SpaceLength, WhiteSpace, EncodeAll;
  }
}
