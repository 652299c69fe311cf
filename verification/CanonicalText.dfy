/**
  The canonical text of `src/canonical.rs`: how it is written, how it is read back, and why it is canonical and
  injective.
*/
module CanonicalText {
  import opened Common
  import opened Text
  import opened JsonNumber
  import opened Canonical

  const QUOTE: Byte := 34
  const COMMA: Byte := 44
  const BACKSLASH: Byte := 92
  const OPEN_ARRAY: Byte := 91
  const CLOSE_ARRAY: Byte := 93
  const OPEN_OBJECT: Byte := 123
  const CLOSE_OBJECT: Byte := 125

  /** `null`, `true` and `false`. */
  function NullText(): Bytes { [110, 117, 108, 108] }
  function TrueText(): Bytes { [116, 114, 117, 101] }
  function FalseText(): Bytes { [102, 97, 108, 115, 101] }

  // -------------------------------------------------------------- strings

  function HexDigit(n: nat): Byte
    requires n < 16
  {
    if n < 10 then 48 + n else 87 + n
  }

  function HexValue(b: Byte): Option<nat> {
    if 48 <= b <= 57 then Some(b - 48)
    else if 97 <= b <= 102 then Some(b - 87)
    else if 65 <= b <= 70 then Some(b - 55)
    else None
  }

  /** A byte inside a JSON string (RFC 8259, section 7). */
  function EscapeByte(b: Byte): Bytes {
    if b == QUOTE || b == BACKSLASH then [BACKSLASH, b]
    else if b == 8 then [BACKSLASH, 98]
    else if b == 9 then [BACKSLASH, 116]
    else if b == 10 then [BACKSLASH, 110]
    else if b == 12 then [BACKSLASH, 102]
    else if b == 13 then [BACKSLASH, 114]
    else if b < 32 then [BACKSLASH, 117, 48, 48, HexDigit(b / 16), HexDigit(b % 16)]
    else [b]
  }

  function Escape(s: Bytes): Bytes {
    if s == [] then [] else EscapeByte(s[0]) + Escape(s[1..])
  }

  function Quoted(s: Bytes): Bytes { [QUOTE] + (Escape(s) + [QUOTE]) }

  /** The byte an escape or a plain byte stands for, and how many bytes it takes. */
  function UnescapeByte(s: Bytes): (r: Option<(Byte, nat)>)
    ensures r.Some? ==> 0 < r.value.1 <= |s|
  {
    if s == [] || s[0] < 32 || s[0] == QUOTE then None
    else if s[0] != BACKSLASH then Some((s[0], 1))
    else if |s| < 2 then None
    else if s[1] == QUOTE || s[1] == BACKSLASH || s[1] == 47 then Some((s[1], 2))
    else if s[1] == 98 then Some((8, 2))
    else if s[1] == 116 then Some((9, 2))
    else if s[1] == 110 then Some((10, 2))
    else if s[1] == 102 then Some((12, 2))
    else if s[1] == 114 then Some((13, 2))
    else if s[1] == 117 && |s| >= 6 && s[2] == 48 && s[3] == 48 && HexValue(s[4]).Some? && HexValue(s[5]).Some?
            && HexValue(s[4]).value < 8
    then Some((16 * HexValue(s[4]).value + HexValue(s[5]).value, 6))
    else None
  }

  /** The string up to its closing quote, and what follows the quote. */
  function Unescape(s: Bytes): (r: Option<(Bytes, Bytes)>)
    ensures r.Some? ==> |r.value.1| < |s|
    decreases |s|
  {
    if s != [] && s[0] == QUOTE then Some(([], s[1..]))
    else
      match UnescapeByte(s)
      case None => None
      case Some((b, n)) =>
        match Unescape(s[n..])
        case None => None
        case Some((more, rest)) => Some(([b] + more, rest))
  }

  lemma UnescapeEscapedByte(b: Byte, rest: Bytes)
    ensures UnescapeByte(EscapeByte(b) + rest) == Some((b, |EscapeByte(b)|))
    ensures EscapeByte(b)[0] != QUOTE
  {
  }

  lemma {:induction false} UnescapeEscaped(s: Bytes, rest: Bytes)
    ensures Unescape(Escape(s) + [QUOTE] + rest) == Some((s, rest))
  {
    if s == [] {
      assert Escape(s) + [QUOTE] + rest == [QUOTE] + rest;
    } else {
      var e, more := EscapeByte(s[0]), Escape(s[1..]) + [QUOTE] + rest;
      assert Escape(s) + [QUOTE] + rest == e + more;
      UnescapeEscapedByte(s[0], more);
      hide EscapeByte, UnescapeByte;
      UnescapeEscaped(s[1..], rest);
      assert (e + more)[|e|..] == more;
      assert (e + more)[0] == e[0];
      assert s == [s[0]] + s[1..];
    }
  }

  // -------------------------------------------------------------- writing

  /** The compact JSON text of a value, its entries in the order they stand in. */
  function Write(v: Value): Bytes
    decreases v, 0
  {
    match v
    case Null => NullText()
    case Bool(b) => if b then TrueText() else FalseText()
    case Num(n) => WriteNumber(n)
    case Str(s) => Quoted(s)
    case Arr(items) => [OPEN_ARRAY] + ((if items == [] then [] else WriteItems(items)) + [CLOSE_ARRAY])
    case Obj(es) => [OPEN_OBJECT] + ((if es == [] then [] else WriteEntries(es)) + [CLOSE_OBJECT])
  }

  function WriteItems(items: seq<Value>): Bytes
    requires items != []
    decreases items, 0
  {
    Write(items[0]) + WriteMoreItems(items[1..])
  }

  /** Elements after the first, each with the comma in front of it. */
  function WriteMoreItems(items: seq<Value>): Bytes
    decreases items, 1
  {
    if items == [] then [] else [COMMA] + WriteItems(items)
  }

  function WriteEntry(e: Entry): Bytes
    decreases e, 0
  {
    Quoted(e.key) + ([COLON] + Write(e.value))
  }

  function WriteEntries(es: seq<Entry>): Bytes
    requires es != []
    decreases es, 0
  {
    WriteEntry(es[0]) + WriteMoreEntries(es[1..])
  }

  function WriteMoreEntries(es: seq<Entry>): Bytes
    decreases es, 1
  {
    if es == [] then [] else [COMMA] + WriteEntries(es)
  }

  // -------------------------------------------------------------- reading

  datatype DecodeError = Syntax | TooDeep

  datatype Parsed<T> = Parsed(value: T, rest: Bytes)

  type Parse<T> = Result<Parsed<T>, DecodeError>

  predicate StartsWith(s: Bytes, prefix: Bytes) { |prefix| <= |s| && s[..|prefix|] == prefix }

  /** The longest run of number bytes at the front. */
  function NumberRun(s: Bytes): (n: nat)
    ensures n <= |s|
  {
    if s == [] || !NumberByte(s[0]) then 0 else 1 + NumberRun(s[1..])
  }

  /** One value at the front of `s`; `depth` is one more than the arrays and objects that may still be entered. */
  function ReadValue(s: Bytes, depth: nat): (r: Parse<Value>)
    requires depth > 0
    ensures r.Ok? ==> |r.value.rest| < |s|
    decreases |s|, 0
  {
    if s == [] then Err(Syntax)
    else if s[0] == OPEN_ARRAY then
      if depth == 1 then Err(TooDeep)
      else if |s| > 1 && s[1] == CLOSE_ARRAY then Ok(Parsed(Arr([]), s[2..]))
      else
        match ReadItems(s[1..], depth - 1)
        case Err(e) => Err(e)
        case Ok(p) => Ok(Parsed(Arr(p.value), p.rest))
    else if s[0] == OPEN_OBJECT then
      if depth == 1 then Err(TooDeep)
      else if |s| > 1 && s[1] == CLOSE_OBJECT then Ok(Parsed(Obj([]), s[2..]))
      else
        match ReadEntries(s[1..], depth - 1)
        case Err(e) => Err(e)
        case Ok(p) => Ok(Parsed(Obj(p.value), p.rest))
    else ReadScalar(s)
  }

  function ReadScalar(s: Bytes): (r: Parse<Value>)
    requires s != []
    ensures r.Ok? ==> |r.value.rest| < |s|
  {
    if s[0] == QUOTE then
      match Unescape(s[1..])
      case None => Err(Syntax)
      case Some((text, rest)) => Ok(Parsed(Str(text), rest))
    else if StartsWith(s, NullText()) then Ok(Parsed(Null, s[4..]))
    else if StartsWith(s, TrueText()) then Ok(Parsed(Bool(true), s[4..]))
    else if StartsWith(s, FalseText()) then Ok(Parsed(Bool(false), s[5..]))
    else if Digit(s[0]) || s[0] == 45 then
      match ReadNumber(s[..NumberRun(s)])
      case None => Err(Syntax)
      case Some(n) => Ok(Parsed(Num(n), s[NumberRun(s)..]))
    else Err(Syntax)
  }

  /** One element and those after it, up to the closing bracket. */
  function ReadItems(s: Bytes, depth: nat): (r: Parse<seq<Value>>)
    requires depth > 0
    ensures r.Ok? ==> |r.value.rest| < |s|
    decreases |s|, 1
  {
    match ReadValue(s, depth)
    case Err(e) => Err(e)
    case Ok(p) =>
      match ReadMoreItems(p.rest, depth)
      case Err(e) => Err(e)
      case Ok(q) => Ok(Parsed([p.value] + q.value, q.rest))
  }

  function ReadMoreItems(s: Bytes, depth: nat): (r: Parse<seq<Value>>)
    requires depth > 0
    ensures r.Ok? ==> |r.value.rest| < |s|
    decreases |s|, 2
  {
    if s == [] then Err(Syntax)
    else if s[0] == CLOSE_ARRAY then Ok(Parsed([], s[1..]))
    else if s[0] == COMMA then ReadItems(s[1..], depth)
    else Err(Syntax)
  }

  function ReadEntry(s: Bytes, depth: nat): (r: Parse<Entry>)
    requires depth > 0
    ensures r.Ok? ==> |r.value.rest| < |s|
    decreases |s|, 1
  {
    if s == [] || s[0] != QUOTE then Err(Syntax)
    else
      match Unescape(s[1..])
      case None => Err(Syntax)
      case Some((key, rest)) =>
        if rest == [] || rest[0] != COLON then Err(Syntax)
        else
          match ReadValue(rest[1..], depth)
          case Err(e) => Err(e)
          case Ok(p) => Ok(Parsed(Entry(key, p.value), p.rest))
  }

  function ReadEntries(s: Bytes, depth: nat): (r: Parse<seq<Entry>>)
    requires depth > 0
    ensures r.Ok? ==> |r.value.rest| < |s|
    decreases |s|, 2
  {
    match ReadEntry(s, depth)
    case Err(e) => Err(e)
    case Ok(p) =>
      match ReadMoreEntries(p.rest, depth)
      case Err(e) => Err(e)
      case Ok(q) => Ok(Parsed([p.value] + q.value, q.rest))
  }

  function ReadMoreEntries(s: Bytes, depth: nat): (r: Parse<seq<Entry>>)
    requires depth > 0
    ensures r.Ok? ==> |r.value.rest| < |s|
    decreases |s|, 3
  {
    if s == [] then Err(Syntax)
    else if s[0] == CLOSE_OBJECT then Ok(Parsed([], s[1..]))
    else if s[0] == COMMA then ReadEntries(s[1..], depth)
    else Err(Syntax)
  }

  // --------------------------------------------------- reading what is written

  /** At most `n` arrays and objects stand inside one another. */
  predicate Nested(v: Value, n: nat) {
    match v
    case Arr(items) => n > 0 && forall i :: 0 <= i < |items| ==> Nested(items[i], n - 1)
    case Obj(es) => n > 0 && forall i :: 0 <= i < |es| ==> Nested(es[i].value, n - 1)
    case _ => true
  }

  predicate AllNested(items: seq<Value>, n: nat) { forall i :: 0 <= i < |items| ==> Nested(items[i], n) }

  predicate EntriesNested(es: seq<Entry>, n: nat) { forall i :: 0 <= i < |es| ==> Nested(es[i].value, n) }

  predicate AllWellFormed(items: seq<Value>) { forall i :: 0 <= i < |items| ==> WellFormed(items[i]) }

  predicate EntriesWellFormed(es: seq<Entry>) { forall i :: 0 <= i < |es| ==> WellFormed(es[i].value) }

  /** A number cannot run on into `rest`. */
  predicate Ends(rest: Bytes) { rest == [] || !NumberByte(rest[0]) }

  /** The value when it is shallow enough, the recursion error otherwise. */
  function Expected<T>(shallow: bool, value: T, rest: Bytes): Parse<T> {
    if shallow then Ok(Parsed(value, rest)) else Err(TooDeep)
  }

  lemma {:induction false} NumberRunIs(lexeme: Bytes, rest: Bytes)
    requires Ends(rest) && forall i :: 0 <= i < |lexeme| ==> NumberByte(lexeme[i])
    ensures NumberRun(lexeme + rest) == |lexeme|
  {
    if lexeme == [] {
      assert lexeme + rest == rest;
    } else {
      assert (lexeme + rest)[1..] == lexeme[1..] + rest;
      NumberRunIs(lexeme[1..], rest);
    }
  }

  predicate Scalar(v: Value) { !v.Arr? && !v.Obj? }

  lemma ScalarStart(v: Value)
    requires WellFormed(v) && Scalar(v)
    ensures Write(v) != [] && Write(v)[0] !in [OPEN_ARRAY, OPEN_OBJECT, CLOSE_ARRAY, COMMA]
  {
    hide WriteNumber, WellFormedNumber;
    if v.Num? { WrittenShape(v.number); }
  }

  lemma WriteStart(v: Value)
    requires WellFormed(v)
    ensures Write(v) != [] && Write(v)[0] != CLOSE_ARRAY
  {
    if Scalar(v) { ScalarStart(v); }
  }

  lemma PrefixStarts(prefix: Bytes, rest: Bytes)
    ensures StartsWith(prefix + rest, prefix) && (prefix + rest)[|prefix|..] == rest
  {
  }

  lemma ReadWrittenString(s: Bytes, rest: Bytes)
    ensures Quoted(s) + rest != [] && (Quoted(s) + rest)[0] == QUOTE
            && Unescape((Quoted(s) + rest)[1..]) == Some((s, rest))
  {
    UnescapeEscaped(s, rest);
    assert (Quoted(s) + rest)[1..] == Escape(s) + [QUOTE] + rest;
  }

  lemma ReadWrittenNum(n: Number, rest: Bytes)
    requires WellFormedNumber(n) && Ends(rest)
    ensures WriteNumber(n) + rest != [] && ReadScalar(WriteNumber(n) + rest) == Ok(Parsed(Num(n), rest))
  {
    hide WriteNumber, ReadNumber, WellFormedNumber;
    var lexeme := WriteNumber(n);
    var s := lexeme + rest;
    WrittenShape(n);
    ReadWrittenNumber(n);
    NumberRunIs(lexeme, rest);
    assert s[0] == lexeme[0];
    assert NullText()[0] == 110 && TrueText()[0] == 116 && FalseText()[0] == 102;
    assert !StartsWith(s, NullText()) && !StartsWith(s, TrueText()) && !StartsWith(s, FalseText());
    assert s[..|lexeme|] == lexeme && s[|lexeme|..] == rest;
  }

  lemma ReadWrittenScalar(v: Value, rest: Bytes)
    requires WellFormed(v) && Scalar(v) && Ends(rest)
    ensures Write(v) + rest != [] && ReadScalar(Write(v) + rest) == Ok(Parsed(v, rest))
  {
    hide Unescape, NumberRun, Quoted, WriteNumber, ReadNumber, WellFormedNumber;
    match v
    case Null => PrefixStarts(NullText(), rest);
    case Bool(b) =>
      PrefixStarts(TrueText(), rest);
      PrefixStarts(FalseText(), rest);
      assert (TrueText() + rest)[0] == 116 && (FalseText() + rest)[0] == 102;
    case Str(s) => ReadWrittenString(s, rest);
    case Num(n) => ReadWrittenNum(n, rest);
  }

  lemma {:induction false} ReadWrittenItems(items: seq<Value>, rest: Bytes, depth: nat)
    requires AllWellFormed(items) && items != [] && depth > 0
    ensures ReadItems(WriteItems(items) + ([CLOSE_ARRAY] + rest), depth) ==
              Expected(AllNested(items, depth - 1), items, rest)
    decreases items, 1
  {
    hide ReadValue, Write, Nested, WellFormed;
    var after := WriteMoreItems(items[1..]) + ([CLOSE_ARRAY] + rest);
    Assoc(Write(items[0]), WriteMoreItems(items[1..]), [CLOSE_ARRAY] + rest);
    assert Ends(after);
    ReadWritten(items[0], after, depth);
    ReadWrittenMoreItems(items[1..], rest, depth);
    AllNestedSplit(items, depth - 1);
  }

  lemma AllNestedSplit(items: seq<Value>, n: nat)
    requires items != []
    ensures AllNested(items, n) <==> Nested(items[0], n) && AllNested(items[1..], n)
    ensures [items[0]] + items[1..] == items
  {
    hide Nested;
    if Nested(items[0], n) && AllNested(items[1..], n) {
      forall i | 0 <= i < |items| ensures Nested(items[i], n) { assert i > 0 ==> items[i] == items[1..][i - 1]; }
    }
  }

  lemma {:induction false} ReadWrittenMoreItems(items: seq<Value>, rest: Bytes, depth: nat)
    requires AllWellFormed(items) && depth > 0
    ensures ReadMoreItems(WriteMoreItems(items) + ([CLOSE_ARRAY] + rest), depth) ==
              Expected(AllNested(items, depth - 1), items, rest)
    decreases items, 2
  {
    hide ReadItems, WriteItems, Nested, WellFormed;
    var close := [CLOSE_ARRAY] + rest;
    if items == [] {
      assert WriteMoreItems(items) + close == close && close[1..] == rest;
    } else {
      ReadWrittenItems(items, rest, depth);
      Assoc([COMMA], WriteItems(items), close);
      assert ([COMMA] + (WriteItems(items) + close))[1..] == WriteItems(items) + close;
    }
  }

  lemma {:induction false} ReadWrittenArray(items: seq<Value>, rest: Bytes, depth: nat)
    requires AllWellFormed(items) && depth > 0
    ensures ReadValue(Write(Arr(items)) + rest, depth) == Expected(Nested(Arr(items), depth - 1), Arr(items), rest)
    decreases items, 3
  {
    var v := Arr(items);
    var s := Write(v) + rest;
    var inner := if items == [] then [] else WriteItems(items);
    var body := inner + ([CLOSE_ARRAY] + rest);
    assert s == [OPEN_ARRAY] + body && s[1..] == body;
    if depth > 1 {
      if items == [] {
        assert s[2..] == rest;
      } else {
        ReadWrittenItems(items, rest, depth - 1);
        ItemsStart(items);
      }
    }
  }

  lemma ItemsStart(items: seq<Value>)
    requires AllWellFormed(items) && items != []
    ensures WriteItems(items) != [] && WriteItems(items)[0] != CLOSE_ARRAY
  {
    hide Write;
    WriteStart(items[0]);
  }

  /** A written value is read back, whatever follows it, unless it nests too deeply. */
  lemma {:induction false} ReadWritten(v: Value, rest: Bytes, depth: nat)
    requires WellFormed(v) && Ends(rest) && depth > 0
    ensures ReadValue(Write(v) + rest, depth) == Expected(Nested(v, depth - 1), v, rest)
    decreases v, 0
  {
    match v
    case Arr(items) => ReadWrittenArray(items, rest, depth);
    case Obj(es) => ReadWrittenObject(es, rest, depth);
    case _ =>
      hide ReadScalar, Write;
      ScalarStart(v);
      ReadWrittenScalar(v, rest);
  }

  // the same for objects

  lemma {:induction false} ReadWrittenEntry(e: Entry, rest: Bytes, depth: nat)
    requires WellFormed(e.value) && Ends(rest) && depth > 0
    ensures ReadEntry(WriteEntry(e) + rest, depth) == Expected(Nested(e.value, depth - 1), e, rest)
    decreases e, 1
  {
    hide ReadValue, Write, Nested, WellFormed, Quoted, Unescape;
    var after := [COLON] + (Write(e.value) + rest);
    Assoc(Quoted(e.key), [COLON] + Write(e.value), rest);
    Assoc([COLON], Write(e.value), rest);
    ReadWrittenString(e.key, after);
    assert after[1..] == Write(e.value) + rest;
    ReadWritten(e.value, rest, depth);
  }

  lemma {:induction false} ReadWrittenEntries(es: seq<Entry>, rest: Bytes, depth: nat)
    requires EntriesWellFormed(es) && es != [] && depth > 0
    ensures ReadEntries(WriteEntries(es) + ([CLOSE_OBJECT] + rest), depth) ==
              Expected(EntriesNested(es, depth - 1), es, rest)
    decreases es, 1
  {
    hide ReadEntry, WriteEntry, Nested, WellFormed;
    var after := WriteMoreEntries(es[1..]) + ([CLOSE_OBJECT] + rest);
    Assoc(WriteEntry(es[0]), WriteMoreEntries(es[1..]), [CLOSE_OBJECT] + rest);
    assert Ends(after);
    ReadWrittenEntry(es[0], after, depth);
    ReadWrittenMoreEntries(es[1..], rest, depth);
    EntriesNestedSplit(es, depth - 1);
  }

  lemma EntriesNestedSplit(es: seq<Entry>, n: nat)
    requires es != []
    ensures EntriesNested(es, n) <==> Nested(es[0].value, n) && EntriesNested(es[1..], n)
    ensures [es[0]] + es[1..] == es
  {
    hide Nested;
    if Nested(es[0].value, n) && EntriesNested(es[1..], n) {
      forall i | 0 <= i < |es| ensures Nested(es[i].value, n) { assert i > 0 ==> es[i] == es[1..][i - 1]; }
    }
  }

  lemma {:induction false} ReadWrittenMoreEntries(es: seq<Entry>, rest: Bytes, depth: nat)
    requires EntriesWellFormed(es) && depth > 0
    ensures ReadMoreEntries(WriteMoreEntries(es) + ([CLOSE_OBJECT] + rest), depth) ==
              Expected(EntriesNested(es, depth - 1), es, rest)
    decreases es, 2
  {
    hide ReadEntries, WriteEntries, Nested, WellFormed;
    var close := [CLOSE_OBJECT] + rest;
    if es == [] {
      assert WriteMoreEntries(es) + close == close && close[1..] == rest;
    } else {
      ReadWrittenEntries(es, rest, depth);
      Assoc([COMMA], WriteEntries(es), close);
      assert ([COMMA] + (WriteEntries(es) + close))[1..] == WriteEntries(es) + close;
    }
  }

  lemma {:induction false} ReadWrittenObject(es: seq<Entry>, rest: Bytes, depth: nat)
    requires EntriesWellFormed(es) && depth > 0
    ensures ReadValue(Write(Obj(es)) + rest, depth) == Expected(Nested(Obj(es), depth - 1), Obj(es), rest)
    decreases es, 3
  {
    var v := Obj(es);
    var s := Write(v) + rest;
    var inner := if es == [] then [] else WriteEntries(es);
    var body := inner + ([CLOSE_OBJECT] + rest);
    assert s == [OPEN_OBJECT] + body && s[1..] == body;
    if depth > 1 {
      if es == [] {
        assert s[2..] == rest;
      } else {
        ReadWrittenEntries(es, rest, depth - 1);
        assert WriteEntries(es)[0] == QUOTE;
      }
    }
  }
}
