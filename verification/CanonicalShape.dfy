/** What canonical text looks like, byte for byte. */
module CanonicalShape {
  import opened Common
  import opened Text
  import opened JsonNumber
  import opened Canonical
  import opened CanonicalText

  const HEX := "0123456789abcdef"

  /** A byte inside a string, spelled out: the seven short escapes, `\u00` with two hex digits, or itself. */
  lemma EscapeTable(b: Byte)
    ensures b == '\"' as int ==> EscapeByte(b) == Ascii("\\\"")
    ensures b == '\\' as int ==> EscapeByte(b) == Ascii("\\\\")
    ensures b == 8 ==> EscapeByte(b) == Ascii("\\b")
    ensures b == 9 ==> EscapeByte(b) == Ascii("\\t")
    ensures b == 10 ==> EscapeByte(b) == Ascii("\\n")
    ensures b == 12 ==> EscapeByte(b) == Ascii("\\f")
    ensures b == 13 ==> EscapeByte(b) == Ascii("\\r")
    ensures b < 32 && b !in {8, 9, 10, 12, 13} ==> EscapeByte(b) == Ascii("\\u00" + [HEX[b / 16], HEX[b % 16]])
    ensures b >= 32 && b != '\"' as int && b != '\\' as int ==> EscapeByte(b) == [b]
  {
  }

  lemma ScalarText(n: int)
    ensures Write(Null) == Ascii("null") && Write(Bool(true)) == Ascii("true") && Write(Bool(false)) == Ascii("false")
    ensures Write(Num(Int(n))) == if n >= 0 then Decimal(n) else Ascii("-") + Decimal(-n)
    ensures Write(Str([])) == Ascii("\"\"") && Write(Arr([])) == Ascii("[]") && Write(Obj([])) == Ascii("{}")
  {
  }

  // ----------------------------------------------------- arrays and objects

  /** The parts in order, a comma between neighbours. */
  function Joined(parts: seq<Bytes>): Bytes {
    if parts == [] then [] else if |parts| == 1 then parts[0] else parts[0] + (Ascii(",") + Joined(parts[1..]))
  }

  lemma JoinedCons(part: Bytes, parts: seq<Bytes>)
    ensures Joined([part] + parts) == if parts == [] then part else part + (Ascii(",") + Joined(parts))
  {
    assert ([part] + parts)[1..] == parts;
  }

  function ItemTexts(items: seq<Value>): seq<Bytes> {
    seq(|items|, i requires 0 <= i < |items| => Write(items[i]))
  }

  lemma ItemsCons(v: Value, items: seq<Value>)
    ensures WriteItems([v] + items) == if items == [] then Write(v) else Write(v) + (Ascii(",") + WriteItems(items))
  {
    hide Write;
    assert ([v] + items)[1..] == items;
    assert Ascii(",") == [COMMA];
    assert Write(v) + [] == Write(v);
  }

  lemma {:induction false} ItemsJoined(items: seq<Value>)
    requires items != []
    ensures WriteItems(items) == Joined(ItemTexts(items))
  {
    hide Write, WriteItems, Joined;
    var v, rest := items[0], items[1..];
    assert items == [v] + rest;
    ItemsCons(v, rest);
    JoinedCons(Write(v), ItemTexts(rest));
    assert ItemTexts(items) == [Write(v)] + ItemTexts(rest);
    if rest != [] { ItemsJoined(rest); }
  }

  /** An array: its elements' texts between brackets, separated by commas, with no other byte. */
  lemma ArrayText(items: seq<Value>)
    ensures Write(Arr(items)) == Ascii("[") + (Joined(ItemTexts(items)) + Ascii("]"))
  {
    if items != [] { ItemsJoined(items); }
    hide WriteItems;
  }

  /** A member: the quoted key, a colon, and the text of its value. */
  function MemberText(e: Entry): Bytes {
    Ascii("\"") + Escape(e.key) + Ascii("\":") + Write(e.value)
  }

  function MemberTexts(es: seq<Entry>): seq<Bytes> {
    seq(|es|, i requires 0 <= i < |es| => MemberText(es[i]))
  }

  lemma EntryText(e: Entry)
    ensures WriteEntry(e) == MemberText(e)
  {
    hide Write, Escape;
  }

  lemma EntriesCons(e: Entry, es: seq<Entry>)
    ensures WriteEntries([e] + es) ==
              if es == [] then WriteEntry(e) else WriteEntry(e) + (Ascii(",") + WriteEntries(es))
  {
    hide WriteEntry;
    assert ([e] + es)[1..] == es;
    assert Ascii(",") == [COMMA];
    assert WriteEntry(e) + [] == WriteEntry(e);
  }

  lemma {:induction false} EntriesJoined(es: seq<Entry>)
    requires es != []
    ensures WriteEntries(es) == Joined(MemberTexts(es))
  {
    hide Write, MemberText, WriteEntry, WriteEntries, Joined;
    var e, rest := es[0], es[1..];
    EntryText(e);
    assert es == [e] + rest;
    EntriesCons(e, rest);
    JoinedCons(MemberText(e), MemberTexts(rest));
    assert MemberTexts(es) == [MemberText(e)] + MemberTexts(rest);
    if rest != [] { EntriesJoined(rest); }
  }

  /** An object: its members' texts between braces, separated by commas, with no other byte. */
  lemma ObjectText(es: seq<Entry>)
    ensures Write(Obj(es)) == Ascii("{") + (Joined(MemberTexts(es)) + Ascii("}"))
  {
    if es != [] { EntriesJoined(es); }
    hide WriteEntries;
  }
}
