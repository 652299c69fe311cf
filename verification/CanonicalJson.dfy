/** `src/canonical.rs`: the serializer that sorts keys, proved canonical, injective and readable. */
module CanonicalJson {
  import opened Common
  import opened Text
  import opened Canonical
  import opened CanonicalText

  // ---------------------------------------------------------- serializing

  function ItemsText(items: seq<Value>): Bytes { if items == [] then [] else WriteItems(items) }

  function EntriesText(es: seq<Entry>): Bytes { if es == [] then [] else WriteEntries(es) }

  lemma {:induction false} MoreItemsSnoc(items: seq<Value>, v: Value)
    ensures WriteMoreItems(items + [v]) == WriteMoreItems(items) + ([COMMA] + Write(v))
    decreases |items|
  {
    hide Write;
    var more := items + [v];
    if items == [] {
      assert more == [v] && more[1..] == [];
      assert Write(v) + [] == Write(v);
    } else {
      var head, last := Write(items[0]), [COMMA] + Write(v);
      assert more[1..] == items[1..] + [v];
      MoreItemsSnoc(items[1..], v);
      Assoc(head, WriteMoreItems(items[1..]), last);
      Assoc([COMMA], head + WriteMoreItems(items[1..]), last);
    }
  }

  lemma ItemsSnoc(items: seq<Value>, v: Value)
    ensures ItemsText(items + [v]) == ItemsText(items) + (if items == [] then [] else [COMMA]) + Write(v)
  {
    hide Write;
    var more := items + [v];
    if items == [] {
      assert more == [v] && more[1..] == [];
      assert WriteItems(more) == Write(v);
      assert ItemsText(items) + [] == [];
    } else {
      var head, before := Write(items[0]), WriteMoreItems(items[1..]);
      assert more[1..] == items[1..] + [v];
      MoreItemsSnoc(items[1..], v);
      Assoc(head, before, [COMMA] + Write(v));
      Assoc(head + before, [COMMA], Write(v));
    }
  }

  lemma {:induction false} MoreEntriesSnoc(es: seq<Entry>, e: Entry)
    ensures WriteMoreEntries(es + [e]) == WriteMoreEntries(es) + ([COMMA] + WriteEntry(e))
    decreases |es|
  {
    hide WriteEntry;
    var more := es + [e];
    if es == [] {
      assert more == [e] && more[1..] == [];
      assert WriteEntry(e) + [] == WriteEntry(e);
    } else {
      var head, last := WriteEntry(es[0]), [COMMA] + WriteEntry(e);
      assert more[1..] == es[1..] + [e];
      MoreEntriesSnoc(es[1..], e);
      Assoc(head, WriteMoreEntries(es[1..]), last);
      Assoc([COMMA], head + WriteMoreEntries(es[1..]), last);
    }
  }

  lemma EntriesSnoc(es: seq<Entry>, e: Entry)
    ensures EntriesText(es + [e]) == EntriesText(es) + (if es == [] then [] else [COMMA]) + WriteEntry(e)
  {
    hide WriteEntry;
    var more := es + [e];
    if es == [] {
      assert more == [e] && more[1..] == [];
      assert WriteEntries(more) == WriteEntry(e);
      assert EntriesText(es) + [] == [];
    } else {
      var head, before := WriteEntry(es[0]), WriteMoreEntries(es[1..]);
      assert more[1..] == es[1..] + [e];
      MoreEntriesSnoc(es[1..], e);
      Assoc(head, before, [COMMA] + WriteEntry(e));
      Assoc(head + before, [COMMA], WriteEntry(e));
    }
  }

  lemma CanonItemsSnoc(items: seq<Value>, i: nat)
    requires i < |items|
    ensures CanonItems(items[..i + 1]) == CanonItems(items[..i]) + [Canon(items[i])]
  {
    hide Canon;
  }

  lemma CanonEntriesSnoc(es: seq<Entry>, i: nat)
    requires i < |es|
    ensures CanonEntries(es[..i + 1]) == CanonEntries(es[..i]) + [CanonEntry(es[i])]
  {
    hide CanonEntry;
  }

  /**
    `SortedKeys::serialize` into compact text: arrays in order, every object's entries sorted before they are
    emitted.
   */
  method Serialize(v: Value) returns (out: Bytes)
    ensures out == Write(Canon(v))
    decreases v, 0
  {
    match v
    case Obj(es) => out := SerializeMap(es);
    case Arr(items) => out := SerializeSeq(items);
    case scalar => out := Write(v);
  }

  method SerializeSeq(items: seq<Value>) returns (out: Bytes)
    ensures out == Write(Canon(Arr(items)))
    decreases items, 1
  {
    hide Write, Canon, WriteItems;
    out := [OPEN_ARRAY];
    assert items[..0] == [];
    for i := 0 to |items|
      invariant out == [OPEN_ARRAY] + ItemsText(CanonItems(items[..i]))
    {
      if i > 0 {
        out := out + [COMMA];
      }
      var item := Serialize(items[i]);
      out := out + item;
      CanonItemsSnoc(items, i);
      ItemsSnoc(CanonItems(items[..i]), Canon(items[i]));
    }
    out := out + [CLOSE_ARRAY];
    assert items[..|items|] == items;
    CanonArr(items);
    WriteArr(CanonItems(items));
  }

  method SerializeMap(es: seq<Entry>) returns (out: Bytes)
    ensures out == Write(Canon(Obj(es)))
    decreases es, 1
  {
    hide Write, Canon, WriteEntries, Sorted, Quoted;
    SortedKeeps(es);
    var entries := Sorted(es);
    out := [OPEN_OBJECT];
    assert entries[..0] == [];
    for i := 0 to |entries|
      invariant out == [OPEN_OBJECT] + EntriesText(CanonEntries(entries[..i]))
    {
      if i > 0 {
        out := out + [COMMA];
      }
      SameMembers(entries, es, entries[i]);
      var value := Serialize(entries[i].value);
      out := out + Quoted(entries[i].key) + [COLON] + value;
      CanonEntriesSnoc(entries, i);
      EntriesSnoc(CanonEntries(entries[..i]), CanonEntry(entries[i]));
    }
    out := out + [CLOSE_OBJECT];
    assert entries[..|entries|] == entries;
    CanonSorted(es);
    CanonObj(es);
    WriteObj(CanonEntries(entries));
  }

  lemma WriteArr(items: seq<Value>)
    ensures Write(Arr(items)) == [OPEN_ARRAY] + ItemsText(items) + [CLOSE_ARRAY]
  {
  }

  lemma WriteObj(es: seq<Entry>)
    ensures Write(Obj(es)) == [OPEN_OBJECT] + EntriesText(es) + [CLOSE_OBJECT]
  {
  }

  // ------------------------------------------------------------ laws

  /** How deep arrays and objects stand inside one another. */
  function Height(v: Value): nat
    decreases v, 0
  {
    match v
    case Arr(items) => 1 + ItemsHeight(items)
    case Obj(es) => 1 + EntriesHeight(es)
    case _ => 0
  }

  function ItemsHeight(items: seq<Value>): nat
    decreases items, 1
  {
    if items == [] then 0
    else
      var a, b := Height(items[0]), ItemsHeight(items[1..]);
      if a > b then a else b
  }

  function EntriesHeight(es: seq<Entry>): nat
    decreases es, 1
  {
    if es == [] then 0
    else
      var a, b := Height(es[0].value), EntriesHeight(es[1..]);
      if a > b then a else b
  }

  /** Nesting is what the height measures. */
  lemma {:induction false} HeightNested(v: Value, n: nat)
    ensures Nested(v, n) <==> Height(v) <= n
    decreases v, 0
  {
    match v
    case Arr(items) => if n > 0 { ItemsHeightNested(items, n - 1); }
    case Obj(es) => if n > 0 { EntriesHeightNested(es, n - 1); }
    case _ =>
  }

  lemma {:induction false} ItemsHeightNested(items: seq<Value>, n: nat)
    ensures AllNested(items, n) <==> ItemsHeight(items) <= n
    decreases items, 1
  {
    if items != [] {
      HeightNested(items[0], n);
      ItemsHeightNested(items[1..], n);
      AllNestedSplit(items, n);
    }
  }

  lemma {:induction false} EntriesHeightNested(es: seq<Entry>, n: nat)
    ensures EntriesNested(es, n) <==> EntriesHeight(es) <= n
    decreases es, 1
  {
    if es != [] {
      HeightNested(es[0].value, n);
      EntriesHeightNested(es[1..], n);
      EntriesNestedSplit(es, n);
    }
  }

  /** Sorting keys changes no depth. */
  lemma {:induction false} CanonNested(v: Value, n: nat)
    ensures Nested(Canon(v), n) <==> Nested(v, n)
  {
    hide Sorted;
    match v
    case Arr(items) =>
      CanonArr(items);
      if n > 0 {
        forall i | 0 <= i < |items| ensures Nested(Canon(items[i]), n - 1) <==> Nested(items[i], n - 1) {
          CanonNested(items[i], n - 1);
        }
        CanonItemsNested(items, n - 1);
      }
    case Obj(es) =>
      CanonObj(es);
      if n > 0 {
        forall i | 0 <= i < |es| ensures Nested(Canon(es[i].value), n - 1) <==> Nested(es[i].value, n - 1) {
          CanonNested(es[i].value, n - 1);
        }
        CanonEntriesNested(es, n - 1);
      }
    case _ =>
  }

  lemma CanonItemsNested(items: seq<Value>, n: nat)
    requires forall i :: 0 <= i < |items| ==> (Nested(Canon(items[i]), n) <==> Nested(items[i], n))
    ensures AllNested(CanonItems(items), n) <==> AllNested(items, n)
  {
    hide Nested, Canon;
    if AllNested(CanonItems(items), n) {
      forall i | 0 <= i < |items| ensures Nested(items[i], n) { assert CanonItems(items)[i] == Canon(items[i]); }
    }
  }

  lemma CanonEntriesNested(es: seq<Entry>, n: nat)
    requires forall i :: 0 <= i < |es| ==> (Nested(Canon(es[i].value), n) <==> Nested(es[i].value, n))
    ensures EntriesNested(Sorted(CanonEntries(es)), n) <==> EntriesNested(es, n)
  {
    hide Nested, Canon, Sorted;
    var mapped := CanonEntries(es);
    SortedKeeps(mapped);
    var sorted := Sorted(mapped);
    if EntriesNested(es, n) {
      forall i | 0 <= i < |sorted| ensures Nested(sorted[i].value, n) { SameMembers(sorted, mapped, sorted[i]); }
    }
    if EntriesNested(sorted, n) {
      forall i | 0 <= i < |es| ensures Nested(es[i].value, n) { SameMembers(sorted, mapped, mapped[i]); }
    }
  }

  lemma ReadWrittenAlone(v: Value, depth: nat)
    requires WellFormed(v) && depth > 0
    ensures ReadValue(Write(v), depth) == Expected(Nested(v, depth - 1), v, [])
  {
    hide Write, ReadValue, WellFormed, Nested;
    ReadWritten(v, [], depth);
    assert Write(v) + [] == Write(v);
  }

  /** Different values are written differently, each in its own entry order. */
  lemma WriteInjective(v: Value, w: Value)
    requires WellFormed(v) && WellFormed(w) && Write(v) == Write(w)
    ensures v == w
  {
    hide Write, ReadValue, WellFormed, Nested, Height;
    var depth := Height(v) + Height(w) + 1;
    HeightNested(v, depth - 1);
    HeightNested(w, depth - 1);
    ReadWrittenAlone(v, depth);
    ReadWrittenAlone(w, depth);
  }

  /**
    Two values have the same canonical text if and only if they are equal, object by object regardless of key order,
    at every depth.
   */
  lemma CanonicalTextIffEqual(v: Value, w: Value)
    requires WellFormed(v) && WellFormed(w)
    ensures Write(Canon(v)) == Write(Canon(w)) <==> Equal(v, w)
  {
    hide Write, WellFormed, Equal, Canon;
    if Equal(v, w) { EqualSameCanon(v, w); }
    if Write(Canon(v)) == Write(Canon(w)) {
      CanonMeaning(v);
      CanonMeaning(w);
      WriteInjective(Canon(v), Canon(w));
      SameCanonEqual(v, w);
    }
  }

  /** `remaining_depth` of the JSON reader: one more than the arrays and objects it enters. */
  const READER_DEPTH: nat := 128

  /** `deserialize`: the whole text must be one value. */
  function Deserialize(text: Bytes): Result<Value, DecodeError> {
    match ReadValue(text, READER_DEPTH)
    case Err(e) => Err(e)
    case Ok(p) => if p.rest == [] then Ok(p.value) else Err(Syntax)
  }

  /**
    Reading canonical text back gives a value equal to the one written, with its keys sorted at every depth, if and
    only if the value nests arrays and objects less than 128 deep; a deeper value is written but cannot be read.
   */
  lemma RoundTrip(v: Value)
    requires WellFormed(v)
    ensures var back := Deserialize(Write(Canon(v)));
            && (Height(v) < READER_DEPTH ==> back == Ok(Canon(v)) && Equal(v, back.value) && KeysAscend(back.value))
            && (Height(v) >= READER_DEPTH ==> back == Err(TooDeep))
  {
    hide Write, ReadValue, WellFormed, Nested, Height, Equal, Canon, KeysAscend;
    CanonMeaning(v);
    CanonNested(v, READER_DEPTH - 1);
    HeightNested(v, READER_DEPTH - 1);
    ReadWrittenAlone(Canon(v), READER_DEPTH);
  }
}
