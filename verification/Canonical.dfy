/** JSON values, the key order and the sorted form of `src/canonical.rs`, and what makes two values equal. */
module Canonical {
  import opened Text
  import opened JsonNumber

  // --------------------------------------------------------------- values

  /**
    A `serde_json::Value`; an object is its entries in the order the map iterates them. Strings are their UTF-8
    bytes.
   */
  datatype Value =
    | Null
    | Bool(b: bool)
    | Num(number: Number)
    | Str(s: Bytes)
    | Arr(items: seq<Value>)
    | Obj(entries: seq<Entry>)

  datatype Entry = Entry(key: Bytes, value: Value)

  predicate DistinctKeys(es: seq<Entry>) { forall i, j :: 0 <= i < j < |es| ==> es[i].key != es[j].key }

  /** A map holds every key once. */
  predicate WellFormed(v: Value) {
    match v
    case Num(n) => WellFormedNumber(n)
    case Arr(items) => forall i :: 0 <= i < |items| ==> WellFormed(items[i])
    case Obj(es) => DistinctKeys(es) && forall i :: 0 <= i < |es| ==> WellFormed(es[i].value)
    case _ => true
  }

  /** `PartialEq` of values: arrays element by element, objects key by key in any order. */
  predicate Equal(v: Value, w: Value) {
    match v
    case Arr(items) => w.Arr? && |items| == |w.items| && forall i :: 0 <= i < |items| ==> Equal(items[i], w.items[i])
    case Obj(es) =>
      w.Obj? && |es| == |w.entries| &&
      forall e :: e in es ==> exists f :: f in w.entries && f.key == e.key && Equal(e.value, f.value)
    case _ => v == w
  }

  // ------------------------------------------------------------ key order

  /** `Ord` of Rust strings: byte by byte. */
  predicate Less(a: Bytes, b: Bytes) {
    b != [] && (a == [] || a[0] < b[0] || (a[0] == b[0] && Less(a[1..], b[1..])))
  }

  /** After a front of `n` bytes in common, `a` ends first or goes on with the smaller byte. */
  predicate ComesFirst(a: Bytes, b: Bytes, n: nat) {
    n <= |a| && n < |b| && a[..n] == b[..n] && (n == |a| || a[n] < b[n])
  }

  lemma ComesFirstTail(a: Bytes, b: Bytes, n: nat)
    requires ComesFirst(a, b, n) && n > 0
    ensures a[0] == b[0] && ComesFirst(a[1..], b[1..], n - 1)
  {
    assert a[0] == a[..n][0] && b[0] == b[..n][0];
    assert a[1..][..n - 1] == a[..n][1..] && b[1..][..n - 1] == b[..n][1..];
  }

  lemma {:induction false} ComesFirstIsLess(a: Bytes, b: Bytes, n: nat)
    requires ComesFirst(a, b, n)
    ensures Less(a, b)
  {
    if n > 0 {
      ComesFirstTail(a, b, n);
      ComesFirstIsLess(a[1..], b[1..], n - 1);
    }
  }

  lemma {:induction false} LessComesFirst(a: Bytes, b: Bytes) returns (n: nat)
    requires Less(a, b)
    ensures ComesFirst(a, b, n)
  {
    if a != [] && a[0] == b[0] {
      var m := LessComesFirst(a[1..], b[1..]);
      n := m + 1;
      assert a[..n] == [a[0]] + a[1..][..m] && b[..n] == [b[0]] + b[1..][..m];
    } else {
      n := 0;
    }
  }

  /** One key is before another exactly when, after a common front, it ends first or goes on with the smaller byte. */
  lemma LessIsLexicographic(a: Bytes, b: Bytes)
    ensures Less(a, b) <==>
              exists n: nat :: n <= |a| && n < |b| && a[..n] == b[..n] && (n == |a| || a[n] < b[n])
  {
    if Less(a, b) {
      var n := LessComesFirst(a, b);
    }
    if n: nat :| n <= |a| && n < |b| && a[..n] == b[..n] && (n == |a| || a[n] < b[n]) {
      ComesFirstIsLess(a, b, n);
    }
  }

  lemma {:induction false} LessTransitive(a: Bytes, b: Bytes, c: Bytes)
    requires Less(a, b) && Less(b, c)
    ensures Less(a, c)
  {
    if a != [] && a[0] == b[0] && b[0] == c[0] { LessTransitive(a[1..], b[1..], c[1..]); }
  }

  lemma {:induction false} LessTrichotomy(a: Bytes, b: Bytes)
    ensures Less(a, b) || a == b || Less(b, a)
    ensures !Less(a, a) && !(Less(a, b) && Less(b, a))
  {
    if a != [] { LessTrichotomy(a[1..], a[1..]); }
    if a != [] && b != [] && a[0] == b[0] {
      LessTrichotomy(a[1..], b[1..]);
      assert a == [a[0]] + a[1..] && b == [b[0]] + b[1..];
    }
  }

  predicate Ascending(es: seq<Entry>) { forall i, j :: 0 <= i < j < |es| ==> Less(es[i].key, es[j].key) }

  function Insert(e: Entry, es: seq<Entry>): seq<Entry> {
    if es == [] || Less(e.key, es[0].key) then [e] + es else [es[0]] + Insert(e, es[1..])
  }

  /** What sorting entries by key yields. */
  function Sorted(es: seq<Entry>): seq<Entry> {
    if es == [] then [] else Insert(es[0], Sorted(es[1..]))
  }

  lemma {:induction false} InsertKeeps(e: Entry, es: seq<Entry>)
    ensures multiset(Insert(e, es)) == multiset(es) + multiset{e}
    ensures |Insert(e, es)| == |es| + 1
  {
    if es != [] && !Less(e.key, es[0].key) {
      InsertKeeps(e, es[1..]);
      assert es == [es[0]] + es[1..];
    }
  }

  lemma {:induction false} SortedKeeps(es: seq<Entry>)
    ensures multiset(Sorted(es)) == multiset(es)
    ensures |Sorted(es)| == |es|
  {
    if es != [] {
      SortedKeeps(es[1..]);
      InsertKeeps(es[0], Sorted(es[1..]));
      assert es == [es[0]] + es[1..];
    }
  }

  lemma SameMembers(a: seq<Entry>, b: seq<Entry>, e: Entry)
    requires multiset(a) == multiset(b)
    ensures e in a <==> e in b
  {
    assert e in a <==> e in multiset(a);
    assert e in b <==> e in multiset(b);
  }

  lemma {:induction false} InsertAscending(e: Entry, es: seq<Entry>)
    requires Ascending(es) && forall i :: 0 <= i < |es| ==> es[i].key != e.key
    ensures Ascending(Insert(e, es))
  {
    if es == [] {
    } else if Less(e.key, es[0].key) {
      forall i | 0 < i < |es| ensures Less(e.key, es[i].key) { LessTransitive(e.key, es[0].key, es[i].key); }
    } else {
      InsertAscending(e, es[1..]);
      LessTrichotomy(e.key, es[0].key);
      InsertKeeps(e, es[1..]);
      var more := Insert(e, es[1..]);
      forall i | 0 <= i < |more| ensures Less(es[0].key, more[i].key) {
        SameMembers(more, es[1..] + [e], more[i]);
      }
    }
  }

  /** Sorting entries with distinct keys puts every key strictly after the one before it. */
  lemma {:induction false} SortedAscending(es: seq<Entry>)
    requires DistinctKeys(es)
    ensures Ascending(Sorted(es))
  {
    if es != [] {
      var more := Sorted(es[1..]);
      SortedAscending(es[1..]);
      SortedKeeps(es[1..]);
      forall i | 0 <= i < |more| ensures more[i].key != es[0].key { SameMembers(more, es[1..], more[i]); }
      InsertAscending(es[0], more);
    }
  }

  /** Ascending sequences are determined by their members. */
  lemma {:induction false} AscendingUnique(a: seq<Entry>, b: seq<Entry>)
    requires Ascending(a) && Ascending(b) && forall e :: e in a <==> e in b
    ensures a == b
  {
    if a == [] {
      HasMember(b);
    } else {
      assert a[0] in b;
      assert b[0] in a;
      HeadIsLeast(a, b[0]);
      HeadIsLeast(b, a[0]);
      LessTrichotomy(a[0].key, b[0].key);
      TailMembers(a);
      TailMembers(b);
      AscendingUnique(a[1..], b[1..]);
      assert a == [a[0]] + a[1..] && b == [b[0]] + b[1..];
    }
  }

  lemma HasMember(a: seq<Entry>)
    ensures a == [] || exists e :: e in a
  {
    if a != [] { assert a[0] in a; }
  }

  lemma HeadIsLeast(a: seq<Entry>, e: Entry)
    requires Ascending(a) && e in a
    ensures e == a[0] || Less(a[0].key, e.key)
  {
  }

  lemma TailMembers(a: seq<Entry>)
    requires Ascending(a) && a != []
    ensures forall e :: e in a[1..] <==> e in a && e != a[0]
  {
    forall e | e in a[1..] ensures e != a[0] { LessTrichotomy(a[0].key, e.key); }
    assert a == [a[0]] + a[1..];
  }

  /** However the sort treats its input, the result is the same: an ascending arrangement of distinct keys is unique. */
  lemma AnySortIsSorted(es: seq<Entry>, result: seq<Entry>)
    requires DistinctKeys(es) && multiset(result) == multiset(es)
    requires forall i, j :: 0 <= i < j < |result| ==> !Less(result[j].key, result[i].key)
    ensures result == Sorted(es)
  {
    SortedAscending(es);
    SortedKeeps(es);
    DistinctByMembers(es, result);
    forall i, j | 0 <= i < j < |result| ensures Less(result[i].key, result[j].key) {
      LessTrichotomy(result[i].key, result[j].key);
    }
    forall e ensures e in result <==> e in Sorted(es) { SameMembers(result, Sorted(es), e); }
    AscendingUnique(result, Sorted(es));
  }

  /** Rearranging entries does not make two keys equal. */
  lemma {:induction false} DistinctByMembers(es: seq<Entry>, result: seq<Entry>)
    requires DistinctKeys(es) && multiset(result) == multiset(es)
    ensures DistinctKeys(result)
  {
    forall i, j | 0 <= i < j < |result| ensures result[i].key != result[j].key {
      SameMembers(result, es, result[i]);
      SameMembers(result, es, result[j]);
      if result[i].key == result[j].key {
        assert result[i] == result[j];
        OnceOnly(es, result[i]);
        Twice(result, i, j);
      }
    }
  }

  lemma {:induction false} OnceOnly(es: seq<Entry>, e: Entry)
    requires DistinctKeys(es)
    ensures multiset(es)[e] <= 1
  {
    if es != [] {
      assert es == [es[0]] + es[1..];
      OnceOnly(es[1..], e);
      if e == es[0] { assert e !in es[1..]; }
    }
  }

  lemma Twice(es: seq<Entry>, i: nat, j: nat)
    requires i < j < |es| && es[i] == es[j]
    ensures multiset(es)[es[i]] >= 2
  {
    var a, b := es[..j], es[j..];
    assert es == a + b && a[i] == es[i] && b[0] == es[i];
    assert es[i] in multiset(a) && es[i] in multiset(b);
  }

  // ------------------------------------------------------- canonical form

  /** The value with the keys of every object sorted, at every depth. */
  function Canon(v: Value): Value {
    match v
    case Arr(items) => Arr(seq(|items|, i requires 0 <= i < |items| => Canon(items[i])))
    case Obj(es) => Obj(Sorted(seq(|es|, i requires 0 <= i < |es| => Entry(es[i].key, Canon(es[i].value)))))
    case _ => v
  }

  function CanonItems(items: seq<Value>): seq<Value> { seq(|items|, i requires 0 <= i < |items| => Canon(items[i])) }

  function CanonEntry(e: Entry): Entry { Entry(e.key, Canon(e.value)) }

  function CanonEntries(es: seq<Entry>): seq<Entry> { seq(|es|, i requires 0 <= i < |es| => CanonEntry(es[i])) }

  lemma CanonArr(items: seq<Value>)
    ensures Canon(Arr(items)) == Arr(CanonItems(items))
  {
    assert Canon(Arr(items)).items == CanonItems(items);
  }

  lemma CanonObj(es: seq<Entry>)
    ensures Canon(Obj(es)) == Obj(Sorted(CanonEntries(es)))
  {
    assert seq(|es|, i requires 0 <= i < |es| => Entry(es[i].key, Canon(es[i].value))) == CanonEntries(es);
  }

  /** Sorting looks at keys only. */
  lemma {:induction false} CanonInsert(e: Entry, es: seq<Entry>)
    ensures CanonEntries(Insert(e, es)) == Insert(CanonEntry(e), CanonEntries(es))
  {
    if es != [] && !Less(e.key, es[0].key) {
      CanonInsert(e, es[1..]);
      assert CanonEntries(es)[1..] == CanonEntries(es[1..]);
      assert CanonEntries([es[0]] + Insert(e, es[1..])) == [CanonEntry(es[0])] + CanonEntries(Insert(e, es[1..]));
    } else {
      assert CanonEntries([e] + es) == [CanonEntry(e)] + CanonEntries(es);
    }
  }

  lemma {:induction false} CanonSorted(es: seq<Entry>)
    ensures CanonEntries(Sorted(es)) == Sorted(CanonEntries(es))
  {
    if es != [] {
      CanonSorted(es[1..]);
      CanonInsert(es[0], Sorted(es[1..]));
      assert CanonEntries(es)[1..] == CanonEntries(es[1..]);
    }
  }

  /** Keys ascend in every object of the value. */
  predicate KeysAscend(v: Value) {
    match v
    case Arr(items) => forall i :: 0 <= i < |items| ==> KeysAscend(items[i])
    case Obj(es) => Ascending(es) && forall i :: 0 <= i < |es| ==> KeysAscend(es[i].value)
    case _ => true
  }

  /** The canonical form is well formed, its keys ascend at every depth, and it equals the value. */
  lemma {:induction false} CanonMeaning(v: Value)
    requires WellFormed(v)
    ensures WellFormed(Canon(v)) && KeysAscend(Canon(v)) && Equal(v, Canon(v))
  {
    match v
    case Arr(items) =>
      CanonArr(items);
      forall i | 0 <= i < |items|
        ensures WellFormed(Canon(items[i])) && KeysAscend(Canon(items[i])) && Equal(items[i], Canon(items[i]))
      {
        CanonMeaning(items[i]);
      }
    case Obj(es) =>
      CanonObj(es);
      CanonDistinct(es);
      SortedAscending(CanonEntries(es));
      var mapped := CanonEntries(es);
      SortedKeeps(mapped);
      DistinctByMembers(mapped, Sorted(mapped));
      forall i | 0 <= i < |es| ensures WellFormed(Canon(es[i].value)) && KeysAscend(Canon(es[i].value)) {
        CanonMeaning(es[i].value);
      }
      forall e | e in es ensures exists f :: f in Sorted(mapped) && f.key == e.key && Equal(e.value, f.value) {
        CanonMeaning(e.value);
        EntryFound(es, e);
      }
      EntriesMeaning(es);
    case _ =>
  }

  lemma EntriesMeaning(es: seq<Entry>)
    requires forall i :: 0 <= i < |es| ==> WellFormed(Canon(es[i].value)) && KeysAscend(Canon(es[i].value))
    ensures var s := Sorted(CanonEntries(es));
            && |s| == |es|
            && forall i :: 0 <= i < |s| ==> WellFormed(s[i].value) && KeysAscend(s[i].value)
  {
    hide WellFormed, KeysAscend, Canon, Sorted;
    var mapped := CanonEntries(es);
    var s := Sorted(mapped);
    SortedKeeps(mapped);
    forall i | 0 <= i < |s| ensures WellFormed(s[i].value) && KeysAscend(s[i].value) { SameMembers(s, mapped, s[i]); }
  }

  lemma EntryFound(es: seq<Entry>, e: Entry)
    requires e in es && Equal(e.value, Canon(e.value))
    ensures exists f :: f in Sorted(CanonEntries(es)) && f.key == e.key && Equal(e.value, f.value)
  {
    hide Equal, Canon, Sorted;
    var i :| 0 <= i < |es| && es[i] == e;
    var mapped := CanonEntries(es);
    assert mapped[i] == CanonEntry(e);
    SortedKeeps(mapped);
    SameMembers(Sorted(mapped), mapped, CanonEntry(e));
  }

  // ---------------------------------------- equal values, one canonical form

  /** Every entry of one object has its counterpart in the other. */
  lemma Counterpart(a: seq<Entry>, b: seq<Entry>, e: Entry) returns (f: Entry)
    requires e in a && Sorted(CanonEntries(a)) == Sorted(CanonEntries(b))
    ensures f in b && f.key == e.key && Canon(f.value) == Canon(e.value)
  {
    hide Canon, Sorted;
    SortedKeeps(CanonEntries(a));
    SortedKeeps(CanonEntries(b));
    var i :| 0 <= i < |a| && a[i] == e;
    SameMembers(CanonEntries(a), CanonEntries(b), CanonEntries(a)[i]);
    var j :| 0 <= j < |b| && CanonEntries(b)[j] == CanonEntries(a)[i];
    f := b[j];
  }

  lemma SameLength(a: seq<Entry>, b: seq<Entry>)
    requires Sorted(CanonEntries(a)) == Sorted(CanonEntries(b))
    ensures |a| == |b|
  {
    SortedKeeps(CanonEntries(a));
    SortedKeeps(CanonEntries(b));
  }

  /** Values with the same canonical form are equal. */
  lemma {:induction false} SameCanonEqual(v: Value, w: Value)
    requires Canon(v) == Canon(w)
    ensures Equal(v, w)
  {
    hide Sorted;
    match v
    case Arr(items) =>
      CanonArr(items);
      CanonArr(w.items);
      forall i | 0 <= i < |items| ensures Equal(items[i], w.items[i]) {
        assert CanonItems(items)[i] == CanonItems(w.items)[i];
        SameCanonEqual(items[i], w.items[i]);
      }
    case Obj(es) =>
      CanonObj(es);
      CanonObj(w.entries);
      SameLength(es, w.entries);
      forall e | e in es ensures exists f :: f in w.entries && f.key == e.key && Equal(e.value, f.value) {
        var f := Counterpart(es, w.entries, e);
        SameCanonEqual(e.value, f.value);
      }
    case _ =>
  }

  /** Distinct members of one sequence, all found in another of the same length, are all of it. */
  lemma SameSet(a: seq<Entry>, b: seq<Entry>)
    requires DistinctKeys(a) && DistinctKeys(b) && |a| == |b| && forall e :: e in a ==> e in b
    ensures forall e :: e in b ==> e in a
  {
    forall e ensures multiset(a)[e] <= multiset(b)[e] {
      OnceOnly(a, e);
      if e in multiset(a) { assert e in a && e in b && e in multiset(b); }
    }
    var more := multiset(b) - multiset(a);
    assert multiset(b) == multiset(a) + more;
    forall e | e in b ensures e in a { assert e in multiset(b); }
  }

  lemma CanonDistinct(es: seq<Entry>)
    requires DistinctKeys(es)
    ensures DistinctKeys(CanonEntries(es))
  {
    hide Canon;
  }

  lemma CanonMember(es: seq<Entry>, e: Entry)
    requires e in es
    ensures CanonEntry(e) in CanonEntries(es)
  {
    hide CanonEntry;
    var i :| 0 <= i < |es| && es[i] == e;
    assert CanonEntries(es)[i] == CanonEntry(e);
  }

  /** Equal values have the same canonical form. */
  lemma {:induction false} EqualSameCanon(v: Value, w: Value)
    requires WellFormed(v) && WellFormed(w) && Equal(v, w)
    ensures Canon(v) == Canon(w)
  {
    hide Sorted, DistinctKeys;
    match v
    case Arr(items) =>
      CanonArr(items);
      CanonArr(w.items);
      forall i | 0 <= i < |items| ensures Canon(items[i]) == Canon(w.items[i]) { EqualSameCanon(items[i], w.items[i]); }
      assert CanonItems(items) == CanonItems(w.items);
    case Obj(es) =>
      CanonObj(es);
      CanonObj(w.entries);
      var a, b := CanonEntries(es), CanonEntries(w.entries);
      forall e | e in es ensures CanonEntry(e) in b {
        var f :| f in w.entries && f.key == e.key && Equal(e.value, f.value);
        EqualSameCanon(e.value, f.value);
        CanonMember(w.entries, f);
      }
      CanonDistinct(es);
      CanonDistinct(w.entries);
      SameSorted(a, b);
    case _ =>
  }

  lemma SameSorted(a: seq<Entry>, b: seq<Entry>)
    requires DistinctKeys(a) && DistinctKeys(b) && |a| == |b| && forall i :: 0 <= i < |a| ==> a[i] in b
    ensures Sorted(a) == Sorted(b)
  {
    SortedAscending(a);
    SortedAscending(b);
    SortedKeeps(a);
    SortedKeeps(b);
    SameSet(a, b);
    forall e ensures e in Sorted(a) <==> e in Sorted(b) {
      SameMembers(a, Sorted(a), e);
      SameMembers(b, Sorted(b), e);
    }
    AscendingUnique(Sorted(a), Sorted(b));
  }
}
