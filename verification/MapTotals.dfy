/** Sums over the values of a finite map. */
module MapTotals {

  ghost function Total<K(!new), V>(m: map<K, V>, f: V -> nat): nat
    decreases |m|
  {
    if m == map[] then 0
    else
      var k :| k in m;
      f(m[k]) + Total(m - {k}, f)
  }

  lemma {:induction false} TotalRemove<K(!new), V>(m: map<K, V>, k: K, f: V -> nat)
    requires k in m
    ensures Total(m, f) == f(m[k]) + Total(m - {k}, f)
    decreases |m|
  {
    var j: K :| j in m && Total(m, f) == f(m[j]) + Total(m - {j}, f);
    if j != k {
      TotalRemove(m - {j}, k, f);
      TotalRemove(m - {k}, j, f);
      assert m - {j} - {k} == m - {k} - {j};
    }
  }

  lemma TotalUpdate<K(!new), V>(m: map<K, V>, k: K, v: V, f: V -> nat)
    ensures Total(m[k := v], f) == f(v) + Total(m - {k}, f)
    ensures k in m ==> Total(m, f) == f(m[k]) + Total(m - {k}, f)
    ensures k !in m ==> m - {k} == m
  {
    TotalRemove(m[k := v], k, f);
    assert m[k := v] - {k} == m - {k};
    if k in m { TotalRemove(m, k, f); } else { assert m - {k} == m; }
  }

  lemma TotalMember<K(!new), V>(m: map<K, V>, k: K, f: V -> nat)
    requires k in m
    ensures f(m[k]) <= Total(m, f)
  {
    TotalRemove(m, k, f);
  }

  /** One total is at most another when each of its terms is. */
  lemma {:induction false} TotalBelow<K(!new), V>(m: map<K, V>, f: V -> nat, g: V -> nat)
    requires forall k :: k in m ==> f(m[k]) <= g(m[k])
    ensures Total(m, f) <= Total(m, g)
    decreases |m|
  {
    if m != map[] {
      var k :| k in m;
      TotalRemove(m, k, f);
      TotalRemove(m, k, g);
      TotalBelow(m - {k}, f, g);
    }
  }

  lemma {:induction false} TotalOfNothing<K(!new), V>(m: map<K, V>, f: V -> nat)
    requires forall k :: k in m ==> f(m[k]) == 0
    ensures Total(m, f) == 0
    decreases |m|
  {
    if m != map[] {
      var k :| k in m;
      TotalRemove(m, k, f);
      TotalOfNothing(m - {k}, f);
    }
  }
}
