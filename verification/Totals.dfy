/** Sums over the values of a map, for instance the bytes of all outstanding packets. */
module Totals {

  ghost function Total<K, V>(m: map<K, V>, f: V -> nat): nat {
    if m.Keys == {} then 0
    else
      var k :| k in m;
      f(m[k]) + Total(m - {k}, f)
  }

  /** The total does not depend on the order in which the keys are visited. */
  lemma {:induction false} TotalSplit<K, V>(m: map<K, V>, f: V -> nat, k: K)
    requires k in m
    ensures Total(m, f) == f(m[k]) + Total(m - {k}, f)
    decreases |m|
  {
    var j :| j in m && Total(m, f) == f(m[j]) + Total(m - {j}, f);
    if j != k {
      TotalSplit(m - {j}, f, k);
      TotalSplit(m - {k}, f, j);
      assert m - {j} - {k} == m - {k} - {j};
    }
  }

  lemma TotalUpdate<K, V>(m: map<K, V>, f: V -> nat, k: K, v: V)
    requires k in m
    ensures Total(m[k := v], f) == Total(m, f) - f(m[k]) + f(v)
  {
    TotalSplit(m, f, k);
    TotalSplit(m[k := v], f, k);
    assert m[k := v] - {k} == m - {k};
  }

  lemma TotalInsert<K, V>(m: map<K, V>, f: V -> nat, k: K, v: V)
    requires k !in m
    ensures Total(m[k := v], f) == Total(m, f) + f(v)
  {
    TotalSplit(m[k := v], f, k);
    assert m[k := v] - {k} == m;
  }

  lemma RemoveOneMore<K, V>(m: map<K, V>, gone: set<K>, k: K)
    requires k in gone
    ensures m - gone == (m - (gone - {k})) - {k}
  {
    var a, b := m - gone, (m - (gone - {k})) - {k};
    assert a.Keys == b.Keys;
  }

  lemma RemoveMissing<K, V>(m: map<K, V>, k: K)
    requires k !in m
    ensures m - {k} == m
  {
  }

  /** Removing keys never adds to the total. */
  lemma {:induction false} TotalShrinks<K, V>(m: map<K, V>, f: V -> nat, gone: set<K>)
    ensures Total(m - gone, f) <= Total(m, f)
    decreases gone
  {
    if gone == {} {
      assert m - gone == m;
    } else {
      var k :| k in gone;
      var rest := m - (gone - {k});
      TotalShrinks(m, f, gone - {k});
      RemoveOneMore(m, gone, k);
      if k in rest {
        TotalSplit(rest, f, k);
      } else {
        RemoveMissing(rest, k);
      }
    }
  }
}
