/** Sums over finite maps. */
module Totals {

  /** The sum of a map's values. */
  ghost function Total<K(!new)>(m: map<K, real>): real {
    if m == map[] then 0.0
    else
      var k :| k in m;
      m[k] + Total(m - {k})
  }

  /** Any key can be taken out first. */
  lemma {:induction false} TotalWithout<K(!new)>(m: map<K, real>, k: K)
    requires k in m
    ensures Total(m) == m[k] + Total(m - {k})
    decreases m.Keys
  {
    var first :| first in m && Total(m) == m[first] + Total(m - {first});
    if first != k {
      TotalWithout(m - {first}, k);
      TotalWithout(m - {k}, first);
      assert m - {first} - {k} == m - {k} - {first};
    }
  }

  function ValueAt<K>(m: map<K, real>, k: K): real { if k in m then m[k] else 0.0 }

  lemma TotalUpdate<K(!new)>(m: map<K, real>, k: K, v: real)
    ensures Total(m[k := v]) == Total(m) - ValueAt(m, k) + v
  {
    TotalWithout(m[k := v], k);
    assert m[k := v] - {k} == m - {k};
    if k in m {
      TotalWithout(m, k);
    } else {
      assert m - {k} == m;
    }
  }

  lemma {:induction false} TotalOfZeros<K(!new)>(m: map<K, real>)
    requires forall k <- m :: m[k] == 0.0
    ensures Total(m) == 0.0
    decreases m.Keys
  {
    if m != map[] {
      var k :| k in m;
      TotalWithout(m, k);
      TotalOfZeros(m - {k});
    }
  }
}
