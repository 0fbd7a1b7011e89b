/** Sums of map values over a set of keys, independent of the order of summation. */
module Sums {

  ghost function SumOver<K>(m: map<K, int>, keys: set<K>): int
    requires keys <= m.Keys
    decreases keys
  {
    if keys == {} then 0
    else
      var k :| k in keys;
      m[k] + SumOver(m, keys - {k})
  }

  lemma {:induction false} SumSplit<K>(m: map<K, int>, keys: set<K>, k: K)
    requires k in keys && keys <= m.Keys
    ensures SumOver(m, keys) == m[k] + SumOver(m, keys - {k})
    decreases keys
  {
    var first :| first in keys && SumOver(m, keys) == m[first] + SumOver(m, keys - {first});
    if first != k {
      SumSplit(m, keys - {first}, k);
      SumSplit(m, keys - {k}, first);
      assert keys - {first} - {k} == keys - {k} - {first};
    }
  }

  lemma {:induction false} SumCongruent<K>(m: map<K, int>, n: map<K, int>, keys: set<K>)
    requires keys <= m.Keys && keys <= n.Keys
    requires forall k :: k in keys ==> m[k] == n[k]
    ensures SumOver(m, keys) == SumOver(n, keys)
    decreases keys
  {
    if keys != {} {
      var k :| k in keys;
      SumSplit(m, keys, k);
      SumSplit(n, keys, k);
      SumCongruent(m, n, keys - {k});
    }
  }
}
