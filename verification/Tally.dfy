/** Sums over the entries of a map, whatever the order the entries are visited in. */
module Tally {

  function Without<K, V>(m: map<K, V>, k: K): (r: map<K, V>)
    ensures r.Keys == m.Keys - {k}
    ensures forall q | q in r :: r[q] == m[q]
  {
    map q | q in m && q != k :: m[q]
  }

  ghost function PickKey<K, V>(m: map<K, V>): (k: K)
    requires m.Keys != {}
    ensures k in m
  {
    var k :| k in m; k
  }

  /** The sum of `f` over the entries of `m`. */
  ghost function Sum<K, V>(m: map<K, V>, f: V -> int): int
    decreases m.Keys
  {
    if m.Keys == {} then 0 else var k := PickKey(m); f(m[k]) + Sum(Without(m, k), f)
  }

  /** Any key may be taken first. */
  lemma {:induction false} SumPick<K, V>(m: map<K, V>, f: V -> int, k: K)
    requires k in m
    ensures Sum(m, f) == f(m[k]) + Sum(Without(m, k), f)
    decreases m.Keys
  {
    var q := PickKey(m);
    if q != k {
      SumPick(Without(m, q), f, k);
      SumPick(Without(m, k), f, q);
      assert Without(Without(m, k), q) == Without(Without(m, q), k);
    }
  }

  /** Writing one entry replaces that entry's share. */
  lemma SumUpdate<K, V>(m: map<K, V>, f: V -> int, k: K, v: V)
    ensures Sum(m[k := v], f) == f(v) + Sum(Without(m, k), f)
  {
    var n := m[k := v];
    SumPick(n, f, k);
    assert Without(n, k) == Without(m, k);
  }

  /** Two maps whose entries have the same value key by key have the same sum. */
  lemma {:induction false} SumSame<K, V>(a: map<K, V>, b: map<K, V>, f: V -> int)
    requires a.Keys == b.Keys
    requires forall k | k in a :: f(a[k]) == f(b[k])
    ensures Sum(a, f) == Sum(b, f)
    decreases a.Keys
  {
    if a.Keys != {} {
      var k := PickKey(a);
      SumPick(b, f, k);
      SumSame(Without(a, k), Without(b, k), f);
    }
  }
}
