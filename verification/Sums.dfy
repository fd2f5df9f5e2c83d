/** Sums over finite maps and sizes of filtered key sets, used to count tokens and to rank states. */
module Sums {

  /** The sum of `f` over the values of `m`. */
  ghost function Total<K(!new), V>(m: map<K, V>, f: V -> nat): nat
    decreases |m|
  {
    if m == map[] then 0 else
      var k :| k in m;
      assert (m - {k}).Keys == m.Keys - {k};
      f(m[k]) + Total(m - {k}, f)
  }

  /** Any key can be taken out of the sum first. */
  lemma {:induction false} TotalSplit<K(!new), V>(m: map<K, V>, k: K, f: V -> nat)
    requires k in m
    ensures Total(m, f) == f(m[k]) + Total(m - {k}, f)
    decreases |m|
  {
    var first :| first in m && Total(m, f) == f(m[first]) + Total(m - {first}, f);
    assert (m - {k}).Keys == m.Keys - {k} && (m - {first}).Keys == m.Keys - {first};
    if first != k {
      TotalSplit(m - {first}, k, f);
      TotalSplit(m - {k}, first, f);
      assert m - {first} - {k} == m - {k} - {first};
    }
  }

  /** Updating one entry changes the sum by that entry's weight only. */
  lemma TotalUpdate<K(!new), V>(m: map<K, V>, k: K, v: V, f: V -> nat)
    ensures Total(m[k := v], f) + (if k in m then f(m[k]) else 0) == Total(m, f) + f(v)
  {
    TotalSplit(m[k := v], k, f);
    if k in m {
      TotalSplit(m, k, f);
      assert m[k := v] - {k} == m - {k};
    } else {
      assert m[k := v] - {k} == m;
    }
  }

  /** The keys whose value satisfies `p`. */
  ghost function Where<K, V>(m: map<K, V>, p: V -> bool): set<K> {
    set k <- m.Keys | p(m[k])
  }

  /** Updating one entry moves at most that key in or out of the filtered set. */
  lemma WhereUpdate<K, V>(m: map<K, V>, k: K, v: V, p: V -> bool)
    ensures |Where(m[k := v], p)|
         == |Where(m, p)| - (if k in m && p(m[k]) then 1 else 0) + (if p(v) then 1 else 0)
  {
    var rest := Where(m, p) - {k};
    if p(v) {
      assert Where(m[k := v], p) == rest + {k};
    } else {
      assert Where(m[k := v], p) == rest;
    }
  }

  lemma SubsetSize<T>(small: set<T>, big: set<T>)
    requires small <= big
    ensures |small| <= |big|
  {
    assert big == small + (big - small);
  }
}
