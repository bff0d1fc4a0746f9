/** Totals of a count dictionary. */
module Counting {
  /** The sum of all values of a count dictionary. */
  ghost function Total<K(!new)>(m: map<K, nat>): nat
    decreases |m|
  {
    if m == map[] then 0
    else
      var k :| k in m;
      Split(m, k);
      m[k] + Total(m - {k})
  }

  lemma {:induction false} Split<K>(m: map<K, nat>, k: K)
    requires k in m
    ensures |m - {k}| == |m| - 1
  {
    assert (m - {k}).Keys == m.Keys - {k};
    assert |(m - {k}).Keys| == |m - {k}| && |m.Keys| == |m|;
  }

  lemma {:induction false} TotalWithout<K(!new)>(m: map<K, nat>, k: K)
    requires k in m
    ensures Total(m) == m[k] + Total(m - {k})
    decreases |m|
  {
    var first: K :| first in m && Total(m) == (Split(m, first); m[first] + Total(m - {first}));
    if first != k {
      Split(m, first);
      Split(m, k);
      TotalWithout(m - {first}, k);
      assert m - {first} - {k} == m - {k} - {first};
      TotalWithout(m - {k}, first);
    }
  }

  /** Replacing or adding one value changes the total by the difference. */
  lemma {:induction false} TotalUpdate<K(!new)>(m: map<K, nat>, k: K, v: nat)
    ensures Total(m[k := v]) == Total(m) - (if k in m then m[k] else 0) + v
  {
    TotalWithout(m[k := v], k);
    assert m[k := v] - {k} == m - {k};
    if k in m {
      TotalWithout(m, k);
    } else {
      assert m - {k} == m;
    }
  }

  function Count<K>(counts: map<K, nat>, key: K): nat {
    if key in counts then counts[key] else 0
  }

  /** Adds one to a key's count, starting from zero. */
  function Tally<K>(counts: map<K, nat>, key: K): map<K, nat> {
    counts[key := Count(counts, key) + 1]
  }

  lemma {:induction false} TallyAddsOne<K(!new)>(counts: map<K, nat>, key: K)
    ensures Total(Tally(counts, key)) == Total(counts) + 1
    ensures forall k :: Count(Tally(counts, key), k) == Count(counts, k) + if k == key then 1 else 0
  {
    TotalUpdate(counts, key, Count(counts, key) + 1);
  }
}
