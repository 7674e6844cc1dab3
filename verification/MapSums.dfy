/** Sums over the values of a finite map, for money held across rows. */
module MapSums {
  ghost function Sum<K(!new)>(m: map<K, int>): int {
    if m == map[] then 0 else
      var k :| k in m;
      m[k] + Sum(m - {k})
  }

  /** Any key can be taken out first. */
  lemma {:induction false} SumRemove<K(!new)>(m: map<K, int>, k: K)
    requires k in m
    ensures Sum(m) == m[k] + Sum(m - {k})
    decreases |m|
  {
    var j :| j in m && Sum(m) == m[j] + Sum(m - {j});
    if j != k {
      SumRemove(m - {j}, k);
      SumRemove(m - {k}, j);
      assert m - {j} - {k} == m - {k} - {j};
    }
  }

  /** Writing one key moves the sum by the difference of the values. */
  lemma SumPut<K(!new)>(m: map<K, int>, k: K, v: int)
    ensures Sum(m[k := v]) == Sum(m) - (if k in m then m[k] else 0) + v
  {
    SumRemove(m[k := v], k);
    assert m[k := v] - {k} == m - {k};
    if k in m {
      SumRemove(m, k);
    } else {
      assert m - {k} == m;
    }
  }

  function Only<K>(m: map<K, int>, keys: set<K>): map<K, int> {
    map k | k in m && k in keys :: m[k]
  }

  /** A sum splits along any set of keys. */
  lemma {:induction false} SumSplit<K(!new)>(m: map<K, int>, keys: set<K>)
    ensures Sum(m) == Sum(Only(m, keys)) + Sum(m - keys)
    decreases |m|
  {
    hide Sum;
    if m == map[] {
      assert Only(m, keys) == m && m - keys == m;
      EmptySum(m);
    } else {
      var k :| k in m;
      SumRemove(m, k);
      SumSplit(m - {k}, keys);
      SplitAt(m, keys, k);
    }
  }

  lemma EmptySum<K(!new)>(m: map<K, int>)
    requires m == map[]
    ensures Sum(m) == 0
  {
  }

  lemma SplitAt<K(!new)>(m: map<K, int>, keys: set<K>, k: K)
    requires k in m
    ensures Sum(Only(m, keys)) + Sum(m - keys) == m[k] + Sum(Only(m - {k}, keys)) + Sum(m - {k} - keys)
  {
    hide Sum;
    if k in keys {
      SumRemove(Only(m, keys), k);
      assert Only(m, keys) - {k} == Only(m - {k}, keys);
      assert m - {k} - keys == m - keys;
    } else {
      SumRemove(m - keys, k);
      assert Only(m - {k}, keys) == Only(m, keys);
      assert m - keys - {k} == m - {k} - keys;
    }
  }

  lemma {:induction false} SumZero<K(!new)>(m: map<K, int>)
    requires forall k :: k in m ==> m[k] == 0
    ensures Sum(m) == 0
    decreases |m|
  {
    if m != map[] {
      var k :| k in m;
      SumRemove(m, k);
      SumZero(m - {k});
    }
  }

  lemma {:induction false} SumPositive<K(!new)>(m: map<K, int>)
    requires forall k :: k in m ==> m[k] > 0
    ensures Sum(m) >= 0 && (m != map[] ==> Sum(m) > 0)
    decreases |m|
  {
    if m != map[] {
      var k :| k in m;
      SumRemove(m, k);
      SumPositive(m - {k});
    }
  }
}
