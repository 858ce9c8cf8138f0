/** Sums over the values of a finite map. */
module MapSum {
  ghost function Sum<K>(m: map<K, int>): int
  {
    if m == map[] then 0 else var k :| k in m; m[k] + Sum(m - {k})
  }

  /** Any key may be taken out first. */
  lemma {:induction false} SumTake<K>(m: map<K, int>, k: K)
    requires k in m
    ensures Sum(m) == m[k] + Sum(m - {k})
    decreases |m|
  {
    var j :| j in m && Sum(m) == m[j] + Sum(m - {j});
    if j == k {
    } else {
      SumTake(m - {j}, k);
      SumTake(m - {k}, j);
      assert m - {j} - {k} == m - {k} - {j};
    }
  }

  function At<K>(m: map<K, int>, k: K): int
  {
    if k in m then m[k] else 0
  }

  lemma SumPut<K>(m: map<K, int>, k: K, v: int)
    ensures Sum(m[k := v]) == Sum(m) - At(m, k) + v
  {
    SumTake(m[k := v], k);
    if k in m {
      SumTake(m, k);
      assert m[k := v] - {k} == m - {k};
    } else {
      assert m[k := v] - {k} == m;
    }
  }

  lemma SumDrop<K>(m: map<K, int>, k: K)
    ensures Sum(m - {k}) == Sum(m) - At(m, k)
  {
    if k in m { SumTake(m, k); } else { assert m - {k} == m; }
  }

  lemma {:induction false} SumPositive<K>(m: map<K, int>)
    requires forall k | k in m :: m[k] >= 0
    ensures Sum(m) >= 0
    decreases |m|
  {
    if m == map[] {
    } else {
      var k :| k in m && Sum(m) == m[k] + Sum(m - {k});
      SumPositive(m - {k});
    }
  }

  /** The part of a map on the given keys. */
  function Part<K>(m: map<K, int>, keys: set<K>): map<K, int>
  {
    map k | k in m && k in keys :: m[k]
  }

  lemma PartTake<K>(m: map<K, int>, keys: set<K>, k: K)
    requires k in m && k in keys
    ensures Sum(Part(m, keys)) == Sum(Part(m - {k}, keys)) + m[k] && m - {k} - keys == m - keys
  {
    SumTake(Part(m, keys), k);
    assert Part(m, keys) - {k} == Part(m - {k}, keys);
  }

  lemma RestTake<K>(m: map<K, int>, keys: set<K>, k: K)
    requires k in m && k !in keys
    ensures Sum(m - keys) == Sum(m - {k} - keys) + m[k] && Part(m - {k}, keys) == Part(m, keys)
  {
    SumTake(m - keys, k);
    assert m - keys - {k} == m - {k} - keys;
  }

  lemma {:induction false} SumParts<K>(m: map<K, int>, keys: set<K>)
    ensures Sum(m) == Sum(m - keys) + Sum(Part(m, keys))
    decreases |m|
  {
    if m == map[] {
      assert m - keys == map[] && Part(m, keys) == map[];
    } else {
      var k :| k in m;
      SumTake(m, k);
      SumParts(m - {k}, keys);
      if k in keys { PartTake(m, keys, k); } else { RestTake(m, keys, k); }
    }
  }

  lemma {:induction false} SumZero<K>(m: map<K, int>)
    requires forall k | k in m :: m[k] == 0
    ensures Sum(m) == 0
    decreases |m|
  {
    if m == map[] {
    } else {
      var k :| k in m && Sum(m) == m[k] + Sum(m - {k});
      SumZero(m - {k});
    }
  }
}
