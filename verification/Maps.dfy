/** Sums over the values of a map, for conservation arguments. */
module Maps {

  ghost function Total<K>(m: map<K, int>): int {
    if m == map[] then 0
    else
      var k :| k in m;
      m[k] + Total(m - {k})
  }

  /** The sum does not depend on which key is taken first. */
  lemma {:induction false} TotalRemove<K>(m: map<K, int>, k: K)
    requires k in m
    ensures Total(m) == m[k] + Total(m - {k})
  {
    var j :| j in m && Total(m) == m[j] + Total(m - {j});
    if j != k {
      TotalRemove(m - {j}, k);
      TotalRemove(m - {k}, j);
      assert m - {j} - {k} == m - {k} - {j};
    }
  }

  lemma TotalUpdate<K>(m: map<K, int>, k: K, v: int)
    ensures Total(m[k := v]) == Total(m) - (if k in m then m[k] else 0) + v
  {
    TotalRemove(m[k := v], k);
    assert m[k := v] - {k} == m - {k};
    if k in m {
      TotalRemove(m, k);
    } else {
      assert m - {k} == m;
    }
  }

  /** Non-negative entries are each covered by the sum. */
  lemma {:induction false} TotalCovers<K>(m: map<K, int>, k: K)
    requires k in m && forall j :: j in m ==> m[j] >= 0
    ensures 0 <= m[k] <= Total(m)
  {
    TotalRemove(m, k);
    TotalNonNegative(m - {k});
  }

  lemma {:induction false} TotalNonNegative<K>(m: map<K, int>)
    requires forall j :: j in m ==> m[j] >= 0
    ensures Total(m) >= 0
  {
    if m != map[] {
      var k :| k in m;
      TotalRemove(m, k);
      TotalNonNegative(m - {k});
    }
  }

  /** Pointwise smaller on fewer keys, with nothing negative left out. */
  lemma {:induction false} TotalMono<K>(m: map<K, int>, n: map<K, int>)
    requires m.Keys <= n.Keys && (forall k :: k in m ==> m[k] <= n[k]) && (forall k :: k in n ==> n[k] >= 0)
    ensures Total(m) <= Total(n)
  {
    if m == map[] {
      TotalNonNegative(n);
    } else {
      var k :| k in m;
      TotalRemove(m, k);
      TotalRemove(n, k);
      TotalMono(m - {k}, n - {k});
    }
  }

  lemma {:induction false} TotalJoin<K>(m: map<K, int>, n: map<K, int>)
    requires m.Keys !! n.Keys
    ensures Total(m + n) == Total(m) + Total(n)
  {
    if m == map[] {
      assert m + n == n;
    } else {
      var k :| k in m;
      TotalRemove(m, k);
      TotalRemove(m + n, k);
      assert (m + n) - {k} == (m - {k}) + n;
      TotalJoin(m - {k}, n);
    }
  }

  /** Overwriting a key and then restoring it. */
  lemma PutBack<K, V>(m: map<K, V>, k: K, w: V)
    ensures k in m ==> m[k := w][k := m[k]] == m
    ensures k !in m ==> m[k := w] - {k} == m
  {
  }
}
