/** Solidity mappings to uint256: an absent key reads as zero, and the whole mapping has a sum. */
module MapSums {
  /** Reads a mapping the way Solidity does. */
  function At<K>(m: map<K, nat>, k: K): nat {
    if k in m then m[k] else 0
  }

  /** The sum of all values stored in a mapping. */
  ghost function Total<K(!new)>(m: map<K, nat>): nat
    decreases |m|
  {
    if m == map[] then 0 else
      var k :| k in m;
      assert (m - {k}).Keys == m.Keys - {k};
      assert |m - {k}| == |(m - {k}).Keys| && |m| == |m.Keys|;
      m[k] + Total(m - {k})
  }

  /** Any key, not only the one the sum happens to pick, can be split off. */
  lemma {:induction false} TotalSplit<K(!new)>(m: map<K, nat>, k: K)
    requires k in m
    ensures Total(m) == m[k] + Total(m - {k})
    decreases |m|
  {
    var j :| j in m && Total(m) == m[j] + Total(m - {j});
    if j != k {
      assert (m - {j}).Keys == m.Keys - {j} && (m - {k}).Keys == m.Keys - {k};
      assert |m - {j}| == |(m - {j}).Keys| && |m - {k}| == |(m - {k}).Keys| && |m| == |m.Keys|;
      TotalSplit(m - {j}, k);
      TotalSplit(m - {k}, j);
      assert m - {j} - {k} == m - {k} - {j};
    }
  }

  /** Writing one slot moves the sum by the change in that slot. */
  lemma TotalUpdate<K(!new)>(m: map<K, nat>, k: K, v: nat)
    ensures Total(m[k := v]) + At(m, k) == Total(m) + v
  {
    TotalSplit(m[k := v], k);
    assert m[k := v] - {k} == m - {k};
    if k in m {
      TotalSplit(m, k);
    } else {
      assert m - {k} == m;
    }
  }

  /** Every slot is at most the sum. */
  lemma TotalBoundsSlot<K(!new)>(m: map<K, nat>, k: K)
    ensures At(m, k) <= Total(m)
  {
    if k in m { TotalSplit(m, k); }
  }

  /** Two different slots together are at most the sum. */
  lemma TotalBoundsPair<K(!new)>(m: map<K, nat>, j: K, k: K)
    requires j != k
    ensures At(m, j) + At(m, k) <= Total(m)
  {
    if k in m {
      TotalSplit(m, k);
      TotalBoundsSlot(m - {k}, j);
    } else {
      TotalBoundsSlot(m, j);
    }
  }
}
