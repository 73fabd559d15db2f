/** Two things the program makes of lists: the elements that satisfy a condition, and the last element for each key. */
module Lists {
  // ---------- filtering ----------

  function Filter<T>(s: seq<T>, keep: T -> bool): seq<T> {
    if s == [] then [] else
      Filter(s[..|s| - 1], keep) + if keep(s[|s| - 1]) then [s[|s| - 1]] else []
  }

  /** `kept` is made of the elements at the positions `origin`: all that satisfy the condition, in their order. */
  ghost predicate Selects<T>(s: seq<T>, keep: T -> bool, kept: seq<T>, origin: seq<nat>) {
    && |origin| == |kept|
    && (forall k :: 0 <= k < |kept| ==> origin[k] < |s| && kept[k] == s[origin[k]])
    && (forall j, k :: 0 <= j < k < |origin| ==> origin[j] < origin[k])
    && (forall i :: 0 <= i < |s| ==> (keep(s[i]) <==> i in origin))
  }

  /** Exactly the elements that satisfy the condition are kept, each as often as it occurs and in order. */
  lemma {:induction false} FilterSelects<T>(s: seq<T>, keep: T -> bool) returns (origin: seq<nat>)
    ensures Selects(s, keep, Filter(s, keep), origin)
  {
    origin := [];
    if s != [] {
      var n := |s| - 1;
      origin := FilterSelects(s[..n], keep);
      if keep(s[n]) { origin := origin + [n]; }
    }
  }

  lemma FilterKeeps<T>(s: seq<T>, keep: T -> bool, x: T)
    ensures x in Filter(s, keep) <==> x in s && keep(x)
  {
    var origin := FilterSelects(s, keep);
    if x in s && keep(x) {
      var i :| 0 <= i < |s| && s[i] == x;
      assert i in origin;
      var k :| 0 <= k < |origin| && origin[k] == i;
      assert Filter(s, keep)[k] == x;
    }
  }

  lemma FilterNext<T>(s: seq<T>, keep: T -> bool, n: nat)
    requires n < |s|
    ensures Filter(s[..n + 1], keep) == Filter(s[..n], keep) + if keep(s[n]) then [s[n]] else []
  {
    assert s[..n + 1][..n] == s[..n];
  }

  // ---------- lookup maps ----------

  /** Every element under its key; a later element replaces an earlier one. */
  function Latest<K, V>(s: seq<V>, key: V -> K): map<K, V> {
    if s == [] then map[] else Latest(s[..|s| - 1], key)[key(s[|s| - 1]) := s[|s| - 1]]
  }

  /** Position i holds the last element with the key. */
  predicate IsLast<K(==), V>(s: seq<V>, key: V -> K, k: K, i: int) {
    0 <= i < |s| && key(s[i]) == k && forall j :: i < j < |s| ==> key(s[j]) != k
  }

  /** A key is in the map exactly when some element has it, and it leads to the last such element. */
  lemma {:induction false} LatestIsLast<K, V>(s: seq<V>, key: V -> K, k: K)
    ensures k in Latest(s, key) <==> exists i :: 0 <= i < |s| && key(s[i]) == k
    ensures k in Latest(s, key) ==> exists i :: IsLast(s, key, k, i) && Latest(s, key)[k] == s[i]
    ensures forall i :: IsLast(s, key, k, i) ==> k in Latest(s, key) && Latest(s, key)[k] == s[i]
  {
    if s != [] {
      var n := |s| - 1;
      LatestIsLast(s[..n], key, k);
      if key(s[n]) == k {
        assert IsLast(s, key, k, n);
      } else {
        forall i | IsLast(s, key, k, i) ensures IsLast(s[..n], key, k, i) { assert i < n; }
        if k in Latest(s[..n], key) {
          var i :| IsLast(s[..n], key, k, i) && Latest(s[..n], key)[k] == s[..n][i];
          assert IsLast(s, key, k, i) && key(s[i]) == k;
        }
        if exists i :: 0 <= i < |s| && key(s[i]) == k {
          var i :| 0 <= i < |s| && key(s[i]) == k;
          assert i < n && key(s[..n][i]) == k;
        }
      }
    }
  }

  lemma LatestNext<K, V>(s: seq<V>, key: V -> K, n: nat)
    requires n < |s|
    ensures Latest(s[..n + 1], key) == Latest(s[..n], key)[key(s[n]) := s[n]]
  {
    assert s[..n + 1][..n] == s[..n];
  }
}
