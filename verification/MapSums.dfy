/** Sums over finite maps: what `SELECT SUM(..)` over the rows that match a condition means. */
module MapSums {

  /** The sum of all values. */
  ghost function Sum<K>(m: map<K, int>): int {
    if m == map[] then 0
    else
      var k :| k in m;
      m[k] + Sum(m - {k})
  }

  /** The entries whose key satisfies `p`. */
  ghost function Where<K>(m: map<K, int>, p: K -> bool): map<K, int> {
    map k | k in m && p(k) :: m[k]
  }

  ghost function SumWhere<K>(m: map<K, int>, p: K -> bool): int {
    Sum(Where(m, p))
  }

  function At<K>(m: map<K, int>, k: K): int {
    if k in m then m[k] else 0
  }

  /** Any key can be taken out first. */
  lemma {:induction false} SumTakeOut<K>(m: map<K, int>, k: K)
    requires k in m
    ensures Sum(m) == m[k] + Sum(m - {k})
    decreases |m|
  {
    var first :| first in m && Sum(m) == m[first] + Sum(m - {first});
    if first != k {
      SumTakeOut(m - {first}, k);
      SumTakeOut(m - {k}, first);
      assert m - {first} - {k} == m - {k} - {first};
    }
  }

  /** Writing one entry changes the sum by the difference. */
  lemma SumUpdate<K>(m: map<K, int>, k: K, n: int)
    ensures Sum(m[k := n]) == Sum(m) - At(m, k) + n
  {
    var m' := m[k := n];
    SumTakeOut(m', k);
    if k in m {
      SumTakeOut(m, k);
      assert m' - {k} == m - {k};
    } else {
      assert m' - {k} == m;
    }
  }

  /** Writing one entry changes a conditional sum by the difference if the key matches, and not otherwise. */
  lemma SumWhereUpdate<K>(m: map<K, int>, p: K -> bool, k: K, n: int)
    ensures SumWhere(m[k := n], p) == SumWhere(m, p) + if p(k) then n - At(m, k) else 0
  {
    if p(k) {
      assert Where(m[k := n], p) == Where(m, p)[k := n];
      SumUpdate(Where(m, p), k, n);
    } else {
      assert Where(m[k := n], p) == Where(m, p);
    }
  }

  /** Renaming the keys one to one keeps the sum. */
  lemma {:induction false} SumRenamed<K, D>(m: map<K, int>, r: map<D, int>, key: D -> K)
    requires forall d :: d in r ==> key(d) in m && m[key(d)] == r[d]
    requires forall k :: k in m ==> exists d :: d in r && key(d) == k
    requires forall c, d :: c in r && d in r && key(c) == key(d) ==> c == d
    ensures Sum(r) == Sum(m)
    decreases |r|
  {
    if r == map[] {
      assert forall k :: k !in m;
      assert m == map[];
    } else {
      var d :| d in r && Sum(r) == r[d] + Sum(r - {d});
      SumTakeOut(m, key(d));
      var m', r' := m - {key(d)}, r - {d};
      forall k | k in m'
        ensures exists c :: c in r' && key(c) == k
      {
        var c :| c in r && key(c) == k;
        assert c in r';
      }
      SumRenamed(m', r', key);
    }
  }

  lemma SumWhereEmpty<K>(p: K -> bool)
    ensures SumWhere(map[], p) == 0
  {
    assert Where<K>(map[], p) == map[];
  }

  lemma {:induction false} SumNonNegative<K>(m: map<K, int>)
    requires forall k :: k in m ==> m[k] >= 0
    ensures Sum(m) >= 0
    decreases |m|
  {
    if m != map[] {
      var k :| k in m && Sum(m) == m[k] + Sum(m - {k});
      SumNonNegative(m - {k});
    }
  }
}
