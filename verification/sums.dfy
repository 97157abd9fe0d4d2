/**
 Weighted totals over finite maps.  The order books state their invariants as
 totals over live orders and over queue lists, so one notion of total serves
 every module.
 */
module Sums {

  /** The sum of `w(k, m[k])` over all keys `k` of `m`. */
  ghost function Total<K, V>(m: map<K, V>, w: (K, V) -> nat): nat
    decreases |m|
  {
    if m == map[] then 0 else
    var k :| k in m;
    w(k, m[k]) + Total(m - {k}, w)
  }

  /** Any key may be taken out first. */
  lemma {:induction false} TotalRemove<K, V>(m: map<K, V>, w: (K, V) -> nat, k: K)
    requires k in m
    ensures Total(m, w) == w(k, m[k]) + Total(m - {k}, w)
    decreases |m|
  {
    var k0 :| k0 in m && Total(m, w) == w(k0, m[k0]) + Total(m - {k0}, w);
    if k0 != k {
      TotalRemove(m - {k0}, w, k);
      TotalRemove(m - {k}, w, k0);
      assert (m - {k0}) - {k} == (m - {k}) - {k0};
    }
  }

  lemma TotalUpdate<K, V>(m: map<K, V>, w: (K, V) -> nat, k: K, v: V)
    ensures Total(m[k := v], w) == w(k, v) + Total(m - {k}, w)
    ensures k !in m ==> Total(m[k := v], w) == w(k, v) + Total(m, w)
    ensures k in m ==> Total(m[k := v], w) + w(k, m[k]) == w(k, v) + Total(m, w)
  {
    TotalRemove(m[k := v], w, k);
    assert m[k := v] - {k} == m - {k};
    if k in m {
      TotalRemove(m, w, k);
    } else {
      assert m - {k} == m;
    }
  }

  /** A pointwise larger weight has a larger total, and the totals agree exactly when the weights do. */
  lemma {:induction false} TotalDominates<K, V>(m: map<K, V>, w: (K, V) -> nat, u: (K, V) -> nat)
    requires forall k :: k in m ==> u(k, m[k]) <= w(k, m[k])
    ensures Total(m, u) <= Total(m, w)
    ensures Total(m, u) == Total(m, w) <==> forall k :: k in m ==> u(k, m[k]) == w(k, m[k])
    decreases |m|
  {
    if m == map[] {
    } else {
      var k0 :| k0 in m;
      TotalRemove(m, w, k0);
      TotalRemove(m, u, k0);
      TotalDominates(m - {k0}, w, u);
      assert forall k :: k in m ==> k == k0 || (k in m - {k0} && (m - {k0})[k] == m[k]);
    }
  }
}
