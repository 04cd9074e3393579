/** Sums over the values of a finite map, independent of the order in which they are added. */
module Sums {

  ghost function Total<K>(m: map<K, int>): int
    decreases |m|
  {
    if m == map[] then 0 else
      var k :| k in m;
      m[k] + Total(m - {k})
  }

  /** Any key may be taken out first. */
  lemma {:induction false} TotalWithout<K>(m: map<K, int>, k: K)
    requires k in m
    ensures Total(m) == m[k] + Total(m - {k})
    decreases |m|
  {
    var j :| j in m && Total(m) == m[j] + Total(m - {j});
    if j != k {
      TotalWithout(m - {j}, k);
      TotalWithout(m - {k}, j);
      assert m - {j} - {k} == m - {k} - {j};
    }
  }

  lemma TotalUpdate<K>(m: map<K, int>, k: K, v: int)
    ensures Total(m[k := v]) == Total(m - {k}) + v
  {
    TotalWithout(m[k := v], k);
    assert m[k := v] - {k} == m - {k};
  }

  predicate Nonnegative<K>(m: map<K, int>) {
    forall k :: k in m ==> m[k] >= 0
  }

  lemma {:induction false} TotalNonnegative<K>(m: map<K, int>)
    requires Nonnegative(m)
    ensures Total(m) >= 0
    decreases |m|
  {
    if m != map[] {
      var k :| k in m && Total(m) == m[k] + Total(m - {k});
      TotalNonnegative(m - {k});
    }
  }

  /** Dropping entries from a map without negative values can only lower its sum. */
  lemma {:induction false} TotalSubset<K>(small: map<K, int>, big: map<K, int>)
    requires Nonnegative(big)
    requires forall k :: k in small ==> k in big && big[k] == small[k]
    ensures Total(small) <= Total(big)
    decreases |big|
  {
    if small == map[] {
      TotalNonnegative(big);
    } else {
      var k :| k in small;
      TotalWithout(small, k);
      TotalWithout(big, k);
      TotalSubset(small - {k}, big - {k});
    }
  }

  /** A sum of at most `n` values, each between 0 and `top`, is at most `n * top`. */
  lemma {:induction false} TotalBound<K>(m: map<K, int>, n: nat, top: int)
    requires |m| <= n && top >= 0
    requires forall k :: k in m ==> m[k] <= top
    ensures Total(m) <= n * top
    decreases |m|
  {
    if m != map[] {
      var k :| k in m && Total(m) == m[k] + Total(m - {k});
      assert |m - {k}| == |m| - 1;
      TotalBound(m - {k}, n - 1, top);
      assert n * top == (n - 1) * top + top;
    }
  }

  function Members<T(==)>(s: seq<T>): set<T> {
    set x | x in s
  }

  /** A set of indices below `n` has at most `n` members. */
  lemma {:induction false} IndexSetBound(s: set<nat>, n: nat)
    requires forall i :: i in s ==> i < n
    ensures |s| <= n
    decreases n
  {
    if n == 0 {
      assert s == {};
    } else {
      IndexSetBound(s - {n - 1}, n - 1);
    }
  }

  lemma ProductNonnegative(x: int, y: int)
    requires x >= 0 && y >= 0
    ensures x * y >= 0
  {
  }
}
