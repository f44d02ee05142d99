/** Finite sums over the values of a map; the registry and the usage statistics keep
    redundant counters whose meaning is such a sum. */
module MapSums {

  /** The sum of all values of m, whatever order the keys are visited in. */
  ghost function Sum<K(!new)>(m: map<K, int>): int
  {
    if m == map[] then 0
    else
      var k :| k in m;
      m[k] + Sum(m - {k})
  }

  /** Any key can be split off first, so the visiting order does not matter. */
  lemma {:induction false} SumSplit<K(!new)>(m: map<K, int>, k: K)
    requires k in m
    ensures Sum(m) == m[k] + Sum(m - {k})
    decreases |m|
  {
    var j :| j in m && Sum(m) == m[j] + Sum(m - {j});
    if j != k {
      SumSplit(m - {j}, k);
      SumSplit(m - {k}, j);
      assert m - {j} - {k} == m - {k} - {j};
    }
  }

  /** Writing one key changes the sum by the difference at that key. */
  lemma SumUpdate<K(!new)>(m: map<K, int>, k: K, v: int)
    ensures Sum(m[k := v]) == Sum(m) + v - (if k in m then m[k] else 0)
  {
    var m' := m[k := v];
    SumSplit(m', k);
    if k in m {
      SumSplit(m, k);
      assert m' - {k} == m - {k};
    } else {
      assert m' - {k} == m;
    }
  }

  lemma {:induction false} SumNonNegative<K(!new)>(m: map<K, int>)
    requires forall k :: k in m ==> m[k] >= 0
    ensures Sum(m) >= 0
    ensures forall k :: k in m ==> m[k] <= Sum(m)
    decreases |m|
  {
    forall k | k in m
      ensures 0 <= m[k] <= Sum(m)
    {
      SumSplit(m, k);
      SumNonNegative(m - {k});
    }
    if m == map[] {
      assert Sum(m) == 0;
    } else {
      var k :| k in m;
    }
  }

  /** A sum of non-negative values vanishes exactly when all values do. */
  lemma {:induction false} SumZero<K(!new)>(m: map<K, int>)
    requires forall k :: k in m ==> m[k] >= 0
    ensures Sum(m) == 0 <==> forall k :: k in m ==> m[k] == 0
    decreases |m|
  {
    if m == map[] {
    } else {
      var k :| k in m && Sum(m) == m[k] + Sum(m - {k});
      SumNonNegative(m - {k});
      SumZero(m - {k});
      if forall j :: j in m - {k} ==> (m - {k})[j] == 0 {
        forall j | j in m && m[k] == 0 ensures m[j] == 0 {
          if j != k { assert j in m - {k}; }
        }
      }
    }
  }

  function Values<K, V>(m: map<K, V>, f: V -> int): map<K, int> {
    map k | k in m :: f(m[k])
  }

  /** The total of f over the values of m. */
  ghost function SumOf<K(!new), V>(m: map<K, V>, f: V -> int): int {
    Sum(Values(m, f))
  }

  lemma SumOfUpdate<K(!new), V>(m: map<K, V>, k: K, v: V, f: V -> int)
    ensures SumOf(m[k := v], f) == SumOf(m, f) + f(v) - (if k in m then f(m[k]) else 0)
  {
    SumUpdate(Values(m, f), k, f(v));
    assert Values(m[k := v], f) == Values(m, f)[k := f(v)];
  }

  lemma SumOfNone<K(!new), V>(f: V -> int)
    ensures SumOf<K, V>(map[], f) == 0
  {
    assert Values<K, V>(map[], f) == map[];
  }

  /** The total of f over a set. */
  ghost function SumOver<T(!new)>(s: set<T>, f: T -> int): int {
    Sum(Weighted(s, f))
  }

  function Weighted<T>(s: set<T>, f: T -> int): map<T, int> {
    map x | x in s :: f(x)
  }

  lemma SumOverMore<T(!new)>(s: set<T>, x: T, f: T -> int)
    requires x !in s
    ensures SumOver(s + {x}, f) == SumOver(s, f) + f(x)
  {
    SumUpdate(Weighted(s, f), x, f(x));
    assert Weighted(s + {x}, f) == Weighted(s, f)[x := f(x)];
  }

  lemma {:induction false} SumOverUnion<T(!new)>(a: set<T>, b: set<T>, f: T -> int)
    requires a !! b
    ensures SumOver(a + b, f) == SumOver(a, f) + SumOver(b, f)
    decreases |b|
  {
    if b == {} {
      assert a + b == a;
      assert Weighted(b, f) == map[];
    } else {
      var x :| x in b;
      SumOverMore(a, x, f);
      SumOverMore(b - {x}, x, f);
      SumOverUnion(a + {x}, b - {x}, f);
      assert a + {x} + (b - {x}) == a + b;
      assert b - {x} + {x} == b;
    }
  }
}
