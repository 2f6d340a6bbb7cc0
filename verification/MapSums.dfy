/** Adding up a measure over the values of a finite map. */
module MapSums {

  ghost function SumBy<K, V>(f: V -> nat, m: map<K, V>): nat {
    if m == map[] then 0
    else
      var k :| k in m;
      f(m[k]) + SumBy(f, m - {k})
  }

  /** The order in which keys are taken does not matter. */
  lemma {:induction false} SumBySplit<K, V>(f: V -> nat, m: map<K, V>, k: K)
    requires k in m
    ensures SumBy(f, m) == f(m[k]) + SumBy(f, m - {k})
    decreases |m|
  {
    var j :| j in m && SumBy(f, m) == f(m[j]) + SumBy(f, m - {j});
    if j != k {
      SumBySplit(f, m - {j}, k);
      SumBySplit(f, m - {k}, j);
      assert m - {j} - {k} == m - {k} - {j};
    }
  }

  ghost function At<K, V>(f: V -> nat, m: map<K, V>, k: K): nat {
    if k in m then f(m[k]) else 0
  }

  lemma SumByRemove<K, V>(f: V -> nat, m: map<K, V>, k: K)
    ensures SumBy(f, m) == At(f, m, k) + SumBy(f, m - {k})
  {
    if k in m {
      SumBySplit(f, m, k);
    } else {
      assert m - {k} == m;
    }
  }

  lemma SumBySet<K, V>(f: V -> nat, m: map<K, V>, k: K, v: V)
    ensures SumBy(f, m[k := v]) + At(f, m, k) == SumBy(f, m) + f(v)
  {
    SumBySplit(f, m[k := v], k);
    assert m[k := v] - {k} == m - {k};
    SumByRemove(f, m, k);
  }

  lemma RemoveFromUnion<K, V>(a: map<K, V>, b: map<K, V>, k: K)
    requires a.Keys !! b.Keys && k in a
    ensures a + b - {k} == (a - {k}) + b
  {
  }

  lemma {:induction false} SumByUnion<K, V>(f: V -> nat, a: map<K, V>, b: map<K, V>)
    requires a.Keys !! b.Keys
    ensures SumBy(f, a + b) == SumBy(f, a) + SumBy(f, b)
    decreases a.Keys
  {
    if a.Keys == {} {
      assert a == map[] && a + b == b;
    } else {
      var k :| k in a.Keys;
      SumBySplit(f, a, k);
      SumBySplit(f, a + b, k);
      RemoveFromUnion(a, b, k);
      SumByUnion(f, a - {k}, b);
    }
  }

  /** Two different keys together weigh no more than the whole map. */
  lemma SumByTwo<K, V>(f: V -> nat, m: map<K, V>, j: K, k: K)
    requires j in m && k in m && j != k
    ensures f(m[j]) + f(m[k]) <= SumBy(f, m)
  {
    SumBySplit(f, m, j);
    SumBySplit(f, m - {j}, k);
  }

  /** The values of a map, each as often as it occurs. */
  ghost function Bag<K, V>(m: map<K, V>): multiset<V> {
    if m == map[] then multiset{}
    else
      var k :| k in m;
      multiset{m[k]} + Bag(m - {k})
  }

  ghost function Is<V>(v: V): V -> nat {
    (x: V) => if x == v then 1 else 0
  }

  lemma {:induction false} BagCount<K, V>(m: map<K, V>, v: V)
    ensures Bag(m)[v] == SumBy(Is(v), m)
    decreases |m|
  {
    if m != map[] {
      var k :| k in m && Bag(m) == multiset{m[k]} + Bag(m - {k});
      BagCount(m - {k}, v);
      SumBySplit(Is(v), m, k);
    }
  }

  lemma BagSplitCount<K, V>(m: map<K, V>, k: K, v: V)
    requires k in m
    ensures Bag(m)[v] == Bag(m - {k})[v] + Is(v)(m[k])
  {
    BagCount(m, v);
    BagCount(m - {k}, v);
    SumBySplit(Is(v), m, k);
  }

  lemma SameCounts<V>(a: multiset<V>, b: multiset<V>, x: V)
    requires forall v :: a[v] == b[v] + Is(v)(x)
    ensures a == b + multiset{x}
  {
    forall v ensures a[v] == (b + multiset{x})[v] {
      assert a[v] == b[v] + Is(v)(x);
    }
  }

  lemma BagSplit<K, V>(m: map<K, V>, k: K)
    requires k in m
    ensures Bag(m) == Bag(m - {k}) + multiset{m[k]}
  {
    forall v ensures Bag(m)[v] == Bag(m - {k})[v] + Is(v)(m[k]) {
      BagSplitCount(m, k, v);
    }
    SameCounts(Bag(m), Bag(m - {k}), m[k]);
  }

  function Restrict<K, V>(m: map<K, V>, keys: set<K>): map<K, V> {
    map k | k in m && k in keys :: m[k]
  }

  lemma RestrictGrows<K, V>(m: map<K, V>, keys: set<K>, k: K)
    requires k in m && k !in keys
    ensures Restrict(m, keys + {k}) - {k} == Restrict(m, keys)
    ensures k in Restrict(m, keys + {k})
  {
  }
}
