/** Sums of natural weights over the entries of a map and over a multiset. */
module Sums {
  ghost function PickKey<K, V>(m: map<K, V>): (k: K)
    requires m != map[]
    ensures k in m
  {
    var k :| k in m;
    k
  }

  ghost function SumMap<K, V>(m: map<K, V>, w: V -> nat): nat {
    if m == map[] then 0
    else w(m[PickKey(m)]) + SumMap(m - {PickKey(m)}, w)
  }

  lemma {:induction false} SumMapRemove<K, V>(m: map<K, V>, w: V -> nat, k: K)
    requires k in m
    ensures SumMap(m, w) == w(m[k]) + SumMap(m - {k}, w)
  {
    var p := PickKey(m);
    if p != k {
      SumMapRemove(m - {p}, w, k);
      SumMapRemove(m - {k}, w, p);
      assert m - {p} - {k} == m - {k} - {p};
    }
  }

  lemma SumMapUpdate<K, V>(m: map<K, V>, w: V -> nat, k: K, v: V)
    ensures k in m ==> SumMap(m[k := v], w) + w(m[k]) == SumMap(m, w) + w(v)
    ensures k !in m ==> SumMap(m[k := v], w) == SumMap(m, w) + w(v)
  {
    SumMapRemove(m[k := v], w, k);
    if k in m {
      SumMapRemove(m, w, k);
      assert m[k := v] - {k} == m - {k};
    } else {
      assert m[k := v] - {k} == m;
    }
  }

  ghost function PickElement<T>(b: multiset<T>): (t: T)
    requires b != multiset{}
    ensures t in b
  {
    var t :| t in b;
    t
  }

  ghost function SumBag<T>(b: multiset<T>, w: T -> nat): nat
    decreases |b|
  {
    if b == multiset{} then 0
    else w(PickElement(b)) + SumBag(b - multiset{PickElement(b)}, w)
  }

  lemma {:induction false} SumBagRemove<T>(b: multiset<T>, w: T -> nat, t: T)
    requires t in b
    ensures SumBag(b, w) == w(t) + SumBag(b - multiset{t}, w)
    decreases |b|
  {
    var p := PickElement(b);
    if p != t {
      SumBagRemove(b - multiset{p}, w, t);
      SumBagRemove(b - multiset{t}, w, p);
      assert b - multiset{p} - multiset{t} == b - multiset{t} - multiset{p};
    }
  }

  lemma SumBagAdd<T>(b: multiset<T>, w: T -> nat, t: T)
    ensures SumBag(b + multiset{t}, w) == SumBag(b, w) + w(t)
  {
    SumBagRemove(b + multiset{t}, w, t);
    assert b + multiset{t} - multiset{t} == b;
  }
}
