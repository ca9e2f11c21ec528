/** A JavaScript `Map`: an association list in insertion order, where setting a present key keeps its place. */
module InsertionMap {
  import opened Options

  datatype Pair<K, V> = Pair(key: K, value: V)

  function Get<K(==), V>(m: seq<Pair<K, V>>, k: K): Option<V> {
    if m == [] then None
    else if m[0].key == k then Some(m[0].value)
    else Get(m[1..], k)
  }

  predicate Has<K(==), V>(m: seq<Pair<K, V>>, k: K) { Get(m, k).Some? }

  /** No key occurs twice. */
  predicate Distinct<K(==), V>(m: seq<Pair<K, V>>) {
    m == [] || (!Has(m[1..], m[0].key) && Distinct(m[1..]))
  }

  function Set<K(==), V>(m: seq<Pair<K, V>>, k: K, v: V): seq<Pair<K, V>> {
    if m == [] then [Pair(k, v)]
    else if m[0].key == k then [Pair(k, v)] + m[1..]
    else [m[0]] + Set(m[1..], k, v)
  }

  function Delete<K(==), V>(m: seq<Pair<K, V>>, k: K): seq<Pair<K, V>> {
    if m == [] then []
    else if m[0].key == k then m[1..]
    else [m[0]] + Delete(m[1..], k)
  }

  function Keys<K, V>(m: seq<Pair<K, V>>): (keys: seq<K>)
    ensures |keys| == |m|
  {
    if m == [] then [] else [m[0].key] + Keys(m[1..])
  }

  function Values<K, V>(m: seq<Pair<K, V>>): (values: seq<V>)
    ensures |values| == |m|
  {
    if m == [] then [] else [m[0].value] + Values(m[1..])
  }

  lemma {:induction false} GetOfSet<K, V>(m: seq<Pair<K, V>>, k: K, v: V, other: K)
    ensures Get(Set(m, k, v), other) == if other == k then Some(v) else Get(m, other)
  {
    if m != [] && m[0].key != k {
      GetOfSet(m[1..], k, v, other);
      assert Set(m, k, v)[1..] == Set(m[1..], k, v);
    } else if m != [] {
      assert Set(m, k, v)[1..] == m[1..];
    }
  }

  lemma {:induction false} SetKeepsDistinct<K, V>(m: seq<Pair<K, V>>, k: K, v: V)
    requires Distinct(m)
    ensures Distinct(Set(m, k, v))
  {
    if m != [] && m[0].key != k {
      SetKeepsDistinct(m[1..], k, v);
      GetOfSet(m[1..], k, v, m[0].key);
      assert Set(m, k, v)[1..] == Set(m[1..], k, v);
    } else if m != [] {
      assert Set(m, k, v)[1..] == m[1..];
    }
  }

  /** A present key keeps its place, a new one goes last. */
  lemma {:induction false} KeysOfSet<K, V>(m: seq<Pair<K, V>>, k: K, v: V)
    ensures Keys(Set(m, k, v)) == if Has(m, k) then Keys(m) else Keys(m) + [k]
  {
    if m != [] && m[0].key != k {
      KeysOfSet(m[1..], k, v);
      assert Set(m, k, v)[1..] == Set(m[1..], k, v);
    } else if m != [] {
      assert Set(m, k, v)[1..] == m[1..];
    }
  }

  lemma {:induction false} DeleteRemoves<K, V>(m: seq<Pair<K, V>>, k: K, other: K)
    requires Distinct(m)
    ensures Get(Delete(m, k), other) == if other == k then None else Get(m, other)
    ensures |Delete(m, k)| <= |m|
  {
    if m != [] && m[0].key != k {
      DeleteRemoves(m[1..], k, other);
      assert Delete(m, k)[1..] == Delete(m[1..], k);
    }
  }

  lemma {:induction false} DeleteKeepsDistinct<K, V>(m: seq<Pair<K, V>>, k: K)
    requires Distinct(m)
    ensures Distinct(Delete(m, k))
  {
    if m != [] && m[0].key != k {
      DeleteKeepsDistinct(m[1..], k);
      DeleteRemoves(m[1..], k, m[0].key);
      assert Delete(m, k)[1..] == Delete(m[1..], k);
    }
  }

  lemma {:induction false} KeyOfMember<K, V>(m: seq<Pair<K, V>>, i: nat)
    requires Distinct(m) && i < |m|
    ensures Get(m, m[i].key) == Some(m[i].value) && Keys(m)[i] == m[i].key && Values(m)[i] == m[i].value
  {
    if i > 0 {
      KeyOfMember(m[1..], i - 1);
    }
  }
}
