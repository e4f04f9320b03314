/** A JavaScript Map: entries in insertion order, updated in place, with distinct keys. */
module OrderedMap {
  import opened Basics

  type Entries<K, V> = seq<(K, V)>

  /** The position of `k`, or the number of entries. */
  function Find<K(==), V>(m: Entries<K, V>, k: K): (i: nat)
    ensures i <= |m|
    ensures i < |m| ==> m[i].0 == k
    ensures forall j :: 0 <= j < i ==> m[j].0 != k
  {
    if m == [] || m[0].0 == k then 0 else 1 + Find(m[1..], k)
  }

  predicate Has<K(==), V>(m: Entries<K, V>, k: K) {
    Find(m, k) < |m|
  }

  function Get<K(==), V>(m: Entries<K, V>, k: K): Option<V> {
    if Has(m, k) then Some(m[Find(m, k)].1) else None
  }

  function Put<K(==), V>(m: Entries<K, V>, k: K, v: V): Entries<K, V> {
    if Has(m, k) then m[Find(m, k) := (k, v)] else m + [(k, v)]
  }

  function Delete<K(==), V>(m: Entries<K, V>, k: K): Entries<K, V> {
    if Has(m, k) then m[..Find(m, k)] + m[Find(m, k) + 1..] else m
  }

  ghost predicate Distinct<K, V>(m: Entries<K, V>) {
    forall i, j :: 0 <= i < j < |m| ==> m[i].0 != m[j].0
  }

  lemma FindAt<K, V>(m: Entries<K, V>, i: nat)
    requires Distinct(m) && i < |m|
    ensures Find(m, m[i].0) == i
  {}

  lemma HasKey<K, V>(m: Entries<K, V>, k: K)
    ensures Has(m, k) <==> exists i :: 0 <= i < |m| && m[i].0 == k
  {}

  lemma PutDistinct<K, V>(m: Entries<K, V>, k: K, v: V)
    requires Distinct(m)
    ensures Distinct(Put(m, k, v))
  {}

  /** A key that is there keeps its place and takes the new value; a new one goes to the end. */
  lemma PutKeepsPlaces<K, V>(m: Entries<K, V>, k: K, v: V, j: K)
    ensures Get(Put(m, k, v), j) == if j == k then Some(v) else Get(m, j)
    ensures |Put(m, k, v)| == |m| + if Has(m, k) then 0 else 1
    ensures forall i :: 0 <= i < |m| ==> Put(m, k, v)[i].0 == m[i].0
  {
    var p, at := Put(m, k, v), Find(m, j);
    FindIs(p, k, Find(m, k));
    if j != k {
      FindIs(p, j, if at < |m| then at else |p|);
    }
  }

  lemma FindIs<K, V>(m: Entries<K, V>, k: K, i: nat)
    requires i <= |m| && (i < |m| ==> m[i].0 == k) && forall j :: 0 <= j < i ==> m[j].0 != k
    ensures Find(m, k) == i
  {}

  lemma DeleteDistinct<K, V>(m: Entries<K, V>, k: K)
    requires Distinct(m)
    ensures Distinct(Delete(m, k)) && !Has(Delete(m, k), k)
    ensures forall e :: e in Delete(m, k) ==> e in m
  {
    HasKey(Delete(m, k), k);
  }
}
