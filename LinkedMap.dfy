/**
 * An insertion-ordered map (java.util.LinkedHashMap, and the Map that the JSON
 * reader builds for an object) as an association list: a sequence of
 * (key, value) pairs in iteration order, with no key twice.
 */
module LinkedMap {
  import opened Wrappers

  /** The keys of `m`, in iteration order. */
  function Keys<K, V>(m: seq<(K, V)>): (ks: seq<K>)
    ensures |ks| == |m|
    ensures forall i :: 0 <= i < |m| ==> ks[i] == m[i].0
  {
    if m == [] then [] else Keys(m[..|m| - 1]) + [m[|m| - 1].0]
  }

  /** The invariant of every Java Map: each key occurs once. */
  predicate DistinctKeys<K(==), V>(m: seq<(K, V)>) {
    forall i, j :: 0 <= i < j < |m| ==> m[i].0 != m[j].0
  }

  /** Map.get: the value stored under `k`, or `None` when `k` is absent. */
  function Get<K(==), V>(m: seq<(K, V)>, k: K): (r: Option<V>)
    ensures r.None? <==> k !in Keys(m)
    ensures r.Some? ==> (k, r.value) in m
  {
    if m == [] then None
    else if m[|m| - 1].0 == k then Some(m[|m| - 1].1)
    else Get(m[..|m| - 1], k)
  }

  /** The position of `k` in iteration order. */
  function IndexOf<K(==), V>(m: seq<(K, V)>, k: K): (i: nat)
    requires k in Keys(m)
    ensures i < |m| && m[i].0 == k
  {
    if m[|m| - 1].0 == k then |m| - 1 else IndexOf(m[..|m| - 1], k)
  }

  /**
   * LinkedHashMap.put: a key already present keeps its position and takes the
   * new value; a new key is appended at the end of the iteration order.
   */
  function Put<K(==, !new), V>(m: seq<(K, V)>, k: K, v: V): (r: seq<(K, V)>)
    requires DistinctKeys(m)
    ensures DistinctKeys(r)
    ensures Get(r, k) == Some(v)
    ensures forall k' :: k' != k ==> Get(r, k') == Get(m, k')
    ensures Keys(r) == if k in Keys(m) then Keys(m) else Keys(m) + [k]
  {
    if k in Keys(m) then
      var i := IndexOf(m, k);
      ReplaceLookup(m, i, v);
      m[i := (k, v)]
    else
      AppendLookup(m, k, v);
      m + [(k, v)]
  }

  /** Replacing the value at an existing key's position. */
  lemma ReplaceLookup<K, V>(m: seq<(K, V)>, i: nat, v: V)
    requires DistinctKeys(m) && i < |m|
    ensures var r := m[i := (m[i].0, v)];
      DistinctKeys(r) && Keys(r) == Keys(m) && Get(r, m[i].0) == Some(v) &&
      forall k' :: k' != m[i].0 ==> Get(r, k') == Get(m, k')
  {
  }

  /** Appending a key that is not yet present. */
  lemma AppendLookup<K, V>(m: seq<(K, V)>, k: K, v: V)
    requires DistinctKeys(m) && k !in Keys(m)
    ensures var r := m + [(k, v)];
      DistinctKeys(r) && Keys(r) == Keys(m) + [k] && Get(r, k) == Some(v) &&
      forall k' :: k' != k ==> Get(r, k') == Get(m, k')
  {
  }
}
