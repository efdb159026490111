/**
 * A JavaScript `Map`: key/value entries kept in the order their keys were
 * first set. Setting a key already present replaces its value where it
 * stands; setting a new key appends it. Iteration walks the entries in
 * that order. Keys are compared by identity (SameValueZero); the model
 * compares them by value, so a key type stands for object identities where
 * the source keys by reference.
 */
module JsMap {
  import opened Base

  datatype Map<K, V> = Map(entries: seq<(K, V)>)

  function Keys<K, V>(m: Map<K, V>): (ks: seq<K>)
    ensures |ks| == |m.entries|
    ensures forall i :: 0 <= i < |ks| ==> ks[i] == m.entries[i].0
  {
    seq(|m.entries|, i requires 0 <= i < |m.entries| => m.entries[i].0)
  }

  /** No key is listed twice. */
  predicate Wf<K(==), V>(m: Map<K, V>) {
    forall i, j :: 0 <= i < j < |m.entries| ==> m.entries[i].0 != m.entries[j].0
  }

  function Empty<K, V>(): (m: Map<K, V>)
    ensures Wf(m) && |m.entries| == 0
  {
    Map([])
  }

  /** The position of `k` among the entries, if it is there. */
  function IndexOf<K(==), V>(m: Map<K, V>, k: K): (r: Option<nat>)
    ensures r.None? <==> k !in Keys(m)
    ensures r.Some? ==> r.value < |m.entries| && m.entries[r.value].0 == k
    ensures r.Some? ==> forall i :: 0 <= i < r.value ==> m.entries[i].0 != k
  {
    IndexFrom(m.entries, k, 0)
  }

  function IndexFrom<K(==), V>(es: seq<(K, V)>, k: K, i: nat): (r: Option<nat>)
    requires i <= |es|
    requires forall j :: 0 <= j < i ==> es[j].0 != k
    ensures r.None? <==> forall j :: 0 <= j < |es| ==> es[j].0 != k
    ensures r.Some? ==> i <= r.value < |es| && es[r.value].0 == k
    ensures r.Some? ==> forall j :: 0 <= j < r.value ==> es[j].0 != k
    decreases |es| - i
  {
    if i == |es| then None
    else if es[i].0 == k then Some(i)
    else IndexFrom(es, k, i + 1)
  }

  /** `m.get(k)`: the value stored under `k`, or None (JavaScript's `undefined`). */
  function Get<K(==), V>(m: Map<K, V>, k: K): (r: Option<V>)
    ensures r.None? <==> k !in Keys(m)
    ensures r.Some? ==> exists i :: 0 <= i < |m.entries| && m.entries[i] == (k, r.value)
  {
    match IndexOf(m, k)
    case None => None
    case Some(i) => Some(m.entries[i].1)
  }

  /** `m.set(k, v)`: replace the value of `k` in place, or append a new entry. */
  function Set<K(==), V>(m: Map<K, V>, k: K, v: V): (r: Map<K, V>)
    ensures k in Keys(m) ==> Keys(r) == Keys(m)
    ensures k !in Keys(m) ==> Keys(r) == Keys(m) + [k]
    ensures Get(r, k) == Some(v)
  {
    match IndexOf(m, k)
    case None =>
      var r := Map(m.entries + [(k, v)]);
      assert r.entries[|m.entries|] == (k, v);
      assert IndexOf(r, k) == Some(|m.entries|);
      r
    case Some(i) =>
      var r := Map(m.entries[i := (k, v)]);
      assert r.entries[i] == (k, v);
      assert IndexOf(r, k) == Some(i);
      r
  }

  lemma SetKeepsWf<K, V>(m: Map<K, V>, k: K, v: V)
    requires Wf(m)
    ensures Wf(Set(m, k, v))
  {
    var r := Set(m, k, v);
    assert Keys(r) == Keys(m) || Keys(r) == Keys(m) + [k];
    forall i, j | 0 <= i < j < |r.entries|
      ensures r.entries[i].0 != r.entries[j].0
    {
      assert Keys(r)[i] == r.entries[i].0 && Keys(r)[j] == r.entries[j].0;
    }
  }

  /** In a map that lists each key once, `get` finds exactly the stored entry. */
  lemma GetFindsEntry<K, V>(m: Map<K, V>, k: K, v: V)
    requires Wf(m)
    ensures Get(m, k) == Some(v) <==> (k, v) in m.entries
  {
    if (k, v) in m.entries {
      var i :| 0 <= i < |m.entries| && m.entries[i] == (k, v);
      assert k in Keys(m) by {
        assert Keys(m)[i] == k;
      }
      var p := IndexOf(m, k).value;
      assert p == i;
    }
  }

  /** After `set(k, v)`, `get(k)` answers `v`, and every other key answers as before. */
  lemma GetAfterSet<K, V>(m: Map<K, V>, k: K, v: V, other: K)
    requires Wf(m)
    ensures Get(Set(m, k, v), k) == Some(v)
    ensures other != k ==> Get(Set(m, k, v), other) == Get(m, other)
  {
    var r := Set(m, k, v);
    SetKeepsWf(m, k, v);
    assert (k, v) in r.entries;
    GetFindsEntry(r, k, v);
    if other != k {
      if Get(m, other).Some? {
        var w := Get(m, other).value;
        GetFindsEntry(m, other, w);
        var i :| 0 <= i < |m.entries| && m.entries[i] == (other, w);
        assert r.entries[i] == (other, w);
        GetFindsEntry(r, other, w);
      } else {
        assert other !in Keys(r);
      }
    }
  }

  /** After `set(k, v)` the map holds the entry `(k, v)`. */
  lemma SetHolds<K, V>(m: Map<K, V>, k: K, v: V)
    ensures (k, v) in Set(m, k, v).entries
  {
    match IndexOf(m, k)
    case None =>
      assert Set(m, k, v).entries[|m.entries|] == (k, v);
    case Some(i) =>
      assert Set(m, k, v).entries[i] == (k, v);
  }

  /** `set(k, v)` keeps every entry of another key. */
  lemma SetKeeps<K, V>(m: Map<K, V>, k: K, v: V, e: (K, V))
    requires e in m.entries && e.0 != k
    ensures e in Set(m, k, v).entries
  {
    var i :| 0 <= i < |m.entries| && m.entries[i] == e;
    assert Set(m, k, v).entries[i] == e;
  }
}
