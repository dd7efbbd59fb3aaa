/**
 * A JavaScript `Map`: entries keyed by `K`, iterated in insertion order.
 * `set` on a present key replaces its value in place and keeps its position;
 * on a new key it appends. `getFirstMapElement` (`getFirstMapElement.ts`)
 * reads the value of the earliest-inserted entry.
 */
module OrderedMaps {
  import opened Optional
  import opened Listeners

  /** The keys in insertion order, and the value stored under each. */
  datatype OrderedMap<K(==), V> = OrderedMap(keys: seq<K>, entries: map<K, V>)

  /** Every key appears once in the order, and the order lists exactly the stored keys. */
  predicate Valid<K(==), V>(m: OrderedMap<K, V>)
  {
    && NoDuplicates(m.keys)
    && (forall i :: 0 <= i < |m.keys| ==> m.keys[i] in m.entries)
    && (forall k :: k in m.entries ==> k in m.keys)
  }

  /** `new Map()`. */
  function Empty<K(==), V>(): (r: OrderedMap<K, V>)
    ensures Valid(r) && r.keys == [] && r.entries == map[]
  {
    OrderedMap([], map[])
  }

  /** `map.size`. */
  function Size<K(==), V>(m: OrderedMap<K, V>): nat
  {
    |m.keys|
  }

  /** `map.get(k)`: `None` for `undefined`. */
  function Get<K(==), V>(m: OrderedMap<K, V>, k: K): (r: Option<V>)
    ensures r.Some? <==> k in m.entries
    ensures r.Some? ==> r.value == m.entries[k]
  {
    if k in m.entries then Some(m.entries[k]) else None
  }

  /** `map.set(k, v)`: a present key keeps its position; a new key goes last. */
  function Set<K(==), V>(m: OrderedMap<K, V>, k: K, v: V): (r: OrderedMap<K, V>)
    ensures r.entries == m.entries[k := v]
    ensures k in m.entries ==> r.keys == m.keys
    ensures k !in m.entries ==> r.keys == m.keys + [k]
    ensures Valid(m) ==> Valid(r)
  {
    if k in m.entries then OrderedMap(m.keys, m.entries[k := v])
    else OrderedMap(m.keys + [k], m.entries[k := v])
  }

  /** `map.delete(k)`: the entry leaves; the others keep their order. */
  function Delete<K(==), V>(m: OrderedMap<K, V>, k: K): (r: OrderedMap<K, V>)
    ensures r.entries == m.entries - {k}
    ensures r.keys == Removed(m.keys, k)
    ensures Valid(m) ==> Valid(r)
  {
    KeepsOtherKeys(m.keys, k);
    OrderedMap(Removed(m.keys, k), m.entries - {k})
  }

  lemma KeepsOtherKeys<K>(ks: seq<K>, k: K)
    ensures forall j :: j in ks && j != k ==> j in Removed(ks, k)
  {
    forall j | j in ks && j != k
      ensures j in Removed(ks, k)
    {
      RemovedKeeps(ks, k, j);
    }
  }

  /** `map.values()`, as a sequence in iteration order. */
  function Values<K(==), V>(m: OrderedMap<K, V>): (r: seq<V>)
    requires Valid(m)
    ensures |r| == |m.keys|
    ensures forall i :: 0 <= i < |m.keys| ==> r[i] == m.entries[m.keys[i]]
  {
    seq(|m.keys|, i requires 0 <= i < |m.keys| && Valid(m) => m.entries[m.keys[i]])
  }

  /**
   * `getFirstMapElement`: the value of the earliest-inserted entry, `None`
   * (`undefined`) for an empty map. It is a function of the map, so the map
   * is left as it was.
   */
  function GetFirstMapElement<K(==), V>(m: OrderedMap<K, V>): (r: Option<V>)
    requires Valid(m)
    ensures r.None? <==> m.entries == map[]
    ensures r.Some? ==> m.keys != [] && r.value == m.entries[m.keys[0]]
    ensures r.Some? ==> exists k :: k in m.entries && m.entries[k] == r.value
    ensures r.Some? <==> Values(m) != []
    ensures r.Some? ==> r.value == Values(m)[0]
  {
    if m.keys == [] then
      assert forall k :: k !in m.entries;
      None
    else
      assert m.keys[0] in m.entries;
      Some(m.entries[m.keys[0]])
  }

  /** The key of the earliest-inserted entry, which `close()` acts on. */
  function FirstKey<K(==), V>(m: OrderedMap<K, V>): (r: Option<K>)
    requires Valid(m)
    ensures r.None? <==> m.keys == []
    ensures r.Some? ==> r.value == m.keys[0] && r.value in m.entries
    ensures GetFirstMapElement(m).Some? <==> r.Some?
    ensures r.Some? ==> GetFirstMapElement(m).value == m.entries[r.value]
  {
    if m.keys == [] then None else Some(m.keys[0])
  }

  /** Building a map by inserting `k1` then `k2` (distinct) puts `k1` first, as the source's own test does. */
  lemma FirstAfterTwoInserts<K, V>(k1: K, v1: V, k2: K, v2: V)
    requires k1 != k2
    ensures GetFirstMapElement(Set(Set(Empty(), k1, v1), k2, v2)) == Some(v1)
  {
  }

  /** Overwriting an entry or adding a new one never changes which entry is first, unless the map was empty. */
  lemma FirstStableUnderSet<K, V>(m: OrderedMap<K, V>, k: K, v: V)
    requires Valid(m) && m.keys != []
    ensures FirstKey(Set(m, k, v)) == FirstKey(m)
  {
  }

  /** Deleting the first key makes the second-inserted entry the first. */
  lemma FirstAfterDeletingFirst<K, V>(m: OrderedMap<K, V>)
    requires Valid(m) && |m.keys| >= 2
    ensures FirstKey(Delete(m, m.keys[0])) == Some(m.keys[1])
  {
    RemovedAt(m.keys, m.keys[0], 0);
    assert Removed(m.keys, m.keys[0])[0] == m.keys[1];
  }

  /** Deleting the key at position `i` moves every later key one place forward, with its value. */
  lemma DeleteShift<K, V>(m: OrderedMap<K, V>, i: nat)
    requires Valid(m) && i < |m.keys|
    ensures var r := Delete(m, m.keys[i]);
      && r.keys == m.keys[..i] + m.keys[i + 1..]
      && (forall j :: 0 <= j < i ==> r.keys[j] == m.keys[j] && r.entries[r.keys[j]] == m.entries[m.keys[j]])
      && (forall j :: i < j < |m.keys| ==> r.keys[j - 1] == m.keys[j] && r.entries[r.keys[j - 1]] == m.entries[m.keys[j]])
  {
    var r := Delete(m, m.keys[i]);
    RemovedAt(m.keys, m.keys[i], i);
    forall j | 0 <= j < i
      ensures r.keys[j] == m.keys[j] && r.entries[r.keys[j]] == m.entries[m.keys[j]]
    {
      assert m.keys[j] != m.keys[i];
    }
    forall j | i < j < |m.keys|
      ensures r.keys[j - 1] == m.keys[j] && r.entries[r.keys[j - 1]] == m.entries[m.keys[j]]
    {
      assert m.keys[j] != m.keys[i];
    }
  }
}
