/**
 * The JavaScript `Map` the handlers build: lookups by key, plus the order in
 * which keys were first inserted, which `values()` and `forEach` follow.
 */
module OrderedMaps {
  import opened Sequences

  datatype OrderedMap<K, V> = OrderedMap(keys: seq<K>, entries: map<K, V>)
  {
    /** Every key is listed once in `keys`, and `keys` lists exactly the stored keys. */
    ghost predicate Valid()
    {
      && NoDuplicates(keys)
      && (forall i :: 0 <= i < |keys| ==> keys[i] in entries)
      && (forall k :: k in entries ==> k in keys)
    }

    predicate Has(k: K)
    {
      k in entries
    }

    function Get(k: K): V
      requires Has(k)
    {
      entries[k]
    }

    /**
     * `Map.prototype.set`: a key already present keeps its place in the
     * iteration order and only its value changes; a new key goes last.
     */
    function Set(k: K, v: V): (m: OrderedMap<K, V>)
      ensures m.entries == entries[k := v]
      ensures Has(k) ==> m.keys == keys
      ensures !Has(k) ==> m.keys == keys + [k]
    {
      if k in entries then OrderedMap(keys, entries[k := v])
      else OrderedMap(keys + [k], entries[k := v])
    }

    /** `[...m.values()]`: the values in key insertion order. */
    function Values(): (vs: seq<V>)
      requires Valid()
      ensures |vs| == |keys|
      ensures forall i :: 0 <= i < |keys| ==> vs[i] == entries[keys[i]]
    {
      seq(|keys|, i requires 0 <= i < |keys| => entries[keys[i]])
    }
  }

  /** `new Map()` */
  function Empty<K, V>(): (m: OrderedMap<K, V>)
    ensures m.Valid() && m.keys == [] && m.entries == map[]
  {
    OrderedMap([], map[])
  }

  /** Setting a key keeps the map well formed. */
  lemma SetValid<K, V>(m: OrderedMap<K, V>, k: K, v: V)
    requires m.Valid()
    ensures m.Set(k, v).Valid()
  {
  }

  /** Setting a stored key changes its value in place in `values()`. */
  lemma ValuesSetExisting<K, V>(m: OrderedMap<K, V>, k: K, v: V, p: nat)
    requires m.Valid() && p < |m.keys| && m.keys[p] == k
    ensures m.Set(k, v).Values() == m.Values()[p := v]
  {
  }

  /** Setting a new key appends its value to `values()`. */
  lemma ValuesSetNew<K, V>(m: OrderedMap<K, V>, k: K, v: V)
    requires m.Valid() && !m.Has(k)
    ensures m.Set(k, v).Values() == m.Values() + [v]
  {
  }

  /** The position of a stored key in the iteration order. */
  lemma KeyPosition<K, V>(m: OrderedMap<K, V>, k: K) returns (p: nat)
    requires m.Valid() && m.Has(k)
    ensures p < |m.keys| && m.keys[p] == k
  {
    p :| 0 <= p < |m.keys| && m.keys[p] == k;
  }

  /** Setting a key first seen at the end of `s` keeps `keys` in first-occurrence order. */
  lemma SetKeepsFirstOccurrenceOrder<K, V>(m: OrderedMap<K, V>, s: seq<K>, k: K, v: V)
    requires m.Valid() && FirstOccurrenceOrder(m.keys, s)
    ensures FirstOccurrenceOrder(m.Set(k, v).keys, s + [k])
  {
    if m.Has(k) {
      FirstOccurrenceOrderAppendSeen(m.keys, s, k);
    } else {
      FirstOccurrenceOrderAppendNew(m.keys, s, k);
    }
  }
}
