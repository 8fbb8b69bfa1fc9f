/**
  Maps that iterate in insertion order: a map and the sequence of its keys.
 */
module OrderedMaps {

  datatype OMap<K(==), V> = OMap(m: map<K, V>, keys: seq<K>) {

    /** keys lists every key of m once. */
    ghost predicate Valid() {
      && m.Keys == (set k | k in keys)
      && (forall i, j :: 0 <= i < j < |keys| ==> keys[i] != keys[j])
    }

    predicate Has(k: K) {
      k in m
    }

    /** A new key goes to the end of the order; an existing key keeps its position. */
    function Set(k: K, v: V): (r: OMap<K, V>)
      ensures Valid() ==> r.Valid()
      ensures keys <= r.keys && r.m.Keys == m.Keys + {k}
      ensures r.m[k] == v && forall x :: x in m && x != k ==> r.m[x] == m[x]
    {
      OMap(m[k := v], if k in m then keys else keys + [k])
    }
  }

  function Empty<K(==), V>(): (r: OMap<K, V>)
    ensures r.Valid()
  {
    OMap(map[], [])
  }

  /** The position of k in the iteration order. */
  function IndexOf<K(==)>(keys: seq<K>, k: K): (i: nat)
    requires k in keys
    ensures i < |keys| && keys[i] == k
    ensures forall j :: 0 <= j < i ==> keys[j] != k
  {
    if keys[0] == k then 0 else 1 + IndexOf(keys[1..], k)
  }
}
