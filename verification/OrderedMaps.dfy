// A JavaScript Map: a dictionary whose entries keep the order in which their keys were first set.
module OrderedMaps {
  import opened Wrappers

  // values[i] belongs to keys[i].
  datatype OrderedMap<K(==), V> = OrderedMap(keys: seq<K>, values: seq<V>) {

    predicate Valid() {
      && |keys| == |values|
      && forall i, j | 0 <= i < j < |keys| :: keys[i] != keys[j]
    }

    predicate Has(key: K) {
      key in keys
    }

    function Get(key: K): Option<V>
      requires Valid()
    {
      if Has(key) then Some(values[IndexOf(keys, key)]) else None
    }

    function Set(key: K, value: V): (result: OrderedMap<K, V>)
      requires Valid()
      ensures result.Valid()
    {
      if Has(key) then
        OrderedMap(keys, values[IndexOf(keys, key) := value])
      else
        OrderedMap(keys + [key], values + [value])
    }
  }

  function IndexOf<K(==)>(keys: seq<K>, key: K): (index: nat)
    requires key in keys
    ensures index < |keys| && keys[index] == key
  {
    if keys[|keys| - 1] == key then |keys| - 1 else IndexOf(keys[..|keys| - 1], key)
  }

  function Empty<K(==), V>(): (result: OrderedMap<K, V>)
    ensures result.Valid()
  {
    OrderedMap([], [])
  }

  // Reading after writing: the written key has the new value, and no other key is touched.
  lemma GetAfterSet<K, V>(entries: OrderedMap<K, V>, key: K, value: V, other: K)
    requires entries.Valid()
    ensures entries.Set(key, value).Get(other) == if other == key then Some(value) else entries.Get(other)
    ensures entries.Set(key, value).Has(other) <==> other == key || entries.Has(other)
  {
  }
}
