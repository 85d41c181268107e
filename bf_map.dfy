/**
 * The association list of examples/bf/src/map.rs: parallel vectors of keys
 * and values, looked up by the first position of a key.
 */
module BfMap {
  import opened Wrappers

  /** `position`: the first index holding `key`. */
  function Position<K(==)>(keys: seq<K>, key: K): (r: Option<nat>)
    ensures r.None? <==> key !in keys
    ensures r.Some? ==> r.value < |keys| && keys[r.value] == key && key !in keys[..r.value]
  {
    if |keys| == 0 then None
    else if keys[0] == key then Some(0)
    else match Position(keys[1..], key)
      case None => None
      case Some(i) =>
        assert keys[..i + 1] == [keys[0]] + keys[1..][..i];
        Some(i + 1)
  }

  /** The value `get` returns: the one at the first position of `key`. */
  function Lookup<K(==), V>(keys: seq<K>, values: seq<V>, key: K): V
    requires |keys| == |values| && key in keys
  {
    values[Position(keys, key).value]
  }

  /** Adding a pair leaves the values of the keys already present as they were. */
  lemma LookupAppendOld<K, V>(keys: seq<K>, values: seq<V>, k: K, v: V, key: K)
    requires |keys| == |values| && key in keys
    ensures Lookup(keys + [k], values + [v], key) == Lookup(keys, values, key)
  {
    var i := Position(keys, key).value;
    var j := Position(keys + [k], key).value;
    assert (keys + [k])[i] == key;
    assert forall t :: 0 <= t < i ==> (keys + [k])[t] == keys[..i][t] != key;
    assert forall t :: 0 <= t < j ==> (keys + [k])[t] == (keys + [k])[..j][t] != key;
  }

  /** A new key added at the end is found with its value. */
  lemma LookupAppendNew<K, V>(keys: seq<K>, values: seq<V>, k: K, v: V)
    requires |keys| == |values| && k !in keys
    ensures Lookup(keys + [k], values + [v], k) == v
  {
    var j := Position(keys + [k], k).value;
    assert forall t :: 0 <= t < |keys| ==> (keys + [k])[t] == keys[t] != k;
  }

  /** Writing through `get_mut(key)` changes the value of `key` and of no other key. */
  lemma LookupUpdate<K, V>(keys: seq<K>, values: seq<V>, key: K, v: V, other: K)
    requires |keys| == |values| && key in keys && other in keys
    ensures Lookup(keys, values[Position(keys, key).value := v], other) ==
      if other == key then v else Lookup(keys, values, other)
  {
  }

  class Map<K(==), V> {
    var keys: seq<K>
    var values: seq<V>

    predicate Valid()
      reads this
    {
      |keys| == |values|
    }

    /** `new`: the `assert_eq!` demands as many values as keys. */
    constructor (keys: seq<K>, values: seq<V>)
      requires |keys| == |values|
      ensures Valid() && this.keys == keys && this.values == values
    {
      this.keys := keys;
      this.values := values;
    }

    /** `add`: a new pair at the end, even when the key is already present. */
    method Add(key: K, value: V)
      requires Valid()
      modifies this
      ensures Valid() && keys == old(keys) + [key] && values == old(values) + [value]
      ensures |keys| == |old(keys)| + 1
    {
      keys := keys + [key];
      values := values + [value];
    }

    function Len(): (n: nat)
      reads this
      ensures n == |keys|
    {
      |keys|
    }

    function IsEmpty(): (b: bool)
      reads this
      ensures b <==> |keys| == 0
    {
      |keys| == 0
    }

    /** `get`: panics when the key is absent. */
    method Get(key: K) returns (v: V)
      requires Valid() && key in keys
      ensures v == Lookup(keys, values, key)
    {
      var i := Position(keys, key).value;
      v := values[i];
    }

    /** `get_mut` followed by a write of `value` through the returned reference. */
    method GetMut(key: K, value: V)
      requires Valid() && key in keys
      modifies this
      ensures Valid() && keys == old(keys)
      ensures values == old(values)[Position(keys, key).value := value]
    {
      var i := Position(keys, key).value;
      values := values[i := value];
    }
  }
}
