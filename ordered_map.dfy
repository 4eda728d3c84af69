/**
 * A JavaScript `Map` keyed by string ids: the keys in insertion order, and the value
 * stored under each. `set` overwrites the value of an existing key, which keeps its
 * place, and appends a new key at the end; `get` returns `undefined` (None) for a
 * missing key; iteration over `entries()` and `values()` follows the key order.
 */
module OrderedMap {
  import opened Wrappers

  type Key = string

  datatype Map<V> = Map(keys: seq<Key>, values: map<Key, V>)

  predicate Distinct(ks: seq<Key>) {
    forall i, j :: 0 <= i < j < |ks| ==> ks[i] != ks[j]
  }

  /** What every JavaScript Map satisfies: no key occurs twice, and every key has a value. */
  predicate Valid<V>(m: Map<V>) {
    && Distinct(m.keys)
    && (forall k :: k in m.values ==> k in m.keys)
    && (forall i :: 0 <= i < |m.keys| ==> m.keys[i] in m.values)
  }

  /** `new Map()`. */
  function Empty<V>(): (r: Map<V>)
    ensures r.keys == [] && r.values == map[] && Valid(r)
  {
    Map([], map[])
  }

  /** `map.get(k)`. */
  function Get<V>(m: Map<V>, k: Key): (r: Option<V>)
    ensures r.Some? <==> k in m.values
  {
    if k in m.values then Some(m.values[k]) else None
  }

  /**
   * `map.set(k, v)`: `k` maps to `v` afterwards and every other key keeps its value;
   * a new key goes to the end of the key order, an existing one stays where it is.
   */
  function Set<V>(m: Map<V>, k: Key, v: V): (r: Map<V>)
    ensures Get(r, k) == Some(v)
    ensures forall k' :: k' != k ==> Get(r, k') == Get(m, k')
  {
    Map(if k in m.values then m.keys else m.keys + [k], m.values[k := v])
  }

  /** `set` keeps a Map well-formed. */
  lemma SetValid<V>(m: Map<V>, k: Key, v: V)
    requires Valid(m)
    ensures Valid(Set(m, k, v))
  {
  }

  /** `Array.from(map.values())`: the values in key order. */
  function Values<V>(m: Map<V>): (vs: seq<V>)
    requires Valid(m)
    ensures |vs| == |m.keys|
    ensures forall i :: 0 <= i < |m.keys| ==> Get(m, m.keys[i]) == Some(vs[i])
  {
    seq(|m.keys|, i requires 0 <= i < |m.keys| => m.values[m.keys[i]])
  }

  /** The value under `k`, or 0 for a key without one. */
  function ValueOrZero(vs: map<Key, real>, k: Key): real {
    if k in vs then vs[k] else 0.0
  }

  /** The sum of the values under the keys `ks`. */
  function SumOver(ks: seq<Key>, vs: map<Key, real>): real {
    if ks == [] then 0.0 else SumOver(ks[..|ks| - 1], vs) + ValueOrZero(vs, ks[|ks| - 1])
  }

  /** The sum of the values of a balance map. */
  function SumValues(m: Map<real>): real {
    SumOver(m.keys, m.values)
  }

  /** Changing the value of one key changes a sum over distinct keys by that change, if the key is summed. */
  lemma {:induction false} SumOverUpdate(ks: seq<Key>, vs: map<Key, real>, k: Key, v: real)
    requires Distinct(ks)
    ensures SumOver(ks, vs[k := v]) == SumOver(ks, vs) + if k in ks then v - ValueOrZero(vs, k) else 0.0
  {
    if ks != [] {
      var init, last := ks[..|ks| - 1], ks[|ks| - 1];
      assert Distinct(init);
      SumOverUpdate(init, vs, k, v);
      assert k in ks <==> k in init || k == last;
      assert k == last ==> k !in init;
    }
  }

  /** Adding `a` to the value of `k` (0 when it has none) adds `a` to the sum. */
  lemma SumValuesAdd(m: Map<real>, k: Key, v: real, a: real)
    requires Valid(m) && v == Get(m, k).GetOr(0.0) + a
    ensures SumValues(Set(m, k, v)) == SumValues(m) + a
  {
    SumValuesSet(m, k, v);
  }

  /** Overwriting (or adding) one key changes the sum by exactly the change of that value. */
  lemma SumValuesSet(m: Map<real>, k: Key, v: real)
    requires Valid(m)
    ensures SumValues(Set(m, k, v)) == SumValues(m) - Get(m, k).GetOr(0.0) + v
  {
    SumOverUpdate(m.keys, m.values, k, v);
    if k !in m.keys {
      var ks := m.keys + [k];
      assert ks[..|ks| - 1] == m.keys;
    }
  }
}
