/** Python's `dict`, which remembers the order in which keys were first inserted:
    assigning to an existing key replaces its value and keeps its position. */
module Dicts {

  datatype Dict<K(==, !new), V> = Dict(keys: seq<K>, vals: map<K, V>) {

    /** The key sequence holds each key once and exactly the keys of the map. */
    ghost predicate Wf() {
      && (forall i, j :: 0 <= i < j < |keys| ==> keys[i] != keys[j])
      && (forall k :: k in vals <==> k in keys)
    }
  }

  function Empty<K(==, !new), V>(): (d: Dict<K, V>)
    ensures d.Wf() && d.keys == [] && d.vals == map[]
  {
    Dict([], map[])
  }

  /** `d[k] = v`. */
  function Put<K(==, !new), V>(d: Dict<K, V>, k: K, v: V): (r: Dict<K, V>)
    requires d.Wf()
    ensures r.Wf()
    ensures r.vals == d.vals[k := v]
    ensures k in d.vals ==> r.keys == d.keys
    ensures k !in d.vals ==> r.keys == d.keys + [k]
  {
    if k in d.vals then Dict(d.keys, d.vals[k := v]) else Dict(d.keys + [k], d.vals[k := v])
  }

  /** `list(d.values())`, in key order. */
  function Values<K(==, !new), V>(d: Dict<K, V>): (r: seq<V>)
    requires d.Wf()
    ensures |r| == |d.keys|
    ensures forall i :: 0 <= i < |r| ==> d.keys[i] in d.vals && r[i] == d.vals[d.keys[i]]
  {
    seq(|d.keys|, i requires 0 <= i < |d.keys| => d.vals[d.keys[i]])
  }
}
