/** An object with string keys that remembers insertion order, as JavaScript
    objects (non-numeric keys) and Python dicts do. `keys` lists the keys in
    insertion order; `vals` holds the entries. */
module Dict {
  import opened Common

  datatype Dict<V> = Dict(keys: seq<string>, vals: map<string, V>) {

    /** Keys are distinct and are exactly the keys of `vals`. */
    ghost predicate Valid() {
      && (forall i, j :: 0 <= i < j < |keys| ==> keys[i] != keys[j])
      && (forall k :: k in vals <==> k in keys)
    }

    function Get(k: string): Option<V> {
      if k in vals then Some(vals[k]) else None
    }

    /** Assignment `obj[k] = v`: an existing key keeps its position, a new key goes last. */
    function Put(k: string, v: V): (r: Dict<V>)
      ensures Valid() ==> r.Valid()
      ensures r.vals == vals[k := v]
    {
      if k in vals then Dict(keys, vals[k := v]) else Dict(keys + [k], vals[k := v])
    }

    /** `Object.values(obj)`: the entries in key order. */
    function Values(): seq<V> {
      ValuesOf(keys, vals)
    }
  }

  function Empty<V>(): (r: Dict<V>)
    ensures r.Valid() && r.keys == [] && r.vals == map[]
  {
    Dict([], map[])
  }

  function ValuesOf<V>(ks: seq<string>, m: map<string, V>): seq<V> {
    if ks == [] then []
    else (if ks[0] in m then [m[ks[0]]] else []) + ValuesOf(ks[1..], m)
  }

  /** `Object.prototype.hasOwnProperty.call(obj, key)` (backend and frontend `HasKey`). */
  function HasKey<V>(d: Dict<V>, k: string): (r: bool)
    requires d.Valid()
    ensures r <==> k in d.keys
  {
    k in d.vals
  }

  lemma {:induction false} ValuesOfIndex<V>(ks: seq<string>, m: map<string, V>)
    requires forall k :: k in ks ==> k in m
    ensures |ValuesOf(ks, m)| == |ks|
    ensures forall i :: 0 <= i < |ks| ==> ValuesOf(ks, m)[i] == m[ks[i]]
  {
    if ks != [] {
      ValuesOfIndex(ks[1..], m);
    }
  }

  /** `Object.values` lists one entry per key, in key order. */
  lemma ValuesIndex<V>(d: Dict<V>)
    requires d.Valid()
    ensures |d.Values()| == |d.keys|
    ensures forall i :: 0 <= i < |d.keys| ==> d.Values()[i] == d.vals[d.keys[i]]
  {
    ValuesOfIndex(d.keys, d.vals);
  }

  lemma {:induction false} ValuesOfAppend<V>(ks: seq<string>, k: string, m: map<string, V>)
    requires k in m
    ensures ValuesOf(ks + [k], m) == ValuesOf(ks, m) + [m[k]]
  {
    if ks == [] {
      assert ks + [k] == [k];
    } else {
      var head := if ks[0] in m then [m[ks[0]]] else [];
      assert (ks + [k])[0] == ks[0];
      assert (ks + [k])[1..] == ks[1..] + [k];
      assert ValuesOf(ks + [k], m) == head + ValuesOf(ks[1..] + [k], m);
      ValuesOfAppend(ks[1..], k, m);
      assert ValuesOf(ks, m) == head + ValuesOf(ks[1..], m);
      AppendAssoc(head, ValuesOf(ks[1..], m), [m[k]]);
    }
  }

  lemma {:induction false} ValuesOfFrame<V>(ks: seq<string>, m: map<string, V>, m': map<string, V>)
    requires forall k :: k in ks ==> (k in m <==> k in m') && (k in m ==> m[k] == m'[k])
    ensures ValuesOf(ks, m) == ValuesOf(ks, m')
  {
    if ks != [] {
      ValuesOfFrame(ks[1..], m, m');
    }
  }

  /** Adding a new key appends its value to `Object.values`. */
  lemma PutNewValues<V>(d: Dict<V>, k: string, v: V)
    requires d.Valid() && k !in d.vals
    ensures d.Put(k, v).Values() == d.Values() + [v]
  {
    ValuesOfFrame(d.keys, d.vals, d.vals[k := v]);
    ValuesOfAppend(d.keys, k, d.vals[k := v]);
  }
}
