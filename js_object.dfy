/** A JavaScript object used as a dictionary with string keys. `Object.keys`
    lists keys in the order they were first assigned; assigning to a key
    that is already there replaces its value and keeps its place. */
module JsObject {

  /** A value that may be `undefined`. */
  datatype Option<T> = None | Some(value: T)

  datatype Dict<V> = Dict(keys: seq<string>, values: map<string, V>)
  {
    /** The keys are listed once each, and exactly the keys with a value. */
    ghost predicate Valid()
    {
      && (forall i, j :: 0 <= i < j < |keys| ==> keys[i] != keys[j])
      && (forall k :: k in values <==> k in keys)
    }

    /** `obj[k] = v`. */
    function Put(k: string, v: V): (d: Dict<V>)
      ensures d.values == values[k := v]
      ensures k in values ==> d.keys == keys
      ensures k !in values ==> d.keys == keys + [k]
      ensures Valid() ==> d.Valid()
    {
      if k in values then Dict(keys, values[k := v]) else Dict(keys + [k], values[k := v])
    }
  }

  function Empty<V>(): (d: Dict<V>)
    ensures d.Valid() && d.keys == []
  {
    Dict([], map[])
  }
}
