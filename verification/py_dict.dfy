/** Python dictionaries from strings to strings, which remember the order in
    which their keys were first inserted: iterating over one visits the
    keys in that order, and assigning to a key that is already present
    changes its value but not its place. */
module PyDict {
  import opened Wrappers

  datatype Dict = Dict(keys: seq<string>, values: map<string, string>)

  /** The keys are distinct and are exactly the keys that have a value. */
  ghost predicate Valid(d: Dict) {
    (forall i, j :: 0 <= i < j < |d.keys| ==> d.keys[i] != d.keys[j])
    && (forall k :: k in d.values <==> k in d.keys)
  }

  /** `d.get(k)`. */
  function Lookup(d: Dict, k: string): Option<string> {
    if k in d.values then Some(d.values[k]) else None
  }

  /** `d[k] = v`. */
  function Put(d: Dict, k: string, v: string): (r: Dict)
    ensures Lookup(r, k) == Some(v)
    ensures forall other :: other != k ==> Lookup(r, other) == Lookup(d, other)
  {
    if k in d.values then Dict(d.keys, d.values[k := v]) else Dict(d.keys + [k], d.values[k := v])
  }

  /** Assigning keeps the dictionary well formed; a new key goes last, and
      an existing key keeps its place. */
  lemma PutOrder(d: Dict, k: string, v: string)
    requires Valid(d)
    ensures Valid(Put(d, k, v))
    ensures k in d.keys ==> Put(d, k, v).keys == d.keys
    ensures k !in d.keys ==> Put(d, k, v).keys == d.keys + [k]
    ensures |d.keys| <= |Put(d, k, v).keys| && Put(d, k, v).keys[..|d.keys|] == d.keys
  {
    if k !in d.keys {
      assert (d.keys + [k])[..|d.keys|] == d.keys;
    }
  }

  /** The dictionary literal with the two given entries, in that order. */
  function Pair(k1: string, v1: string, k2: string, v2: string): (r: Dict)
    requires k1 != k2
    ensures Valid(r) && r.keys == [k1, k2]
    ensures Lookup(r, k1) == Some(v1) && Lookup(r, k2) == Some(v2)
  {
    Dict([k1, k2], map[k1 := v1, k2 := v2])
  }
}
