/**
 * The PHP values an option tree is made of once it has been turned into
 * arrays: scalars and ordered arrays whose keys are integers or strings.
 */
module PhpValues {
  import opened Wrappers

  /** A PHP array key. */
  datatype Key = IntKey(n: int) | StrKey(s: string)

  /**
   * A PHP value. `Arr` is PHP's ordered array: a sequence of key/value
   * entries in insertion order. Floats are not modelled.
   */
  datatype Value =
    | Null
    | Bool(b: bool)
    | Int(i: int)
    | Str(s: string)
    | Arr(entries: seq<(Key, Value)>)

  /** `$a[$key]`: the value stored under `key`, if any (the first entry with that key). */
  function Lookup(entries: seq<(Key, Value)>, key: Key): (r: Option<Value>)
    ensures r.Some? <==> exists k :: 0 <= k < |entries| && entries[k].0 == key
    ensures r.Some? ==> exists k :: 0 <= k < |entries| && entries[k] == (key, r.value)
  {
    if |entries| == 0 then None
    else if entries[0].0 == key then Some(entries[0].1)
    else
      var r := Lookup(entries[1..], key);
      assert forall k :: 0 < k < |entries| ==> entries[k] == entries[1..][k - 1];
      r
  }

  /**
   * A PHP array is a list when its keys are exactly 0, 1, ..., n - 1 in this
   * order; json_encode writes such an array as a JSON array.
   */
  predicate IsList(entries: seq<(Key, Value)>)
  {
    forall k :: 0 <= k < |entries| ==> entries[k].0 == IntKey(k)
  }

  /** The keys of the entries, in order. */
  function KeysOf<K, V>(entries: seq<(K, V)>): seq<K>
  {
    seq(|entries|, k requires 0 <= k < |entries| => entries[k].0)
  }

  /** No key occurs twice, as in every PHP array. */
  predicate DistinctKeys<K(==), V>(entries: seq<(K, V)>)
  {
    var keys := KeysOf(entries);
    forall i, j :: 0 <= i < j < |keys| ==> keys[i] != keys[j]
  }

  /**
   * The options as the emitter receives them: a PHP array whose keys are
   * option names, in the order in which the option fields are declared.
   */
  type OrderedMap = m: seq<(string, Value)> | DistinctKeys(m) witness []
}
