/**
 * `serde_json::Value` and the few accessors the core uses on it. Indexing
 * with `value["key"]` never fails: a missing key, or indexing anything but an
 * object, yields `Null`, and indexing `Null` again yields `Null`.
 */
module Json {
  import opened Wrappers

  datatype Value =
    | Null
    | Bool(b: bool)
    | Number(n: int)
    | Str(s: string)
    | Array(items: seq<Value>)
    | Object(fields: map<string, Value>)

  /** `value[key]` */
  function Index(v: Value, key: string): (r: Value)
    ensures r != Null ==> v.Object? && key in v.fields && v.fields[key] == r
    ensures v.Object? && key in v.fields ==> r == v.fields[key]
  {
    if v.Object? && key in v.fields then v.fields[key] else Null
  }

  /** `value[k1][k2]...[kn]` */
  function At(v: Value, path: seq<string>): Value
    decreases |path|
  {
    if path == [] then v else At(Index(v, path[0]), path[1..])
  }

  /** `value.get(key)`: `None` for a missing key or a value that is not an object. */
  function Get(v: Value, key: string): (r: Option<Value>)
    ensures r.Some? <==> v.Object? && key in v.fields
    ensures r.Some? ==> r.value == Index(v, key)
  {
    if v.Object? && key in v.fields then Some(v.fields[key]) else None
  }

  /** `value.as_str()` */
  function AsStr(v: Value): Option<string> {
    if v.Str? then Some(v.s) else None
  }

  /** `value.as_array()` */
  function AsArray(v: Value): Option<seq<Value>> {
    if v.Array? then Some(v.items) else None
  }

  /** A two-key path is two lookups. */
  lemma AtTwo(v: Value, a: string, b: string)
    ensures At(v, [a, b]) == Index(Index(v, a), b)
  {
    var va := Index(v, a);
    assert [a, b][1..] == [b];
    assert At(v, [a, b]) == At(va, [b]);
    assert [b][1..] == [];
    assert At(va, [b]) == At(Index(va, b), []);
  }

  /** A four-key path is four lookups. */
  lemma AtFour(v: Value, a: string, b: string, c: string, d: string)
    ensures At(v, [a, b, c, d]) == Index(Index(Index(Index(v, a), b), c), d)
  {
    var va := Index(v, a);
    assert [a, b, c, d][1..] == [b, c, d];
    assert At(v, [a, b, c, d]) == At(va, [b, c, d]);
    assert [b, c, d][1..] == [c, d];
    assert At(va, [b, c, d]) == At(Index(va, b), [c, d]);
    AtTwo(Index(va, b), c, d);
  }

  /** Indexing along a path one key at a time is indexing along the whole path. */
  lemma {:induction false} AtAppend(v: Value, p: seq<string>, q: seq<string>)
    ensures At(v, p + q) == At(At(v, p), q)
    decreases |p|
  {
    if p != [] {
      assert (p + q)[1..] == p[1..] + q;
      AtAppend(Index(v, p[0]), p[1..], q);
    } else {
      assert p + q == q;
    }
  }

  /** Once a lookup has missed, every further lookup yields `Null` too. */
  lemma {:induction false} AtNull(path: seq<string>)
    ensures At(Null, path) == Null
    decreases |path|
  {
    if path != [] {
      AtNull(path[1..]);
    }
  }

  /** A path that misses at any step yields `Null`, never a string. */
  lemma AtMissing(v: Value, p: seq<string>, q: seq<string>)
    requires At(v, p) == Null
    ensures At(v, p + q) == Null && AsStr(At(v, p + q)) == None
  {
    AtAppend(v, p, q);
    AtNull(q);
  }
}
