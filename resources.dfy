/**
 * Child resources of a scope: each entry of the `value` array is read as a
 * `{id, name, type}` record the way a derived deserializer reads it, and the
 * records are collected into a set.
 */
module Resources {
  import opened Wrappers
  import opened Json
  import Scopes

  /** `ChildResource`; the scope is taken as given (its deserializer checks nothing). */
  datatype ChildResource = ChildResource(id: Scopes.Scope, name: string, resourceType: string)

  datatype ParseError = InvalidEntry

  /** The record form: an object whose `id`, `name` and `type` are strings; other keys are ignored. */
  predicate RecordForm(v: Value) {
    && v.Object?
    && "id" in v.fields && v.fields["id"].Str?
    && "name" in v.fields && v.fields["name"].Str?
    && "type" in v.fields && v.fields["type"].Str?
  }

  /** The sequence form a derived deserializer also accepts: exactly three strings, in field order. */
  predicate TupleForm(v: Value) {
    v.Array? && |v.items| == 3 && v.items[0].Str? && v.items[1].Str? && v.items[2].Str?
  }

  /** `serde_json::from_value::<ChildResource>` */
  function Deserialize(v: Value): (r: Result<ChildResource, ParseError>)
    ensures r.Ok? <==> RecordForm(v) || TupleForm(v)
    ensures RecordForm(v) ==> r == Ok(ChildResource(Scopes.Scope(v.fields["id"].s), v.fields["name"].s, v.fields["type"].s))
    ensures TupleForm(v) ==> r == Ok(ChildResource(Scopes.Scope(v.items[0].s), v.items[1].s, v.items[2].s))
  {
    if RecordForm(v) then Ok(ChildResource(Scopes.Scope(v.fields["id"].s), v.fields["name"].s, v.fields["type"].s))
    else if TupleForm(v) then Ok(ChildResource(Scopes.Scope(v.items[0].s), v.items[1].s, v.items[2].s))
    else Err(InvalidEntry)
  }

  /** The record a resource serializes to. */
  function Serialize(c: ChildResource): Value {
    Object(map["id" := Str(c.id.path), "name" := Str(c.name), "type" := Str(c.resourceType)])
  }

  /** Serializing and deserializing a child resource gives it back. */
  lemma DeserializeSerialize(c: ChildResource)
    ensures Deserialize(Serialize(c)) == Ok(c)
  {
    assert RecordForm(Serialize(c));
  }

  /** The records of the entries `values` (all of which deserialize). */
  function Records(values: seq<Value>): set<ChildResource> {
    set v | v in values && Deserialize(v).Ok? :: Deserialize(v).value
  }

  /** `ChildResource::parse` */
  method Parse(data: Value) returns (r: Result<set<ChildResource>, ParseError>)
    ensures Get(data, "value").None? || !Get(data, "value").value.Array? ==> r == Ok({})
    ensures Get(data, "value").Some? && Get(data, "value").value.Array? ==>
      var values := Get(data, "value").value.items;
      && (r.Ok? <==> forall v :: v in values ==> Deserialize(v).Ok?)
      && (r.Ok? ==> r.value == Records(values) && |r.value| <= |values|)
  {
    var results: set<ChildResource> := {};
    var field := Get(data, "value");
    if field.Some? && field.value.Array? {
      var values := field.value.items;
      var i := 0;
      while i < |values|
        invariant 0 <= i <= |values|
        invariant forall v :: v in values[..i] ==> Deserialize(v).Ok?
        invariant results == Records(values[..i])
        invariant |results| <= i
      {
        var entry := Deserialize(values[i]);
        if entry.Err? {
          return Err(entry.error);
        }
        assert forall v :: v in values[..i + 1] <==> v in values[..i] || v == values[i] by {
          assert values[..i + 1] == values[..i] + [values[i]];
        }
        assert Records(values[..i + 1]) == Records(values[..i]) + {entry.value};
        results := results + {entry.value};
        i := i + 1;
      }
      assert values[..|values|] == values;
    }
    r := Ok(results);
  }
}
