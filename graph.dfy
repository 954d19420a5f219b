/**
 * The directory lookup of object ids: a process-wide cache of directory
 * objects, the split of the uncached ids into calls of at most 50 ids, and the
 * parsing of each call's response. The directory itself (token, request and
 * retries) is an oracle `respond` from the ids of one call to its answer.
 */
module Directory {
  import opened Wrappers
  import opened Json

  /** `graph::Object` */
  datatype Object = Object(id: string, displayName: string, upn: Option<string>)

  /** The most ids one directory call carries. */
  const ChunkSize: nat := 50

  /** A string-valued field read as in the parsing loop: a non-string value reads as `""`. */
  function StringOrEmpty(v: Value): string {
    AsStr(v).GetOr("")
  }

  /** One entry of a `getByIds` response; `None` when the entry is skipped. */
  function ParseObject(v: Value): (r: Option<Object>)
    ensures r.Some? <==> Get(v, "id").Some? && Get(v, "displayName").Some?
    ensures r.Some? ==> r.value.id == StringOrEmpty(Index(v, "id"))
    ensures r.Some? ==> r.value.displayName == StringOrEmpty(Index(v, "displayName"))
    ensures r.Some? ==> (r.value.upn.Some? <==> Index(v, "userPrincipalName").Str?)
    ensures r.Some? && r.value.upn.Some? ==> r.value.upn.value == Index(v, "userPrincipalName").s
  {
    match (Get(v, "id"), Get(v, "displayName"))
    case (Some(id), Some(name)) =>
      var upn := if Get(v, "userPrincipalName").Some? then AsStr(Get(v, "userPrincipalName").value) else None;
      Some(Object.Object(StringOrEmpty(id), StringOrEmpty(name), upn))
    case _ => None
  }

  /** The objects the entries `values` yield, in order, skipped entries left out. */
  function ObjectsIn(values: seq<Value>): seq<Object>
    decreases |values|
  {
    if values == [] then []
    else
      var last := ParseObject(values[|values| - 1]);
      ObjectsIn(values[..|values| - 1]) + (if last.Some? then [last.value] else [])
  }

  /** The objects of a whole response: none when `value` is missing or not an array. */
  function ResponseObjects(body: Value): seq<Object> {
    match Get(body, "value")
    case Some(Array(values)) => ObjectsIn(values)
    case _ => []
  }

  /** At most one object per entry, and every object is what some entry parses to. */
  lemma {:induction false} ObjectsInFromEntries(values: seq<Value>)
    ensures |ObjectsIn(values)| <= |values|
    ensures forall o :: o in ObjectsIn(values) ==> exists v :: v in values && ParseObject(v) == Some(o)
    decreases |values|
  {
    if values != [] {
      var init := values[..|values| - 1];
      ObjectsInFromEntries(init);
      forall o | o in ObjectsIn(values)
        ensures exists v :: v in values && ParseObject(v) == Some(o)
      {
        if o in ObjectsIn(init) {
          var v :| v in init && ParseObject(v) == Some(o);
          assert v in values;
        } else {
          assert ParseObject(values[|values| - 1]) == Some(o);
        }
      }
    }
  }

  /** Every entry that carries both keys yields an object. */
  lemma {:induction false} ObjectsInComplete(values: seq<Value>, k: nat)
    requires k < |values| && ParseObject(values[k]).Some?
    ensures ParseObject(values[k]).value in ObjectsIn(values)
    decreases |values|
  {
    if k < |values| - 1 {
      ObjectsInComplete(values[..|values| - 1], k);
    }
  }

  /** The response-parsing loop of `get_objects_by_ids_small`. */
  method ParseObjects(body: Value) returns (results: seq<Object>)
    ensures results == ResponseObjects(body)
  {
    results := [];
    var field := Get(body, "value");
    if field.Some? && field.value.Array? {
      var values := field.value.items;
      var i := 0;
      while i < |values|
        invariant 0 <= i <= |values|
        invariant results == ObjectsIn(values[..i])
      {
        assert values[..i + 1][..i] == values[..i];
        var entry := ParseObject(values[i]);
        if entry.Some? {
          results := results + [entry.value];
        }
        i := i + 1;
      }
      assert values[..|values|] == values;
    }
  }

  /** The concatenation of the calls' ids. */
  function Flatten(chunks: seq<seq<string>>): seq<string>
    decreases |chunks|
  {
    if chunks == [] then [] else chunks[0] + Flatten(chunks[1..])
  }

  /** `slice.chunks(size)`: consecutive pieces of `size` ids, the last one possibly shorter. */
  function Chunks(s: seq<string>, size: nat): (r: seq<seq<string>>)
    requires size > 0
    ensures Flatten(r) == s
    ensures forall c :: c in r ==> 0 < |c| <= size
    ensures forall i :: 0 <= i < |r| - 1 ==> |r[i]| == size
    decreases |s|
  {
    if s == [] then []
    else if |s| <= size then [s]
    else
      var rest := Chunks(s[size..], size);
      assert Flatten([s[..size]] + rest) == s[..size] + Flatten(rest);
      [s[..size]] + rest
  }

  /** The ids in a concatenation are the ids in its pieces. */
  lemma {:induction false} FlattenMembers(chunks: seq<seq<string>>, id: string)
    ensures id in Flatten(chunks) <==> exists c :: c in chunks && id in c
    decreases |chunks|
  {
    if chunks != [] {
      FlattenMembers(chunks[1..], id);
      assert forall c :: c in chunks <==> c == chunks[0] || c in chunks[1..];
    }
  }

  /** The requested ids, in order, that the cache holds no object for. */
  function Uncached(ids: seq<string>, cache: map<string, Object>): (r: seq<string>)
    ensures forall id :: id in r <==> id in ids && id !in cache
    ensures |r| <= |ids|
    decreases |ids|
  {
    if ids == [] then []
    else (if ids[0] in cache then [] else [ids[0]]) + Uncached(ids[1..], cache)
  }

  /** The objects a call's answer yields; a failed call yields none. */
  function AnswerObjects(answer: Result<Value, string>): seq<Object> {
    if answer.Ok? then ResponseObjects(answer.value) else []
  }

  /** The cache after inserting `objects` one after another, each under its own id. */
  function StoreObjects(cache: map<string, Object>, objects: seq<Object>): map<string, Object>
    decreases |objects|
  {
    if objects == [] then cache
    else
      var last := objects[|objects| - 1];
      StoreObjects(cache, objects[..|objects| - 1])[last.id := last]
  }

  /** The cache after storing the answers to the calls `chunks`, in order. */
  function StoreChunks(cache: map<string, Object>, chunks: seq<seq<string>>, respond: seq<string> -> Result<Value, string>): map<string, Object>
    decreases |chunks|
  {
    if chunks == [] then cache
    else StoreObjects(StoreChunks(cache, chunks[..|chunks| - 1], respond), AnswerObjects(respond(chunks[|chunks| - 1])))
  }

  /** Every cached object sits under its own id. */
  ghost predicate KeyedById(cache: map<string, Object>) {
    forall id :: id in cache ==> cache[id].id == id
  }

  /**
   * Storing objects removes nothing, adds exactly their ids, keeps every object
   * under its own id, and leaves ids not among them untouched.
   */
  lemma {:induction false} StoreObjectsEffect(cache: map<string, Object>, objects: seq<Object>)
    ensures StoreObjects(cache, objects).Keys == cache.Keys + set o | o in objects :: o.id
    ensures KeyedById(cache) ==> KeyedById(StoreObjects(cache, objects))
    ensures forall id :: id in cache && (forall o :: o in objects ==> o.id != id) ==> StoreObjects(cache, objects)[id] == cache[id]
    decreases |objects|
  {
    if objects != [] {
      var init := objects[..|objects| - 1];
      StoreObjectsEffect(cache, init);
      assert forall o :: o in objects <==> o in init || o == objects[|objects| - 1];
    }
  }

  /** Storing the answers of several calls removes nothing and keeps every object under its own id. */
  lemma {:induction false} StoreChunksEffect(cache: map<string, Object>, chunks: seq<seq<string>>, respond: seq<string> -> Result<Value, string>)
    ensures cache.Keys <= StoreChunks(cache, chunks, respond).Keys
    ensures KeyedById(cache) ==> KeyedById(StoreChunks(cache, chunks, respond))
    ensures forall id :: id in StoreChunks(cache, chunks, respond) && id !in cache ==>
      exists c :: c in chunks && exists o :: o in AnswerObjects(respond(c)) && o.id == id
    decreases |chunks|
  {
    if chunks != [] {
      var init := chunks[..|chunks| - 1];
      var last := chunks[|chunks| - 1];
      StoreChunksEffect(cache, init, respond);
      StoreObjectsEffect(StoreChunks(cache, init, respond), AnswerObjects(respond(last)));
      forall id | id in StoreChunks(cache, chunks, respond) && id !in cache
        ensures exists c :: c in chunks && exists o :: o in AnswerObjects(respond(c)) && o.id == id
      {
        if id in StoreChunks(cache, init, respond) {
          var c :| c in init && exists o :: o in AnswerObjects(respond(c)) && o.id == id;
          assert c in chunks;
        } else {
          var o :| o in AnswerObjects(respond(last)) && o.id == id;
          assert last in chunks;
        }
      }
    }
  }

  /**
   * An id that no answer returned is still uncached afterwards, so the next
   * lookup asks for it again; it is also absent from the result.
   */
  lemma UnansweredIdStaysUncached(cache: map<string, Object>, chunks: seq<seq<string>>, respond: seq<string> -> Result<Value, string>, id: string)
    requires id !in cache
    requires forall c :: c in chunks ==> forall o :: o in AnswerObjects(respond(c)) ==> o.id != id
    ensures id !in StoreChunks(cache, chunks, respond)
  {
    StoreChunksEffect(cache, chunks, respond);
  }

  /** The process-wide `CACHE` of directory objects by id. */
  class DirectoryCache {
    var entries: map<string, Object>

    ghost predicate Valid()
      reads this
    {
      KeyedById(entries)
    }

    constructor ()
      ensures entries == map[] && Valid()
    {
      entries := map[];
    }

    /** `cache.insert(entry.id, entry)` for each object of one answer, in order. */
    method InsertObjects(objects: seq<Object>)
      requires Valid()
      modifies this
      ensures Valid()
      ensures entries == StoreObjects(old(entries), objects)
    {
      var j := 0;
      while j < |objects|
        invariant 0 <= j <= |objects|
        invariant entries == StoreObjects(old(entries), objects[..j])
      {
        assert objects[..j + 1][..j] == objects[..j];
        entries := entries[objects[j].id := objects[j]];
        j := j + 1;
      }
      assert objects[..|objects|] == objects;
      StoreObjectsEffect(old(entries), objects);
    }

    /** The loop over the calls: each answer is parsed and cached; a failed call ends the loop. */
    method FetchChunks(chunks: seq<seq<string>>, respond: seq<string> -> Result<Value, string>)
      returns (failure: Option<string>, asked: seq<seq<string>>)
      requires Valid()
      modifies this
      ensures Valid()
      ensures asked <= chunks
      ensures failure.None? ==> asked == chunks
      ensures failure.Some? ==> |asked| > 0 && respond(asked[|asked| - 1]) == Err(failure.value)
      ensures forall i :: 0 <= i < |asked| - 1 ==> respond(asked[i]).Ok?
      ensures failure.None? ==> forall c :: c in asked ==> respond(c).Ok?
      ensures entries == StoreChunks(old(entries), asked, respond)
    {
      asked := [];
      var k := 0;
      while k < |chunks|
        invariant 0 <= k <= |chunks|
        invariant asked == chunks[..k]
        invariant entries == StoreChunks(old(entries), asked, respond)
        invariant Valid()
        invariant forall i :: 0 <= i < k ==> respond(chunks[i]).Ok?
      {
        var answer := respond(chunks[k]);
        asked := asked + [chunks[k]];
        assert asked[..|asked| - 1] == chunks[..k];
        if answer.Err? {
          return Some(answer.error), asked;
        }
        var objects := ParseObjects(answer.value);
        InsertObjects(objects);
        k := k + 1;
      }
      assert chunks[..|chunks|] == chunks;
      failure := None;
    }

    /** The final loop: every requested id the cache now holds, with its object. */
    method Collect(ids: seq<string>) returns (result: map<string, Object>)
      requires Valid()
      ensures result.Keys == set id | id in ids && id in entries
      ensures forall id :: id in result ==> result[id] == entries[id]
    {
      result := map[];
      var i := 0;
      while i < |ids|
        invariant 0 <= i <= |ids|
        invariant result.Keys == set id | id in ids[..i] && id in entries
        invariant forall id :: id in result ==> result[id] == entries[id]
      {
        assert forall id :: id in ids[..i + 1] <==> id in ids[..i] || id == ids[i];
        if ids[i] in entries {
          var entry := entries[ids[i]];
          result := result[entry.id := entry];
        }
        i := i + 1;
      }
      assert ids[..|ids|] == ids;
    }

    /**
     * `get_objects_by_ids`: asks the directory, 50 ids at a time, for the
     * requested ids the cache lacks, caches what comes back, and returns the
     * requested ids that are then cached. `asked` lists the calls made; a failed
     * call ends the lookup, keeping what earlier calls cached.
     */
    method GetObjectsByIds(ids: seq<string>, respond: seq<string> -> Result<Value, string>)
      returns (r: Result<map<string, Object>, string>, asked: seq<seq<string>>)
      requires Valid()
      modifies this
      ensures Valid()
      ensures asked <= Chunks(Uncached(ids, old(entries)), ChunkSize)
      ensures r.Ok? ==> asked == Chunks(Uncached(ids, old(entries)), ChunkSize)
      ensures r.Err? ==> |asked| > 0 && respond(asked[|asked| - 1]) == Err(r.error)
      ensures forall i :: 0 <= i < |asked| - 1 ==> respond(asked[i]).Ok?
      ensures r.Ok? ==> forall c :: c in asked ==> respond(c).Ok?
      ensures entries == StoreChunks(old(entries), asked, respond)
      ensures r.Ok? ==> r.value.Keys == (set id | id in ids && id in entries)
      ensures r.Ok? ==> forall id :: id in r.value ==> r.value[id] == entries[id]
    {
      var failure;
      failure, asked := FetchChunks(Chunks(Uncached(ids, entries), ChunkSize), respond);
      if failure.Some? {
        return Err(failure.value), asked;
      }
      var result := Collect(ids);
      r := Ok(result);
    }
  }

  /** Only requested ids missing from the cache are ever sent, at most 50 per call. */
  lemma AskedOnlyUncached(ids: seq<string>, cache: map<string, Object>, asked: seq<seq<string>>, c: seq<string>, id: string)
    requires asked <= Chunks(Uncached(ids, cache), ChunkSize)
    requires c in asked && id in c
    ensures id in ids && id !in cache
    ensures 0 < |c| <= ChunkSize
  {
    var all := Chunks(Uncached(ids, cache), ChunkSize);
    assert c in all;
    FlattenMembers(all, id);
  }

  /** The calls of a complete lookup cover every uncached requested id. */
  lemma AskedCoversUncached(ids: seq<string>, cache: map<string, Object>, id: string)
    requires id in ids && id !in cache
    ensures exists c :: c in Chunks(Uncached(ids, cache), ChunkSize) && id in c
  {
    FlattenMembers(Chunks(Uncached(ids, cache), ChunkSize), id);
  }
}
