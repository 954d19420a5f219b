/**
 * `ExpiringMap`: a key-value store whose entries stop being visible once their
 * expiration instant has passed. `insert` first sweeps out every entry that is
 * not strictly in the future, then stores the new value with an expiration of
 * now plus the map's fixed duration; `get` hides expired entries without
 * removing them. The clock is passed in explicitly.
 */
module Cache {
  import opened Wrappers

  /** A reading of the monotonic clock, in ticks. */
  type Instant = int

  /** `Value<T>`: the stored value and the instant it expires. */
  datatype Entry<T> = Entry(value: T, expiration: Instant) {

    /** `Value::is_expired`: only an expiration strictly before `now` counts. */
    predicate IsExpired(now: Instant) {
      expiration < now
    }
  }

  /** The entries `cleanup` retains at `now`: those expiring strictly after it. */
  function Sweep<K(==), V>(data: map<K, Entry<V>>, now: Instant): (r: map<K, Entry<V>>)
    ensures r.Keys <= data.Keys
    ensures forall k :: k in r ==> r[k] == data[k] && r[k].expiration > now
    ensures forall k :: k in data && data[k].expiration > now ==> k in r
  {
    map k | k in data && data[k].expiration > now :: data[k]
  }

  /** What `get(key)` answers at `now`. */
  function Lookup<K(==), V>(data: map<K, Entry<V>>, key: K, now: Instant): Option<V> {
    if key in data && !data[key].IsExpired(now) then Some(data[key].value) else None
  }

  class ExpiringMap<K(==), V> {
    var data: map<K, Entry<V>>
    const duration: nat

    /** `ExpiringMap::new` */
    constructor (duration: nat)
      ensures this.duration == duration && data == map[]
    {
      this.duration := duration;
      data := map[];
    }

    /** `cleanup`: drops every entry whose expiration is not after `now`. */
    method Cleanup(now: Instant)
      modifies this
      ensures data == Sweep(old(data), now)
    {
      data := Sweep(data, now);
    }

    /**
     * `insert`: the clock is read once for the sweep (`sweepAt`) and once more
     * for the new entry's expiration (`stampAt`). Returns the previous value
     * of `key` only if it survived the sweep.
     */
    method Insert(key: K, value: V, sweepAt: Instant, stampAt: Instant) returns (previous: Option<V>)
      requires sweepAt <= stampAt
      modifies this
      ensures data == Sweep(old(data), sweepAt)[key := Entry(value, stampAt + duration)]
      ensures previous.Some? <==> key in old(data) && old(data)[key].expiration > sweepAt
      ensures previous.Some? ==> previous.value == old(data)[key].value
      ensures forall k :: k in data && k != key ==> k in old(data) && data[k] == old(data)[k] && data[k].expiration > sweepAt
      ensures forall now :: now <= stampAt + duration ==> Lookup(data, key, now) == Some(value)
    {
      Cleanup(sweepAt);
      previous := if key in data then Some(data[key].value) else None;
      data := data[key := Entry(value, stampAt + duration)];
    }

    /** `get`: reads the map without changing it. */
    function Get(key: K, now: Instant): Option<V>
      reads this
    {
      Lookup(data, key, now)
    }

    /** `contains_key`: holds exactly when `get` finds a value. */
    function ContainsKey(key: K, now: Instant): (b: bool)
      reads this
      ensures b <==> Get(key, now).Some?
    {
      Get(key, now).Some?
    }
  }

  /** A value inserted with a non-negative duration is visible until its expiration. */
  lemma InsertedVisible<K, V>(data: map<K, Entry<V>>, key: K, value: V, sweepAt: Instant, stampAt: Instant, duration: nat, now: Instant)
    requires sweepAt <= stampAt <= now <= stampAt + duration
    ensures Lookup(Sweep(data, sweepAt)[key := Entry(value, stampAt + duration)], key, now) == Some(value)
  {
  }

  /** Past its expiration an entry is hidden from `get`, though it is still stored. */
  lemma ExpiredHiddenButStored<K, V>(data: map<K, Entry<V>>, key: K, now: Instant)
    requires key in data && data[key].expiration < now
    ensures Lookup(data, key, now) == None
    ensures key in data
  {
  }

  /** At exactly its expiration an entry is still visible, but the next sweep drops it. */
  lemma BoundaryVisibleThenSwept<K, V>(data: map<K, Entry<V>>, key: K, now: Instant)
    requires key in data && data[key].expiration == now
    ensures Lookup(data, key, now) == Some(data[key].value)
    ensures key !in Sweep(data, now)
    ensures Lookup(Sweep(data, now), key, now) == None
  {
  }

  /** A sweep at `t` changes nothing `get` reports at any instant after `t`. */
  lemma SweepInvisibleLater<K, V>(data: map<K, Entry<V>>, t: Instant, key: K, now: Instant)
    requires t < now
    ensures Lookup(Sweep(data, t), key, now) == Lookup(data, key, now)
  {
  }

  /** Sweeping twice at the same instant is sweeping once. */
  lemma SweepIdempotent<K, V>(data: map<K, Entry<V>>, now: Instant)
    ensures Sweep(Sweep(data, now), now) == Sweep(data, now)
  {
  }

  /** After a sweep nothing is left that `get` would hide at the same instant. */
  lemma SweptAllVisible<K, V>(data: map<K, Entry<V>>, now: Instant, key: K)
    requires key in Sweep(data, now)
    ensures Lookup(Sweep(data, now), key, now) == Some(data[key].value)
  {
  }

  /**
   * The source's own test: with a 50-tick duration, "key" is visible right
   * after insertion and hidden 60 ticks later; inserting "a" then sweeps it,
   * leaving exactly one entry.
   */
  lemma InsertGetSweepScenario(t0: Instant)
    ensures var m0 := Sweep(map[], t0)["key" := Entry("value", t0 + 50)];
            && Lookup(m0, "key", t0) == Some("value")
            && Lookup(m0, "key", t0 + 60) == None
            && |Sweep(m0, t0 + 60)["a" := Entry("b", t0 + 60 + 50)]| == 1
  {
    var m0: map<string, Entry<string>> := Sweep(map[], t0)["key" := Entry("value", t0 + 50)];
    assert Sweep(m0, t0 + 60) == map[];
    assert Sweep(m0, t0 + 60)["a" := Entry("b", t0 + 60 + 50)] == map["a" := Entry("b", t0 + 110)];
  }
}
