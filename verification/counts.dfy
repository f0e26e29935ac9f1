/** `get_counts`: the number of recurring events and of recurring "master"
    events, read through the plugin cache. The events ORM's `found()` and the
    cache's `set` are abstract parameters; the cache itself is a map from
    cache id to stored value. */
module Counts {
  import opened PhpValues

  type Cache = map<string, Value>

  /** `tribe_events()->where( … )->found()` for a map of `where` clauses. */
  type Found = map<string, Value> -> nat

  /** What `$cache->set( $id, $value, 0, $trigger )` returns. */
  type SetResult = (string, Value) -> Value

  const CountId := "tribe-ext-recurring-event-tools-count"
  const MasterCountId := "tribe-ext-recurring-event-tools-master-count"

  /** The `where` clauses of the two counting queries. */
  const CountArgs: map<string, Value> := map["in_series" := Bool(true), "status" := Str("any")]
  const MasterCountArgs: map<string, Value> := CountArgs["parent" := Int(0)]

  /** `$cache->get( $id, $trigger, false, 0 )`: the stored value, or `false`. */
  function CacheGet(cache: Cache, id: string): (v: Value)
    ensures id in cache ==> v == cache[id]
    ensures id !in cache ==> v == Bool(false)
  {
    if id in cache then cache[id] else Bool(false)
  }

  /** A cache id whose read gives `false` is a miss, whether it is absent or
      holds `false`. */
  predicate Miss(cache: Cache, id: string): (miss: bool)
    ensures miss <==> id !in cache || cache[id] == Bool(false)
  {
    CacheGet(cache, id) == Bool(false)
  }

  /** One round of the `foreach`: the value to report and the cache after. */
  datatype Entry = Entry(value: Value, cache: Cache)

  /** The count is computed every time; on a miss it is written to the
      cache and the round reports what `set` returned, on a hit the round
      reports the cached value and the new count is discarded. */
  function CountEntry(cache: Cache, id: string, computed: nat, setResult: SetResult): (e: Entry)
    ensures !Miss(cache, id) ==> e.value == cache[id] && e.cache == cache
    ensures Miss(cache, id) ==> e.value == setResult(id, Int(computed))
    ensures Miss(cache, id) ==> e.cache == cache[id := Int(computed)]
  {
    var cached := CacheGet(cache, id);
    var value := Int(computed);
    if cached == Bool(false) then Entry(setResult(id, value), cache[id := value])
    else Entry(cached, cache)
  }

  /** The two reported values and the cache after. */
  datatype Counts = Counts(values: seq<Value>, cache: Cache)

  /** Count first, master count second; each value is the cached one on a hit,
      which leaves that cache entry as it was, and `set`'s return on a miss,
      which stores the count just computed. No other cache entry changes. */
  function GetCounts(cache: Cache, found: Found, setResult: SetResult): (r: Counts)
    ensures |r.values| == 2
    ensures CountId in r.cache && MasterCountId in r.cache
    ensures !Miss(cache, CountId) ==> r.values[0] == cache[CountId] && r.cache[CountId] == cache[CountId]
    ensures !Miss(cache, MasterCountId) ==>
              r.values[1] == cache[MasterCountId] && r.cache[MasterCountId] == cache[MasterCountId]
    ensures Miss(cache, CountId) ==>
              r.values[0] == setResult(CountId, Int(found(CountArgs)))
              && r.cache[CountId] == Int(found(CountArgs))
    ensures Miss(cache, MasterCountId) ==>
              r.values[1] == setResult(MasterCountId, Int(found(MasterCountArgs)))
              && r.cache[MasterCountId] == Int(found(MasterCountArgs))
    ensures r.cache - {CountId, MasterCountId} == cache - {CountId, MasterCountId}
  {
    var count := CountEntry(cache, CountId, found(CountArgs), setResult);
    var master := CountEntry(count.cache, MasterCountId, found(MasterCountArgs), setResult);
    Counts([count.value, master.value], master.cache)
  }

  /** When `set` returns the value it stored, a miss reports the count just computed. */
  lemma MissReportsFreshWhenSetEchoes(cache: Cache, found: Found, setResult: SetResult)
    requires forall id, v :: setResult(id, v) == v
    ensures Miss(cache, CountId) ==> GetCounts(cache, found, setResult).values[0] == Int(found(CountArgs))
    ensures Miss(cache, MasterCountId) ==>
              GetCounts(cache, found, setResult).values[1] == Int(found(MasterCountArgs))
  {
  }

  /** After one call the cache is warm: a second call reports the stored
      counts, whatever the events now are, and leaves the cache unchanged. */
  lemma WarmCacheServesStoredCounts(cache: Cache, found: Found, setResult: SetResult,
                                    later: Found, laterSet: SetResult)
    ensures var first := GetCounts(cache, found, setResult);
            var second := GetCounts(first.cache, later, laterSet);
            && second.values == [first.cache[CountId], first.cache[MasterCountId]]
            && second.cache == first.cache
    ensures Miss(cache, CountId) ==>
              GetCounts(GetCounts(cache, found, setResult).cache, later, laterSet).values[0]
              == Int(found(CountArgs))
  {
    var first := GetCounts(cache, found, setResult);
    assert !Miss(first.cache, CountId);
    assert !Miss(first.cache, MasterCountId);
  }
}
