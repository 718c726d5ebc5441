/** The `CacheInterface` seam, as an in-memory key-value store. */
module Caching {
  import opened Wrappers
  import opened Effects
  import Text

  /**
   * A JSON document as `json_decode($json, true)` returns it. The cache stores the
   * document itself in place of its `json_encode` text.
   */
  datatype Json =
    | JNull
    | JInt(i: int)
    | JString(s: string)
    | JArray(elems: seq<Json>)
    | JObject(fields: map<string, Json>)

  /** The key under which an order's projection is cached, `"order:{$orderId}"`. */
  function OrderKey(orderId: int): string
  {
    "order:" + Text.IntToString(orderId)
  }

  /** Keys of different orders differ, so invalidating one order never evicts another. */
  lemma OrderKeyInjective(a: int, b: int)
    requires OrderKey(a) == OrderKey(b)
    ensures a == b
  {
    var k := OrderKey(a);
    assert Text.IntToString(a) == k[6..] == Text.IntToString(b);
    Text.IntToStringInjective(a, b);
  }

  /** Deleting one order's key leaves the entry of every other order as it was. */
  lemma DeleteIsTargeted(entries: map<string, Json>, deleted: int, other: int)
    requires deleted != other
    ensures OrderKey(other) in entries ==> OrderKey(other) in entries - {OrderKey(deleted)}
    ensures OrderKey(other) in entries ==> (entries - {OrderKey(deleted)})[OrderKey(other)] == entries[OrderKey(other)]
  {
    if OrderKey(other) == OrderKey(deleted) {
      OrderKeyInjective(other, deleted);
    }
  }

  /** The cache: current entries, and the TTL each was last written with (expiry is not modelled). */
  class Cache {
    var entries: map<string, Json>
    var ttls: map<string, int>
    const log: EffectLog

    constructor(log: EffectLog)
      ensures entries == map[] && ttls == map[] && this.log == log
    {
      entries := map[];
      ttls := map[];
      this.log := log;
    }

    /** `get`: the stored document, or null on a miss. */
    method Get(key: string) returns (v: Option<Json>)
      ensures key in entries <==> v.Some?
      ensures v.Some? ==> v.value == entries[key]
    {
      v := if key in entries then Some(entries[key]) else None;
    }

    /** `set(key, value, ttl)`. */
    method Set(key: string, value: Json, ttlSeconds: int)
      modifies this, log
      ensures entries == old(entries)[key := value] && ttls == old(ttls)[key := ttlSeconds]
      ensures log.events == old(log.events) + [CacheWritten(key, ttlSeconds)]
    {
      entries := entries[key := value];
      ttls := ttls[key := ttlSeconds];
      log.events := log.events + [CacheWritten(key, ttlSeconds)];
    }

    /** `delete(key)`. */
    method Delete(key: string)
      modifies this, log
      ensures entries == old(entries) - {key} && ttls == old(ttls) - {key}
      ensures log.events == old(log.events) + [CacheDeleted(key)]
    {
      entries := entries - {key};
      ttls := ttls - {key};
      log.events := log.events + [CacheDeleted(key)];
    }
  }
}
