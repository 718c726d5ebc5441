/**
 * `GetOrderHandler`: a read-through cache in front of `findById`. A hit is decoded and
 * returned as is; a miss loads the order, projects it and caches the projection for 60 seconds.
 */
module GetOrder {
  import opened Wrappers
  import opened Failures
  import opened Orders
  import opened Repository
  import opened Caching
  import opened Effects
  import opened Projection

  /** The TTL `handle` passes to `set`. */
  const CacheTtlSeconds := 60

  /** One element of the `items` array of `serializeDTO`. */
  function SerializeItem(line: OrderItemDTO): Json
  {
    JObject(map[
      "id" := JInt(line.id),
      "productName" := JString(line.productName),
      "quantity" := JInt(line.quantity),
      "priceCents" := JInt(line.priceCents),
      "totalCents" := JInt(line.totalCents)])
  }

  function SerializeItems(lines: seq<OrderItemDTO>): (r: seq<Json>)
    ensures |r| == |lines|
  {
    if lines == [] then [] else [SerializeItem(lines[0])] + SerializeItems(lines[1..])
  }

  /** A nullable timestamp: `null` or its value. */
  function SerializeTime(t: Option<int>): Json
  {
    if t.None? then JNull else JInt(t.value)
  }

  /** `serializeDTO`: the document `json_encode` is given. */
  function SerializeDTO(dto: OrderDTO): Json
  {
    JObject(map[
      "id" := JInt(dto.id),
      "state" := JString(dto.state),
      "createdAt" := JInt(dto.createdAt),
      "updatedAt" := SerializeTime(dto.updatedAt),
      "items" := JArray(SerializeItems(dto.items)),
      "totalCents" := JInt(dto.totalCents)])
  }

  /** Reads an int field; a missing key or a value of another type is a decoding failure. */
  function IntField(fields: map<string, Json>, key: string): (r: Result<int, Error>)
    ensures r.Ok? <==> key in fields && fields[key].JInt?
    ensures r.Ok? ==> fields[key] == JInt(r.value)
    ensures r.Err? ==> r.error == MalformedCacheEntry
  {
    if key in fields && fields[key].JInt? then Ok(fields[key].i) else Err(MalformedCacheEntry)
  }

  function StringField(fields: map<string, Json>, key: string): (r: Result<string, Error>)
    ensures r.Ok? <==> key in fields && fields[key].JString?
    ensures r.Ok? ==> fields[key] == JString(r.value)
    ensures r.Err? ==> r.error == MalformedCacheEntry
  {
    if key in fields && fields[key].JString? then Ok(fields[key].s) else Err(MalformedCacheEntry)
  }

  /** `$data['updatedAt'] ?? null`: a missing key and `null` both read as null. */
  function TimeField(fields: map<string, Json>, key: string): (r: Result<Option<int>, Error>)
    ensures r == Ok(None) <==> key !in fields || fields[key] == JNull
    ensures r.Ok? && r.value.Some? ==> fields[key] == JInt(r.value.value)
    ensures r.Err? ==> r.error == MalformedCacheEntry
  {
    if key !in fields || fields[key] == JNull then Ok(None)
    else if fields[key].JInt? then Ok(Some(fields[key].i))
    else Err(MalformedCacheEntry)
  }

  /** One `new OrderItemDTO(...)` of `deserializeDTO`; the typed constructor rejects anything else. */
  function DeserializeItem(j: Json): (r: Result<OrderItemDTO, Error>)
    ensures r.Ok? <==> && j.JObject?
                       && IntField(j.fields, "id").Ok? && StringField(j.fields, "productName").Ok?
                       && IntField(j.fields, "quantity").Ok? && IntField(j.fields, "priceCents").Ok?
                       && IntField(j.fields, "totalCents").Ok?
    ensures r.Ok? ==> && j.fields["id"] == JInt(r.value.id)
                      && j.fields["productName"] == JString(r.value.productName)
                      && j.fields["quantity"] == JInt(r.value.quantity)
                      && j.fields["priceCents"] == JInt(r.value.priceCents)
                      && j.fields["totalCents"] == JInt(r.value.totalCents)
    ensures r.Err? ==> r.error == MalformedCacheEntry
  {
    if !j.JObject? then Err(MalformedCacheEntry)
    else
      var f := j.fields;
      match (IntField(f, "id"), StringField(f, "productName"), IntField(f, "quantity"),
             IntField(f, "priceCents"), IntField(f, "totalCents"))
      case (Ok(id), Ok(name), Ok(quantity), Ok(price), Ok(total)) =>
        Ok(OrderItemDTO(id, name, quantity, price, total))
      case _ => Err(MalformedCacheEntry)
  }

  function DeserializeItems(elems: seq<Json>): (r: Result<seq<OrderItemDTO>, Error>)
    ensures r.Ok? <==> forall i :: 0 <= i < |elems| ==> DeserializeItem(elems[i]).Ok?
    ensures r.Ok? ==> |r.value| == |elems|
    ensures r.Ok? ==> forall i :: 0 <= i < |elems| ==> DeserializeItem(elems[i]) == Ok(r.value[i])
    ensures r.Err? ==> r.error == MalformedCacheEntry
  {
    if elems == [] then Ok([])
    else
      match DeserializeItem(elems[0])
      case Err(e) => Err(e)
      case Ok(line) =>
        match DeserializeItems(elems[1..])
        case Err(e) => Err(e)
        case Ok(lines) => Ok([line] + lines)
  }

  /** `deserializeDTO`: the DTO back from the cached document, or the decoding failure. */
  function DeserializeDTO(j: Json): (r: Result<OrderDTO, Error>)
    ensures r.Ok? <==> && j.JObject? && "items" in j.fields && j.fields["items"].JArray?
                       && IntField(j.fields, "id").Ok? && StringField(j.fields, "state").Ok?
                       && IntField(j.fields, "createdAt").Ok? && TimeField(j.fields, "updatedAt").Ok?
                       && DeserializeItems(j.fields["items"].elems).Ok?
                       && IntField(j.fields, "totalCents").Ok?
    ensures r.Ok? ==> && j.fields["id"] == JInt(r.value.id)
                      && j.fields["state"] == JString(r.value.state)
                      && j.fields["createdAt"] == JInt(r.value.createdAt)
                      && r.value.updatedAt == TimeField(j.fields, "updatedAt").value
                      && r.value.items == DeserializeItems(j.fields["items"].elems).value
                      && j.fields["totalCents"] == JInt(r.value.totalCents)
    ensures r.Err? ==> r.error == MalformedCacheEntry
  {
    if !j.JObject? || "items" !in j.fields || !j.fields["items"].JArray? then Err(MalformedCacheEntry)
    else
      var f := j.fields;
      match (IntField(f, "id"), StringField(f, "state"), IntField(f, "createdAt"),
             TimeField(f, "updatedAt"), DeserializeItems(f["items"].elems), IntField(f, "totalCents"))
      case (Ok(id), Ok(state), Ok(createdAt), Ok(updatedAt), Ok(lines), Ok(total)) =>
        Ok(OrderDTO(id, state, createdAt, updatedAt, lines, total))
      case _ => Err(MalformedCacheEntry)
  }

  /** One line decodes to itself. */
  lemma DeserializeSerializeItem(line: OrderItemDTO)
    ensures DeserializeItem(SerializeItem(line)) == Ok(line)
  {
    var f := SerializeItem(line).fields;
    assert "id" in f && f["id"] == JInt(line.id);
    assert "productName" in f && f["productName"] == JString(line.productName);
    assert "quantity" in f && f["quantity"] == JInt(line.quantity);
    assert "priceCents" in f && f["priceCents"] == JInt(line.priceCents);
    assert "totalCents" in f && f["totalCents"] == JInt(line.totalCents);
  }

  lemma {:induction false} DeserializeSerializeItems(lines: seq<OrderItemDTO>)
    ensures DeserializeItems(SerializeItems(lines)) == Ok(lines)
  {
    if lines != [] {
      DeserializeSerializeItem(lines[0]);
      DeserializeSerializeItems(lines[1..]);
      assert SerializeItems(lines)[1..] == SerializeItems(lines[1..]);
      assert lines == [lines[0]] + lines[1..];
    }
  }

  /** What the cache stores decodes to the DTO it was made from, a null `updatedAt` included. */
  lemma DeserializeSerialize(dto: OrderDTO)
    ensures DeserializeDTO(SerializeDTO(dto)) == Ok(dto)
  {
    var f := SerializeDTO(dto).fields;
    SerializedFields(dto);
    DeserializeSerializeItems(dto.items);
    assert IntField(f, "id") == Ok(dto.id);
    assert StringField(f, "state") == Ok(dto.state);
    assert IntField(f, "createdAt") == Ok(dto.createdAt);
    assert TimeField(f, "updatedAt") == Ok(dto.updatedAt);
    assert IntField(f, "totalCents") == Ok(dto.totalCents);
  }

  /** Each key of the document holds the field it was written from. */
  lemma SerializedFields(dto: OrderDTO)
    ensures var j := SerializeDTO(dto);
      && j.JObject?
      && "id" in j.fields && j.fields["id"] == JInt(dto.id)
      && "state" in j.fields && j.fields["state"] == JString(dto.state)
      && "createdAt" in j.fields && j.fields["createdAt"] == JInt(dto.createdAt)
      && "updatedAt" in j.fields && j.fields["updatedAt"] == SerializeTime(dto.updatedAt)
      && "items" in j.fields && j.fields["items"] == JArray(SerializeItems(dto.items))
      && "totalCents" in j.fields && j.fields["totalCents"] == JInt(dto.totalCents)
  {
  }

  /** So two different DTOs are never cached as the same document. */
  lemma SerializeInjective(a: OrderDTO, b: OrderDTO)
    requires SerializeDTO(a) == SerializeDTO(b)
    ensures a == b
  {
    DeserializeSerialize(a);
    DeserializeSerialize(b);
  }

  /** The entry `get` finds under `key`, or null. */
  function Lookup(entries: map<string, Json>, key: string): Option<Json>
  {
    if key in entries then Some(entries[key]) else None
  }

  /** `handle($orderId)` given the tables and what the cache holds under `"order:{$orderId}"`. */
  function GetSpec(db: Db, cached: Option<Json>, orderId: int): (r: Result<OrderDTO, Error>)
    ensures cached.Some? ==> r == DeserializeDTO(cached.value)
    ensures cached.None? && LoadOrder(db, orderId) == Ok(None) ==> r == Err(NotFound(orderId))
    ensures cached.None? && LoadOrder(db, orderId).Err? ==> r == Err(LoadOrder(db, orderId).error)
    ensures cached.None? && r.Ok? ==>
      LoadOrder(db, orderId).Ok? && LoadOrder(db, orderId).value.Some? &&
      r.value == ToDTO(LoadOrder(db, orderId).value.value)
  {
    if cached.Some? then DeserializeDTO(cached.value)
    else
      match LoadOrder(db, orderId)
      case Err(e) => Err(e)
      case Ok(None) => Err(NotFound(orderId))
      case Ok(Some(d)) => Ok(ToDTO(d))
  }

  /**
   * Read-through consistency: after a miss that succeeded, the entry it stored answers the
   * next request with the same DTO, whatever the tables then hold.
   */
  lemma ReadThroughConsistent(db: Db, db2: Db, orderId: int)
    requires GetSpec(db, None, orderId).Ok?
    ensures GetSpec(db2, Some(SerializeDTO(GetSpec(db, None, orderId).value)), orderId) == GetSpec(db, None, orderId)
  {
    DeserializeSerialize(GetSpec(db, None, orderId).value);
  }

  /**
   * A miss right after a save projects the order that was saved, with the created_at the
   * table kept, provided its item ids ascend as `ORDER BY id` returns them.
   */
  lemma MissAfterSaveProjectsSavedOrder(db: Db, d: OrderData)
    requires Belong(d.items, d.id) && Ascending(d.items)
    requires SaveOrder(db, d).outcome.Pass?
    ensures var createdAt := if d.id in db.orders then db.orders[d.id].createdAt else d.createdAt;
      GetSpec(SaveOrder(db, d).db, None, d.id) == Ok(ToDTO(d.(createdAt := createdAt)))
  {
    SaveThenLoad(db, d);
    SortByIdOfAscending(d.items);
  }

  class GetOrderHandler {
    const repository: OrderRepository
    const cache: Cache

    constructor(repository: OrderRepository, cache: Cache)
      ensures this.repository == repository && this.cache == cache
    {
      this.repository := repository;
      this.cache := cache;
    }

    /**
     * `handle`: a hit returns the decoded entry and touches nothing else; a miss that finds
     * the order stores the projection with TTL 60; every failure leaves the cache alone.
     */
    method Handle(orderId: int) returns (r: Result<OrderDTO, Error>)
      modifies cache, cache.log
      ensures r == GetSpec(repository.Tables(), Lookup(old(cache.entries), OrderKey(orderId)), orderId)
      ensures var key := OrderKey(orderId);
        if key !in old(cache.entries) && r.Ok? then
          && cache.entries == old(cache.entries)[key := SerializeDTO(r.value)]
          && cache.ttls == old(cache.ttls)[key := CacheTtlSeconds]
          && cache.log.events == old(cache.log.events) + [CacheWritten(key, CacheTtlSeconds)]
        else
          && cache.entries == old(cache.entries) && cache.ttls == old(cache.ttls)
          && cache.log.events == old(cache.log.events)
    {
      var key := OrderKey(orderId);
      var cached := cache.Get(key);
      if cached.Some? {
        return DeserializeDTO(cached.value);
      }
      var found := repository.FindById(orderId);
      if found.Err? {
        return Err(found.error);
      }
      if found.value.None? {
        return Err(NotFound(orderId));
      }
      var dto := ToDTO(found.value.value.Data());
      cache.Set(key, SerializeDTO(dto), CacheTtlSeconds);
      r := Ok(dto);
    }
  }
}
