/**
 * `AddOrderItemHandler`: load the order, build the item under a fresh id, `addItem`,
 * `save`, then delete the cached projection.
 */
module AddOrderItem {
  import opened Wrappers
  import opened Failures
  import opened OrderStates
  import opened OrderItems
  import opened Orders
  import opened Repository
  import opened Caching
  import opened Effects
  import opened Projection

  datatype AddOrderItemCommand = AddOrderItemCommand(orderId: int, productName: string, quantity: int, priceCents: int)

  /**
   * `handle($command)` on the tables, with `itemId` the value of `generateItemId` and `now`
   * the clock read by `addItem`.
   */
  function AddItemSpec(db: Db, cmd: AddOrderItemCommand, itemId: int, now: int): (r: Handled)
  {
    match LoadOrder(db, cmd.orderId)
    case Err(e) => Handled(db, Err(e))
    case Ok(None) => Handled(db, Err(NotFound(cmd.orderId)))
    case Ok(Some(d)) => AddItemLoaded(db, d, cmd, itemId, now)
  }

  /** The rest of `handle` once `findById` returned the order `d`. */
  function AddItemLoaded(db: Db, d: OrderData, cmd: AddOrderItemCommand, itemId: int, now: int): (r: Handled)
  {
    match OrderItems.Create(itemId, cmd.orderId, cmd.productName, cmd.quantity, cmd.priceCents)
    case Err(e) => Handled(db, Err(e))
    case Ok(item) =>
      match AddItemStep(d, item, now)
      case Err(e) => Handled(db, Err(e))
      case Ok(added) =>
        var saved := SaveOrder(db, added);
        if saved.outcome.Fail? then Handled(saved.db, Err(saved.outcome.error))
        else Handled(saved.db, Ok(ToDTO(added)))
  }

  /**
   * Every failure before `save` throws the guard's own exception and leaves the tables as
   * they were: unknown id, unreadable row, invalid quantity (checked first), invalid price,
   * order not in DRAFT.
   */
  lemma AddItemRejections(db: Db, cmd: AddOrderItemCommand, itemId: int, now: int)
    ensures var r := AddItemSpec(db, cmd, itemId, now);
      && (LoadOrder(db, cmd.orderId) == Ok(None) ==> r == Handled(db, Err(NotFound(cmd.orderId))))
      && (LoadOrder(db, cmd.orderId).Err? ==> r == Handled(db, Err(LoadOrder(db, cmd.orderId).error)))
      && (Finds(db, cmd.orderId) && cmd.quantity < 1 ==> r == Handled(db, Err(DomainError(QuantityMessage))))
      && (Finds(db, cmd.orderId) && cmd.quantity >= 1 && cmd.priceCents < 0 ==>
           r == Handled(db, Err(DomainError(PriceMessage))))
      && (Finds(db, cmd.orderId) && cmd.quantity >= 1 && cmd.priceCents >= 0 && Found(db, cmd.orderId).state != DRAFT ==>
           r == Handled(db, Err(DomainError(NotDraftForAdd))))
  {
  }

  /** A success returns the order, still DRAFT, with the command's item as its last line. */
  lemma AddItemReturnsNewLine(db: Db, cmd: AddOrderItemCommand, itemId: int, now: int)
    requires AddItemSpec(db, cmd, itemId, now).result.Ok?
    ensures var dto := AddItemSpec(db, cmd, itemId, now).result.value;
      && dto.id == cmd.orderId && dto.state == "DRAFT" && dto.updatedAt == Some(now)
      && |dto.items| > 0
      && dto.items[|dto.items| - 1] ==
         OrderItemDTO(itemId, cmd.productName, cmd.quantity, cmd.priceCents, cmd.quantity * cmd.priceCents)
  {
    var d := Found(db, cmd.orderId);
    var item := OrderItems.Create(itemId, cmd.orderId, cmd.productName, cmd.quantity, cmd.priceCents).value;
    ToDTOAppend(d.(updatedAt := Some(now)), item);
  }

  /**
   * With the primary key intact, adding an item succeeds exactly when the order is found
   * in DRAFT, the quantity and price are valid, and the generated item id is unused.
   */
  lemma AddItemSucceedsIff(db: Db, cmd: AddOrderItemCommand, itemId: int, now: int)
    requires UniqueIds(db.items)
    ensures AddItemSpec(db, cmd, itemId, now).result.Ok? <==>
      && Finds(db, cmd.orderId) && Found(db, cmd.orderId).state == DRAFT
      && cmd.quantity >= 1 && cmd.priceCents >= 0
      && !HasItemId(db.items, itemId)
  {
    if Finds(db, cmd.orderId) && Found(db, cmd.orderId).state == DRAFT && cmd.quantity >= 1 && cmd.priceCents >= 0 {
      var d := Found(db, cmd.orderId);
      var item := OrderItems.Create(itemId, cmd.orderId, cmd.productName, cmd.quantity, cmd.priceCents).value;
      var added := AddItemStep(d, item, now).value;
      ResaveSucceedsIff(db, d, added, [item]);
      assert UniqueIds([item]);
    }
  }

  /**
   * A successful add stores the loaded order plus the new item, and the DTO lists one more
   * line and a total larger by quantity times price.
   */
  lemma AddItemGrowsOrder(db: Db, cmd: AddOrderItemCommand, itemId: int, now: int)
    requires AddItemSpec(db, cmd, itemId, now).result.Ok?
    ensures Finds(db, cmd.orderId)
    ensures var r, d := AddItemSpec(db, cmd, itemId, now), Found(db, cmd.orderId);
      && |r.result.value.items| == |d.items| + 1
      && r.result.value.totalCents == ToDTO(d).totalCents + cmd.quantity * cmd.priceCents
      && Finds(r.db, cmd.orderId)
      && var stored := Found(r.db, cmd.orderId);
         && stored.state == DRAFT && stored.updatedAt == Some(now)
         && stored.items == SortById(d.items + [ItemRecord(itemId, cmd.orderId, cmd.productName, cmd.quantity, cmd.priceCents)])
  {
    var d := Found(db, cmd.orderId);
    var item := OrderItems.Create(itemId, cmd.orderId, cmd.productName, cmd.quantity, cmd.priceCents).value;
    var added := AddItemStep(d, item, now).value;
    assert AddItemSpec(db, cmd, itemId, now) == Handled(SaveOrder(db, added).db, Ok(ToDTO(added)));
    ToDTOAppend(d.(updatedAt := Some(now)), item);
    LoadedItemsBelong(db, d);
    SaveThenLoad(db, added);
  }

  class AddOrderItemHandler {
    const repository: OrderRepository
    const cache: Cache

    /** The repository keeps its primary key, and both seams report to one log. */
    ghost predicate Valid()
      reads repository
    {
      repository.Valid() && repository.log == cache.log
    }

    constructor(repository: OrderRepository, cache: Cache)
      requires repository.Valid() && repository.log == cache.log
      ensures Valid() && this.repository == repository && this.cache == cache
    {
      this.repository := repository;
      this.cache := cache;
    }

    /**
     * `handle`: the tables change as `AddItemSpec` says; only a success saves, and then
     * deletes `"order:{$orderId}"` after the save. Nothing is ever written to the cache.
     */
    method Handle(cmd: AddOrderItemCommand, itemId: int, now: int) returns (r: Result<OrderDTO, Error>)
      requires Valid()
      modifies repository, cache, repository.log
      ensures Valid()
      ensures Handled(repository.Tables(), r) == AddItemSpec(old(repository.Tables()), cmd, itemId, now)
      ensures var key := OrderKey(cmd.orderId);
        if r.Ok? then
          && cache.entries == old(cache.entries) - {key} && cache.ttls == old(cache.ttls) - {key}
          && cache.log.events == old(cache.log.events) + [OrderSaved(cmd.orderId)] + [CacheDeleted(key)]
        else
          && cache.entries == old(cache.entries) && cache.ttls == old(cache.ttls)
          && cache.log.events == old(cache.log.events)
    {
      ghost var db := repository.Tables();
      var found := repository.FindById(cmd.orderId);
      if found.Err? {
        return Err(found.error);
      }
      if found.value.None? {
        return Err(NotFound(cmd.orderId));
      }
      var order := found.value.value;
      assert AddItemSpec(db, cmd, itemId, now) == AddItemLoaded(db, order.Data(), cmd, itemId, now);
      r := AddItemFound(order, cmd, itemId, now);
      if r.Ok? {
        cache.Delete(OrderKey(cmd.orderId));
      }
    }

    /**
     * `OrderItem::create`, `addItem` and `save` on the order `findById` returned, and its
     * projection. The cache is not touched.
     */
    method AddItemFound(order: Order, cmd: AddOrderItemCommand, itemId: int, now: int) returns (r: Result<OrderDTO, Error>)
      requires Valid()
      modifies order, repository, repository.log
      ensures Valid()
      ensures Handled(repository.Tables(), r) == AddItemLoaded(old(repository.Tables()), old(order.Data()), cmd, itemId, now)
      ensures repository.log.events == old(repository.log.events) + if r.Ok? then [OrderSaved(order.id)] else []
    {
      ghost var db, d := repository.Tables(), order.Data();
      var item := OrderItems.Create(itemId, cmd.orderId, cmd.productName, cmd.quantity, cmd.priceCents);
      if item.Err? {
        return Err(item.error);
      }
      var added := order.AddItem(item.value, now);
      if added.Fail? {
        return Err(added.error);
      }
      ghost var e := order.Data();
      assert AddItemStep(d, item.value, now) == Ok(e);
      var saved := repository.Save(order);
      if saved.Fail? {
        return Err(saved.error);
      }
      assert AddItemLoaded(db, d, cmd, itemId, now) == Handled(repository.Tables(), Ok(ToDTO(e)));
      r := Ok(ToDTO(order.Data()));
    }
  }
}
