/** `ConfirmOrderHandler`: load the order, `confirm`, `save`, then delete the cached projection. */
module ConfirmOrder {
  import opened Wrappers
  import opened Failures
  import opened OrderStates
  import opened OrderItems
  import opened Orders
  import opened Repository
  import opened Caching
  import opened Effects
  import opened Projection

  datatype ConfirmOrderCommand = ConfirmOrderCommand(orderId: int)

  /** `handle($command)` on the tables, with `now` the clock read by `confirm`. */
  function ConfirmSpec(db: Db, cmd: ConfirmOrderCommand, now: int): (r: Handled)
  {
    match LoadOrder(db, cmd.orderId)
    case Err(e) => Handled(db, Err(e))
    case Ok(None) => Handled(db, Err(NotFound(cmd.orderId)))
    case Ok(Some(d)) => ConfirmLoaded(db, d, now)
  }

  /** The rest of `handle` once `findById` returned the order `d`. */
  function ConfirmLoaded(db: Db, d: OrderData, now: int): (r: Handled)
  {
    match ConfirmStep(d, now)
    case Err(e) => Handled(db, Err(e))
    case Ok(confirmed) =>
      var saved := SaveOrder(db, confirmed);
      if saved.outcome.Fail? then Handled(saved.db, Err(saved.outcome.error))
      else Handled(saved.db, Ok(ToDTO(confirmed)))
  }

  /**
   * Every failure before `save` throws and leaves the tables as they were: unknown id,
   * unreadable row, order not in DRAFT, DRAFT order without items.
   */
  lemma ConfirmRejections(db: Db, cmd: ConfirmOrderCommand, now: int)
    ensures var r := ConfirmSpec(db, cmd, now);
      && (LoadOrder(db, cmd.orderId) == Ok(None) ==> r == Handled(db, Err(NotFound(cmd.orderId))))
      && (LoadOrder(db, cmd.orderId).Err? ==> r == Handled(db, Err(LoadOrder(db, cmd.orderId).error)))
      && (Finds(db, cmd.orderId) && Found(db, cmd.orderId).state != DRAFT ==>
           r == Handled(db, Err(DomainError(NotDraftForConfirm))))
      && (Finds(db, cmd.orderId) && Found(db, cmd.orderId).state == DRAFT && Found(db, cmd.orderId).items == [] ==>
           r == Handled(db, Err(DomainError(NoItems))))
  {
  }

  /**
   * With the primary key intact, confirming succeeds exactly when the order is found in
   * DRAFT with at least one item: re-saving its own items can never clash.
   */
  lemma ConfirmSucceedsIff(db: Db, cmd: ConfirmOrderCommand, now: int)
    requires UniqueIds(db.items)
    ensures ConfirmSpec(db, cmd, now).result.Ok? <==>
      Finds(db, cmd.orderId) && Found(db, cmd.orderId).state == DRAFT && |Found(db, cmd.orderId).items| > 0
  {
    if Finds(db, cmd.orderId) && Found(db, cmd.orderId).state == DRAFT && |Found(db, cmd.orderId).items| > 0 {
      var d := Found(db, cmd.orderId);
      var confirmed := ConfirmStep(d, now).value;
      assert confirmed.items == d.items + [];
      ResaveSucceedsIff(db, d, confirmed, []);
    }
  }

  /**
   * A successful confirm returns and stores the order as CONFIRMED with the loaded items,
   * in the same order, and the same total.
   */
  lemma ConfirmKeepsItems(db: Db, cmd: ConfirmOrderCommand, now: int)
    requires ConfirmSpec(db, cmd, now).result.Ok?
    ensures Finds(db, cmd.orderId)
    ensures var r, d := ConfirmSpec(db, cmd, now), Found(db, cmd.orderId);
      && r.result.value.state == "CONFIRMED" && r.result.value.updatedAt == Some(now)
      && r.result.value.items == ToDTO(d).items && r.result.value.totalCents == ToDTO(d).totalCents
      && Finds(r.db, cmd.orderId)
      && var stored := Found(r.db, cmd.orderId);
         && stored.state == CONFIRMED && stored.updatedAt == Some(now)
         && stored.items == d.items
  {
    var d := Found(db, cmd.orderId);
    var confirmed := ConfirmStep(d, now).value;
    assert ConfirmSpec(db, cmd, now) == Handled(SaveOrder(db, confirmed).db, Ok(ToDTO(confirmed)));
    LoadedItemsBelong(db, d);
    LoadedItemsSorted(db, d);
    SaveThenLoad(db, confirmed);
    SortByIdOfAscending(d.items);
  }

  class ConfirmOrderHandler {
    const repository: OrderRepository
    const cache: Cache

    /** The repository keeps its primary key, and both seams report to one log. */
    ghost predicate Valid()
      reads repository
    {
      repository.Valid() && repository.log == cache.log
    }

    constructor(repository: OrderRepository, cache: Cache)
      requires repository.Valid() && repository.log == cache.log
      ensures Valid() && this.repository == repository && this.cache == cache
    {
      this.repository := repository;
      this.cache := cache;
    }

    /**
     * `handle`: the tables change as `ConfirmSpec` says; only a success saves, and then
     * deletes `"order:{$orderId}"` after the save. Nothing is ever written to the cache.
     */
    method Handle(cmd: ConfirmOrderCommand, now: int) returns (r: Result<OrderDTO, Error>)
      requires Valid()
      modifies repository, cache, repository.log
      ensures Valid()
      ensures Handled(repository.Tables(), r) == ConfirmSpec(old(repository.Tables()), cmd, now)
      ensures var key := OrderKey(cmd.orderId);
        if r.Ok? then
          && cache.entries == old(cache.entries) - {key} && cache.ttls == old(cache.ttls) - {key}
          && cache.log.events == old(cache.log.events) + [OrderSaved(cmd.orderId)] + [CacheDeleted(key)]
        else
          && cache.entries == old(cache.entries) && cache.ttls == old(cache.ttls)
          && cache.log.events == old(cache.log.events)
    {
      ghost var db := repository.Tables();
      var found := repository.FindById(cmd.orderId);
      if found.Err? {
        return Err(found.error);
      }
      if found.value.None? {
        return Err(NotFound(cmd.orderId));
      }
      var order := found.value.value;
      assert ConfirmSpec(db, cmd, now) == ConfirmLoaded(db, order.Data(), now);
      r := ConfirmFound(order, now);
      if r.Ok? {
        cache.Delete(OrderKey(cmd.orderId));
      }
    }

    /** `confirm` and `save` on the order `findById` returned, and its projection. The cache is not touched. */
    method ConfirmFound(order: Order, now: int) returns (r: Result<OrderDTO, Error>)
      requires Valid()
      modifies order, repository, repository.log
      ensures Valid()
      ensures Handled(repository.Tables(), r) == ConfirmLoaded(old(repository.Tables()), old(order.Data()), now)
      ensures repository.log.events == old(repository.log.events) + if r.Ok? then [OrderSaved(order.id)] else []
    {
      ghost var db, d := repository.Tables(), order.Data();
      var confirmed := order.Confirm(now);
      if confirmed.Fail? {
        return Err(confirmed.error);
      }
      ghost var e := order.Data();
      assert ConfirmStep(d, now) == Ok(e);
      var saved := repository.Save(order);
      if saved.Fail? {
        return Err(saved.error);
      }
      assert ConfirmLoaded(db, d, now) == Handled(repository.Tables(), Ok(ToDTO(e)));
      r := Ok(ToDTO(order.Data()));
    }
  }
}
