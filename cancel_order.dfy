/**
 * `CancelOrderHandler`: load the order, `cancel` it, `save` it, store the audit the
 * cancellation emitted, then delete the cached projection.
 */
module CancelOrder {
  import opened Wrappers
  import opened Failures
  import opened OrderStates
  import opened OrderItems
  import opened OrderAudits
  import opened Orders
  import opened Repository
  import opened Caching
  import opened Effects
  import opened Projection

  datatype CancelOrderCommand = CancelOrderCommand(orderId: int, reason: string)

  /** `handle($command)` on the tables, with `now` the time `cancel` reads for both timestamps. */
  function CancelSpec(db: Db, cmd: CancelOrderCommand, now: int): (r: Handled)
  {
    match LoadOrder(db, cmd.orderId)
    case Err(e) => Handled(db, Err(e))
    case Ok(None) => Handled(db, Err(NotFound(cmd.orderId)))
    case Ok(Some(d)) => CancelLoaded(db, d, cmd, now)
  }

  /** The rest of `handle` once `findById` returned the order `d`. */
  function CancelLoaded(db: Db, d: OrderData, cmd: CancelOrderCommand, now: int): (r: Handled)
  {
    match CancelStep(d, cmd.reason, now)
    case Err(e) => Handled(db, Err(e))
    case Ok(c) =>
      var saved := SaveOrder(db, c.order);
      if saved.outcome.Fail? then Handled(saved.db, Err(saved.outcome.error))
      else Handled(AppendAudit(saved.db, c.audit), Ok(ToDTO(c.order)))
  }

  /**
   * Every failure before `save` throws and leaves the tables as they were: unknown id,
   * unreadable row, order not CONFIRMED (a DRAFT or an already cancelled one).
   */
  lemma CancelRejections(db: Db, cmd: CancelOrderCommand, now: int)
    ensures var r := CancelSpec(db, cmd, now);
      && (LoadOrder(db, cmd.orderId) == Ok(None) ==> r == Handled(db, Err(NotFound(cmd.orderId))))
      && (LoadOrder(db, cmd.orderId).Err? ==> r == Handled(db, Err(LoadOrder(db, cmd.orderId).error)))
      && (Finds(db, cmd.orderId) && Found(db, cmd.orderId).state != CONFIRMED ==>
           r == Handled(db, Err(DomainError(NotConfirmedForCancel))))
  {
  }

  /**
   * With the primary key intact, cancelling succeeds exactly when the order is found
   * CONFIRMED: re-saving its own items can never clash.
   */
  lemma CancelSucceedsIff(db: Db, cmd: CancelOrderCommand, now: int)
    requires UniqueIds(db.items)
    ensures CancelSpec(db, cmd, now).result.Ok? <==>
      Finds(db, cmd.orderId) && Found(db, cmd.orderId).state == CONFIRMED
  {
    if Finds(db, cmd.orderId) && Found(db, cmd.orderId).state == CONFIRMED {
      var d := Found(db, cmd.orderId);
      var cancelled := CancelStep(d, cmd.reason, now).value.order;
      assert cancelled.items == d.items + [];
      ResaveSucceedsIff(db, d, cancelled, []);
    }
  }

  /**
   * The audit trail: a success appends exactly one row, CANCELLED with the command's reason
   * at `now`, after the rows already there; a failure appends none.
   */
  lemma CancelAppendsOneAudit(db: Db, cmd: CancelOrderCommand, now: int)
    ensures var r := CancelSpec(db, cmd, now);
      if r.result.Ok? then r.db.audits == db.audits + [AuditRow(cmd.orderId, CancelledAction, cmd.reason, now)]
      else r.db.audits == db.audits
  {
    if Finds(db, cmd.orderId) && Found(db, cmd.orderId).state == CONFIRMED {
      var d := Found(db, cmd.orderId);
      var c := CancelStep(d, cmd.reason, now).value;
      assert c.audit.orderId == cmd.orderId;
    }
  }

  /** Appending an audit row changes nothing `findById` reads. */
  lemma LoadIgnoresAudits(db: Db, a: OrderAudit, id: int)
    ensures LoadOrder(AppendAudit(db, a), id) == LoadOrder(db, id)
  {
    LoadOrderCongruent(AppendAudit(db, a), db, id);
  }

  /**
   * A successful cancel returns and stores the order as CANCELLED with the loaded items,
   * in the same order, and the same total.
   */
  lemma CancelKeepsItems(db: Db, cmd: CancelOrderCommand, now: int)
    requires CancelSpec(db, cmd, now).result.Ok?
    ensures Finds(db, cmd.orderId)
    ensures var r, d := CancelSpec(db, cmd, now), Found(db, cmd.orderId);
      && r.result.value.state == "CANCELLED" && r.result.value.updatedAt == Some(now)
      && r.result.value.items == ToDTO(d).items && r.result.value.totalCents == ToDTO(d).totalCents
      && Finds(r.db, cmd.orderId)
      && var stored := Found(r.db, cmd.orderId);
         && stored.state == CANCELLED && stored.updatedAt == Some(now)
         && stored.items == d.items
  {
    var d := Found(db, cmd.orderId);
    var c := CancelStep(d, cmd.reason, now).value;
    var saved := SaveOrder(db, c.order).db;
    assert CancelSpec(db, cmd, now) == Handled(AppendAudit(saved, c.audit), Ok(ToDTO(c.order)));
    LoadedItemsBelong(db, d);
    LoadedItemsSorted(db, d);
    SaveThenLoad(db, c.order);
    SortByIdOfAscending(d.items);
    LoadIgnoresAudits(saved, c.audit, cmd.orderId);
  }

  class CancelOrderHandler {
    const repository: OrderRepository
    const cache: Cache

    /** The repository keeps its primary key, and both seams report to one log. */
    ghost predicate Valid()
      reads repository
    {
      repository.Valid() && repository.log == cache.log
    }

    constructor(repository: OrderRepository, cache: Cache)
      requires repository.Valid() && repository.log == cache.log
      ensures Valid() && this.repository == repository && this.cache == cache
    {
      this.repository := repository;
      this.cache := cache;
    }

    /**
     * `handle`: the tables change as `CancelSpec` says; a success saves the order, then the
     * audit, then deletes `"order:{$orderId}"`. Nothing is ever written to the cache.
     */
    method Handle(cmd: CancelOrderCommand, now: int) returns (r: Result<OrderDTO, Error>)
      requires Valid()
      modifies repository, cache, repository.log
      ensures Valid()
      ensures Handled(repository.Tables(), r) == CancelSpec(old(repository.Tables()), cmd, now)
      ensures var key := OrderKey(cmd.orderId);
        if r.Ok? then
          && cache.entries == old(cache.entries) - {key} && cache.ttls == old(cache.ttls) - {key}
          && cache.log.events ==
             old(cache.log.events) + [OrderSaved(cmd.orderId), AuditSaved(cmd.orderId)] + [CacheDeleted(key)]
        else
          && cache.entries == old(cache.entries) && cache.ttls == old(cache.ttls)
          && cache.log.events == old(cache.log.events)
    {
      ghost var db := repository.Tables();
      var found := repository.FindById(cmd.orderId);
      if found.Err? {
        return Err(found.error);
      }
      if found.value.None? {
        return Err(NotFound(cmd.orderId));
      }
      var order := found.value.value;
      assert CancelSpec(db, cmd, now) == CancelLoaded(db, order.Data(), cmd, now);
      r := CancelFound(order, cmd, now);
      if r.Ok? {
        cache.Delete(OrderKey(cmd.orderId));
      }
    }

    /**
     * `cancel`, `save` and `saveAudit` on the order `findById` returned, and its projection.
     * The audit is stored only after the order was; the cache is not touched.
     */
    method CancelFound(order: Order, cmd: CancelOrderCommand, now: int) returns (r: Result<OrderDTO, Error>)
      requires Valid() && order.id == cmd.orderId
      modifies order, repository, repository.log
      ensures Valid()
      ensures Handled(repository.Tables(), r) == CancelLoaded(old(repository.Tables()), old(order.Data()), cmd, now)
      ensures repository.log.events ==
        old(repository.log.events) + if r.Ok? then [OrderSaved(cmd.orderId), AuditSaved(cmd.orderId)] else []
    {
      ghost var db, d := repository.Tables(), order.Data();
      var audit := order.Cancel(cmd.reason, now);
      if audit.Err? {
        return Err(audit.error);
      }
      ghost var e := order.Data();
      assert CancelStep(d, cmd.reason, now) == Ok(Cancelled(e, audit.value));
      var saved := repository.Save(order);
      if saved.Fail? {
        return Err(saved.error);
      }
      ghost var stored := repository.Tables();
      repository.SaveAudit(audit.value);
      assert CancelLoaded(db, d, cmd, now) == Handled(AppendAudit(stored, audit.value), Ok(ToDTO(e)));
      r := Ok(ToDTO(order.Data()));
    }
  }
}
