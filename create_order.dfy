/**
 * `CreateOrderHandler`: a DRAFT order under a generated id, saved and projected. The
 * handler has no cache: nothing is cached for an order until it is first read.
 */
module CreateOrder {
  import opened Wrappers
  import opened Failures
  import opened OrderStates
  import opened Orders
  import opened Repository
  import opened Effects
  import opened Projection

  /**
   * `handle` on the tables, with `orderId` the value of `generateOrderId` (the clock in
   * microseconds) and `now` the time `createDraft` is given.
   */
  function CreateSpec(db: Db, orderId: int, now: int): (r: Handled)
  {
    var draft := Draft(orderId, now);
    var saved := SaveOrder(db, draft);
    if saved.outcome.Fail? then Handled(saved.db, Err(saved.outcome.error))
    else Handled(saved.db, Ok(ToDTO(draft)))
  }

  /**
   * Creating never throws: a draft has no items, so `save` runs no INSERT that could be
   * refused. The DTO is the new draft: DRAFT, created `now`, never updated, empty, total 0.
   */
  lemma CreateReturnsDraft(db: Db, orderId: int, now: int)
    ensures var r := CreateSpec(db, orderId, now);
      && r.result.Ok?
      && r.result.value == OrderDTO(orderId, "DRAFT", now, None, [], 0)
  {
    var draft := Draft(orderId, now);
    assert SaveOrder(db, draft).outcome.Pass?;
    assert ItemsTotal(draft.items) == 0;
  }

  /**
   * What `findById` then returns. For a fresh id it is the draft itself. An id that is
   * already taken goes down the UPDATE branch of `save`: the existing order is reset to
   * DRAFT, never updated and without items, and keeps the created_at it was stored with,
   * not the `now` the returned DTO reports.
   */
  lemma CreateThenFind(db: Db, orderId: int, now: int)
    ensures var r := CreateSpec(db, orderId, now);
      && Finds(r.db, orderId)
      && Found(r.db, orderId) ==
         Draft(orderId, if orderId in db.orders then db.orders[orderId].createdAt else now)
  {
    var draft := Draft(orderId, now);
    assert SaveOrder(db, draft).outcome.Pass?;
    SaveThenLoad(db, draft);
  }

  /** Creating an order leaves what `findById` returns for every other id unchanged. */
  lemma CreateKeepsOtherOrders(db: Db, orderId: int, now: int, other: int)
    requires other != orderId
    ensures LoadOrder(CreateSpec(db, orderId, now).db, other) == LoadOrder(db, other)
  {
    var draft := Draft(orderId, now);
    assert SaveOrder(db, draft).outcome.Pass?;
    SaveKeepsOtherOrders(db, draft, other);
  }

  class CreateOrderHandler {
    const repository: OrderRepository

    /** The repository keeps its primary key. */
    ghost predicate Valid()
      reads repository
    {
      repository.Valid()
    }

    constructor(repository: OrderRepository)
      requires repository.Valid()
      ensures Valid() && this.repository == repository
    {
      this.repository := repository;
    }

    /** `handle`: `createDraft`, `save`, project; the one effect is the save. */
    method Handle(orderId: int, now: int) returns (dto: OrderDTO)
      requires Valid()
      modifies repository, repository.log
      ensures Valid()
      ensures Handled(repository.Tables(), Ok(dto)) == CreateSpec(old(repository.Tables()), orderId, now)
      ensures repository.log.events == old(repository.log.events) + [OrderSaved(orderId)]
    {
      ghost var db := repository.Tables();
      var order := new Order.CreateDraft(orderId, now);
      var saved := repository.Save(order);
      assert SaveOrder(db, Draft(orderId, now)).outcome.Pass?;
      dto := ToDTO(order.Data());
    }
  }
}
