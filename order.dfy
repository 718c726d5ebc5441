/** The `Order` aggregate: its lifecycle state machine, its items and its total. */
module Orders {
  import opened Wrappers
  import opened Failures
  import opened OrderStates
  import opened OrderItems
  import opened OrderAudits

  /** The observable state of an `Order` object: what its five getters return. */
  datatype OrderData = OrderData(
    id: int,
    state: OrderState,
    createdAt: int,
    updatedAt: Option<int>,
    items: seq<OrderItem>)

  const NotDraftForAdd := "Can only add items to DRAFT orders"
  const ForeignItem := "Order item does not belong to this order"
  const NotDraftForConfirm := "Can only confirm DRAFT orders"
  const NoItems := "Cannot confirm order without items"
  const NotConfirmedForCancel := "Can only cancel CONFIRMED orders"
  const CancelledAction := "CANCELLED"

  /** `getTotalCents`: the sum of the line totals. Each line is bounded by it, and it is 0 exactly when every line is free. */
  function ItemsTotal(items: seq<OrderItem>): (r: nat)
    ensures forall i :: 0 <= i < |items| ==> LineTotal(items[i]) <= r
    ensures r == 0 <==> forall i :: 0 <= i < |items| ==> items[i].priceCents == 0
  {
    if items == [] then 0 else LineTotal(items[0]) + ItemsTotal(items[1..])
  }

  lemma {:induction false} ItemsTotalConcat(a: seq<OrderItem>, b: seq<OrderItem>)
    ensures ItemsTotal(a + b) == ItemsTotal(a) + ItemsTotal(b)
  {
    if a != [] {
      assert (a + b)[1..] == a[1..] + b;
      ItemsTotalConcat(a[1..], b);
    } else {
      assert a + b == b;
    }
  }

  /** Appending an item adds exactly its line total. */
  lemma ItemsTotalAppend(items: seq<OrderItem>, item: OrderItem)
    ensures ItemsTotal(items + [item]) == ItemsTotal(items) + LineTotal(item)
  {
    ItemsTotalConcat(items, [item]);
  }

  /** Taking one line out of the list takes its line total out of the sum. */
  lemma {:induction false} ItemsTotalRemove(b: seq<OrderItem>, k: int)
    requires 0 <= k < |b|
    ensures ItemsTotal(b) == LineTotal(b[k]) + ItemsTotal(b[..k] + b[k + 1..])
  {
    if k == 0 {
      assert b[..0] + b[1..] == b[1..];
    } else {
      ItemsTotalRemove(b[1..], k - 1);
      var rest := b[..k] + b[k + 1..];
      assert rest[0] == b[0];
      assert rest[1..] == b[1..][..k - 1] + b[1..][k..];
    }
  }

  /** Removing position `k` from a list removes one occurrence of `b[k]` from its multiset. */
  lemma MultisetWithout(b: seq<OrderItem>, k: int)
    requires 0 <= k < |b|
    ensures multiset(b[..k] + b[k + 1..]) == multiset(b) - multiset{b[k]}
  {
    var x, rest := b[k], b[..k] + b[k + 1..];
    assert b == b[..k] + [x] + b[k + 1..];
    assert multiset(b) == multiset(rest) + multiset{x};
  }

  /** An element of a list's multiset sits at some position of the list. */
  lemma PositionOf(b: seq<OrderItem>, x: OrderItem) returns (k: int)
    requires x in multiset(b)
    ensures 0 <= k < |b| && b[k] == x
  {
    assert x in b;
    k :| 0 <= k < |b| && b[k] == x;
  }

  lemma TailMultiset(a: seq<OrderItem>)
    requires a != []
    ensures multiset(a[1..]) == multiset(a) - multiset{a[0]}
  {
    assert a == [a[0]] + a[1..];
  }

  /** The first item of `a` sits at some position `k` of its permutation `b`, and the rests still permute. */
  lemma MatchHead(a: seq<OrderItem>, b: seq<OrderItem>) returns (k: int)
    requires multiset(a) == multiset(b) && a != []
    ensures 0 <= k < |b| && b[k] == a[0]
    ensures multiset(a[1..]) == multiset(b[..k] + b[k + 1..])
  {
    k := PositionOf(b, a[0]);
    TailMultiset(a);
    MultisetWithout(b, k);
  }

  /** The total does not depend on the order of the items. */
  lemma {:induction false} ItemsTotalPermutation(a: seq<OrderItem>, b: seq<OrderItem>)
    requires multiset(a) == multiset(b)
    ensures ItemsTotal(a) == ItemsTotal(b)
  {
    if a != [] {
      var k := MatchHead(a, b);
      ItemsTotalPermutation(a[1..], b[..k] + b[k + 1..]);
      ItemsTotalRemove(b, k);
    } else {
      assert |b| == |multiset(b)| == 0;
    }
  }

  /** Neither `id` nor `createdAt` has a setter: two snapshots of one order agree on both. */
  predicate SameIdentity(d: OrderData, e: OrderData)
  {
    d.id == e.id && d.createdAt == e.createdAt
  }

  /**
   * What every order built only through `createDraft`, `addItem`, `confirm` and `cancel`
   * satisfies: its items belong to it, and only a DRAFT order may be empty.
   */
  ghost predicate Reachable(d: OrderData)
  {
    && (forall i :: 0 <= i < |d.items| ==> d.items[i].orderId == d.id)
    && (d.state != DRAFT ==> d.items != [])
  }

  /** `Order::createDraft`: a DRAFT order with the given id and creation time, no items, never updated. */
  function Draft(id: int, createdAt: int): (d: OrderData)
    ensures d.id == id && d.createdAt == createdAt
    ensures d.state == DRAFT && d.items == [] && d.updatedAt == None
    ensures Reachable(d)
  {
    OrderData(id, DRAFT, createdAt, None, [])
  }

  /** `Order::addItem` at time `now`. */
  function AddItemStep(d: OrderData, item: OrderItem, now: int): (r: Result<OrderData, Error>)
    ensures r.Ok? <==> d.state == DRAFT && item.orderId == d.id
    ensures d.state != DRAFT ==> r == Err(DomainError(NotDraftForAdd))
    ensures d.state == DRAFT && item.orderId != d.id ==> r == Err(DomainError(ForeignItem))
    ensures r.Ok? ==> && SameIdentity(r.value, d)
                      && r.value.state == d.state
                      && r.value.items == d.items + [item]
                      && r.value.updatedAt == Some(now)
    ensures r.Ok? && Reachable(d) ==> Reachable(r.value)
  {
    if d.state != DRAFT then Err(DomainError(NotDraftForAdd))
    else if item.orderId != d.id then Err(DomainError(ForeignItem))
    else Ok(d.(items := d.items + [item], updatedAt := Some(now)))
  }

  /** `Order::confirm` at time `now`. */
  function ConfirmStep(d: OrderData, now: int): (r: Result<OrderData, Error>)
    ensures r.Ok? <==> d.state == DRAFT && |d.items| > 0
    ensures d.state != DRAFT ==> r == Err(DomainError(NotDraftForConfirm))
    ensures d.state == DRAFT && d.items == [] ==> r == Err(DomainError(NoItems))
    ensures r.Ok? ==> && SameIdentity(r.value, d)
                      && r.value.state == CONFIRMED
                      && r.value.items == d.items
                      && r.value.updatedAt == Some(now)
    ensures r.Ok? && Reachable(d) ==> Reachable(r.value)
  {
    if d.state != DRAFT then Err(DomainError(NotDraftForConfirm))
    else if |d.items| == 0 then Err(DomainError(NoItems))
    else Ok(d.(state := CONFIRMED, updatedAt := Some(now)))
  }

  /** A successful cancellation: the cancelled order and the audit record it emits. */
  datatype Cancelled = Cancelled(order: OrderData, audit: OrderAudit)

  /** `Order::cancel(reason)` at time `now` (both of its clock reads). */
  function CancelStep(d: OrderData, reason: string, now: int): (r: Result<Cancelled, Error>)
    ensures r.Ok? <==> d.state == CONFIRMED
    ensures r.Err? ==> r.error == DomainError(NotConfirmedForCancel)
    ensures r.Ok? ==> && SameIdentity(r.value.order, d)
                      && r.value.order.state == CANCELLED
                      && r.value.order.items == d.items
                      && r.value.order.updatedAt == Some(now)
    ensures r.Ok? ==> r.value.audit == OrderAudit(0, d.id, CancelledAction, reason, now)
    ensures r.Ok? && Reachable(d) ==> Reachable(r.value.order)
  {
    if d.state != CONFIRMED then Err(DomainError(NotConfirmedForCancel))
    else
      Ok(Cancelled(d.(state := CANCELLED, updatedAt := Some(now)),
                   OrderAudits.Create(0, d.id, CancelledAction, reason, now)))
  }

  /** A call on an order; a call that throws leaves the order as it was. */
  datatype Call = AddItemCall(item: OrderItem, at: int) | ConfirmCall(at: int) | CancelCall(reason: string, at: int)

  function Apply(d: OrderData, c: Call): OrderData
  {
    match c
    case AddItemCall(item, at) => (match AddItemStep(d, item, at) case Ok(e) => e case Err(_) => d)
    case ConfirmCall(at) => (match ConfirmStep(d, at) case Ok(e) => e case Err(_) => d)
    case CancelCall(reason, at) => (match CancelStep(d, reason, at) case Ok(e) => e.order case Err(_) => d)
  }

  /** The order after a sequence of calls, none of them `setItems`. */
  function Run(d: OrderData, calls: seq<Call>): OrderData
    decreases |calls|
  {
    if calls == [] then d else Run(Apply(d, calls[0]), calls[1..])
  }

  /** Along any sequence of calls without `setItems`, the order stays reachable and keeps its id and creation time. */
  lemma {:induction false} RunKeepsReachable(d: OrderData, calls: seq<Call>)
    requires Reachable(d)
    ensures Reachable(Run(d, calls))
    ensures SameIdentity(Run(d, calls), d)
    decreases |calls|
  {
    if calls != [] {
      RunKeepsReachable(Apply(d, calls[0]), calls[1..]);
    }
  }

  /** Every order that `createDraft` started and only the three mutators touched is reachable. */
  lemma CreatedOrdersAreReachable(id: int, createdAt: int, calls: seq<Call>)
    ensures Reachable(Run(Draft(id, createdAt), calls))
    ensures SameIdentity(Run(Draft(id, createdAt), calls), Draft(id, createdAt))
  {
    RunKeepsReachable(Draft(id, createdAt), calls);
  }

  /** CANCELLED has no way out: every call on a cancelled order throws, so no trace changes it. */
  lemma {:induction false} CancelledIsTerminal(d: OrderData, calls: seq<Call>)
    requires d.state == CANCELLED
    ensures Run(d, calls) == d
    decreases |calls|
  {
    if calls != [] {
      assert Apply(d, calls[0]) == d;
      CancelledIsTerminal(d, calls[1..]);
    }
  }

  /** `setItems` is unguarded: it can take a reachable order to an unreachable one. */
  lemma SetItemsBreaksReachable()
    ensures exists d: OrderData, items: seq<OrderItem> :: Reachable(d) && !Reachable(d.(items := items))
  {
    var d := OrderData(1, CONFIRMED, 0, None, [ItemRecord(1, 1, "", 1, 0)]);
    var items: seq<OrderItem> := [];
    assert Reachable(d) && !Reachable(d.(items := items));
  }

  /** The PHP `Order` object: `id` and `createdAt` are readonly, the other three fields are updated in place. */
  class Order {
    const id: int
    const createdAt: int
    var state: OrderState
    var updatedAt: Option<int>
    var items: seq<OrderItem>

    /** What the getters return. */
    function Data(): OrderData
      reads this
    {
      OrderData(id, state, createdAt, updatedAt, items)
    }

    /** `Order::createDraft`. */
    constructor CreateDraft(id: int, createdAt: int)
      ensures Data() == Draft(id, createdAt)
    {
      this.id := id;
      this.createdAt := createdAt;
      state := DRAFT;
      updatedAt := None;
      items := [];
    }

    /**
     * The repository's reconstruction of a stored order: it sets the private state,
     * updatedAt and items directly, without running any guard.
     */
    constructor Rehydrate(d: OrderData)
      ensures Data() == d
    {
      id := d.id;
      createdAt := d.createdAt;
      state := d.state;
      updatedAt := d.updatedAt;
      items := d.items;
    }

    method AddItem(item: OrderItem, now: int) returns (r: Outcome<Error>)
      modifies this
      ensures r.Pass? ==> AddItemStep(old(Data()), item, now) == Ok(Data())
      ensures r.Fail? ==> AddItemStep(old(Data()), item, now) == Err(r.error) && Data() == old(Data())
    {
      if state != DRAFT {
        return Fail(DomainError(NotDraftForAdd));
      }
      if item.orderId != id {
        return Fail(DomainError(ForeignItem));
      }
      items := items + [item];
      updatedAt := Some(now);
      r := Pass;
    }

    method Confirm(now: int) returns (r: Outcome<Error>)
      modifies this
      ensures r.Pass? ==> ConfirmStep(old(Data()), now) == Ok(Data())
      ensures r.Fail? ==> ConfirmStep(old(Data()), now) == Err(r.error) && Data() == old(Data())
    {
      if state != DRAFT {
        return Fail(DomainError(NotDraftForConfirm));
      }
      if |items| == 0 {
        return Fail(DomainError(NoItems));
      }
      state := CONFIRMED;
      updatedAt := Some(now);
      r := Pass;
    }

    method Cancel(reason: string, now: int) returns (r: Result<OrderAudit, Error>)
      modifies this
      ensures r.Ok? ==> CancelStep(old(Data()), reason, now) == Ok(Cancelled(Data(), r.value))
      ensures r.Err? ==> CancelStep(old(Data()), reason, now) == Err(r.error) && Data() == old(Data())
    {
      if state != CONFIRMED {
        return Err(DomainError(NotConfirmedForCancel));
      }
      state := CANCELLED;
      updatedAt := Some(now);
      r := Ok(OrderAudits.Create(0, id, CancelledAction, reason, now));
    }

    /** `getTotalCents`: recomputed from the current items on every call, reading nothing else. */
    function TotalCents(): nat
      reads this
    {
      ItemsTotal(items)
    }

    /** `Order::setItems`: replaces the items with no guard at all. */
    method SetItems(newItems: seq<OrderItem>)
      modifies this
      ensures Data() == old(Data()).(items := newItems)
    {
      items := newItems;
    }
  }
}
