/**
 * `OrderDTO`, `OrderItemDTO` and the `toDTO` projection that every handler carries a
 * copy of; the copies are identical, so it is defined once here.
 */
module Projection {
  import opened Wrappers
  import opened Failures
  import opened OrderStates
  import opened OrderItems
  import opened Orders
  import opened Repository

  datatype OrderItemDTO = OrderItemDTO(id: int, productName: string, quantity: int, priceCents: int, totalCents: int)

  /** Timestamps stay whole seconds; `format('Y-m-d H:i:s')` is not modelled. */
  datatype OrderDTO = OrderDTO(
    id: int,
    state: string,
    createdAt: int,
    updatedAt: Option<int>,
    items: seq<OrderItemDTO>,
    totalCents: int)

  /** The tables after a handler ran, and the DTO it returned or the exception it threw. */
  datatype Handled = Handled(db: Db, result: Result<OrderDTO, Error>)

  /** One `new OrderItemDTO(...)` of the `array_map` in `toDTO`. */
  function ItemToDTO(item: OrderItem): (r: OrderItemDTO)
  {
    OrderItemDTO(item.id, item.productName, item.quantity, item.priceCents, LineTotal(item))
  }

  function ItemsToDTO(items: seq<OrderItem>): (r: seq<OrderItemDTO>)
    ensures |r| == |items|
    ensures forall k :: 0 <= k < |items| ==> r[k] == ItemToDTO(items[k])
  {
    seq(|items|, k requires 0 <= k < |items| => ItemToDTO(items[k]))
  }

  /** The sum of the line totals a DTO lists. */
  function LinesTotal(lines: seq<OrderItemDTO>): int
  {
    if lines == [] then 0 else lines[0].totalCents + LinesTotal(lines[1..])
  }

  /** The order total is the sum of the line totals of the projected items. */
  lemma {:induction false} LinesTotalOfItems(items: seq<OrderItem>)
    ensures LinesTotal(ItemsToDTO(items)) == ItemsTotal(items)
  {
    if items != [] {
      LinesTotalOfItems(items[1..]);
      assert ItemsToDTO(items)[1..] == ItemsToDTO(items[1..]);
    }
  }

  /**
   * `toDTO`: the id, the state's backing string, the timestamps, one line per item in
   * order with quantity times price as its total, and `getTotalCents` as the total.
   */
  function ToDTO(d: OrderData): (r: OrderDTO)
    ensures r.id == d.id && From(r.state) == Ok(d.state)
    ensures r.createdAt == d.createdAt && r.updatedAt == d.updatedAt
    ensures |r.items| == |d.items|
    ensures forall k :: 0 <= k < |d.items| ==>
      var line, item := r.items[k], d.items[k];
      && line.id == item.id && line.productName == item.productName
      && line.quantity == item.quantity && line.priceCents == item.priceCents
      && line.totalCents == item.quantity * item.priceCents
    ensures r.totalCents == LinesTotal(r.items) && r.totalCents >= 0
  {
    LinesTotalOfItems(d.items);
    FromValue(d.state);
    OrderDTO(d.id, Value(d.state), d.createdAt, d.updatedAt, ItemsToDTO(d.items), ItemsTotal(d.items))
  }

  /** Appending an item adds one line, and the line's total to the order's. */
  lemma ToDTOAppend(d: OrderData, item: OrderItem)
    ensures var before, after := ToDTO(d), ToDTO(d.(items := d.items + [item]));
      && after.items == before.items + [ItemToDTO(item)]
      && after.totalCents == before.totalCents + item.quantity * item.priceCents
  {
    ItemsTotalAppend(d.items, item);
    assert ItemsToDTO(d.items + [item]) == ItemsToDTO(d.items) + [ItemToDTO(item)];
  }
}
