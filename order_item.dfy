/** `OrderItem`: an immutable, validated line of an order. */
module OrderItems {
  import opened Wrappers
  import opened Failures

  /** The five readonly fields of an item, and the shape of an `order_items` row. */
  datatype ItemRecord = ItemRecord(id: int, orderId: int, productName: string, quantity: int, priceCents: int)

  /** Whether a record passes `OrderItem::validate`. */
  predicate IsValid(r: ItemRecord)
  {
    r.quantity >= 1 && r.priceCents >= 0
  }

  /**
   * An `OrderItem` object. Its constructor is private and validates, so every item
   * that exists satisfies the validation; the datatype is immutable like its readonly fields.
   */
  type OrderItem = r: ItemRecord | IsValid(r) witness ItemRecord(0, 0, "", 1, 0)

  const QuantityMessage := "Order item quantity must be at least 1"
  const PriceMessage := "Order item price must be non-negative"

  /** `OrderItem::create`: builds the item, or throws the first validation failure (quantity before price). */
  function Create(id: int, orderId: int, productName: string, quantity: int, priceCents: int): (r: Result<OrderItem, Error>)
    ensures r.Ok? <==> quantity >= 1 && priceCents >= 0
    ensures quantity < 1 ==> r == Err(DomainError(QuantityMessage))
    ensures quantity >= 1 && priceCents < 0 ==> r == Err(DomainError(PriceMessage))
    ensures r.Ok? ==> r.value.id == id && r.value.orderId == orderId && r.value.productName == productName
                      && r.value.quantity == quantity && r.value.priceCents == priceCents
  {
    var rec := ItemRecord(id, orderId, productName, quantity, priceCents);
    if quantity < 1 then Err(DomainError(QuantityMessage))
    else if priceCents < 0 then Err(DomainError(PriceMessage))
    else Ok(rec)
  }

  /** `OrderItem::getTotalCents`, quantity times unit price: never negative, at least the unit price, and 0 exactly for a free item. */
  function LineTotal(item: OrderItem): (r: nat)
    ensures r >= item.priceCents
    ensures r == 0 <==> item.priceCents == 0
  {
    var q, p := item.quantity, item.priceCents;
    assert q * p == p + (q - 1) * p;
    assert (q - 1) * p >= 0;
    q * p
  }
}
