/** The exceptions the core can raise, by PHP class and message. */
module Failures {
  import Text

  datatype Error =
    /** \DomainException from a domain guard or from OrderItem validation. */
    | DomainError(message: string)
    /** \RuntimeException thrown by a handler, "Order {id} not found". */
    | RuntimeError(message: string)
    /** \ValueError from OrderState::from on a stored state string that names no case. */
    | InvalidStateValue(value: string)
    /** PDOException: an INSERT into order_items whose id is already a primary key there. */
    | DuplicateItemId(itemId: int)
    /** PDOException: an INSERT into order_items whose order_id names no row of orders. */
    | MissingParentOrder(orderId: int)
    /** TypeError from deserializing a cached document of the wrong shape. */
    | MalformedCacheEntry

  /** The handlers' "Order {id} not found" exception. */
  function NotFound(orderId: int): Error
  {
    RuntimeError("Order " + Text.IntToString(orderId) + " not found")
  }

  /** The not-found message names the order: different ids give different messages. */
  lemma NotFoundNamesTheOrder(a: int, b: int)
    requires NotFound(a) == NotFound(b)
    ensures a == b
  {
    var m, n := NotFound(a).message, NotFound(b).message;
    assert Text.IntToString(a) == m[6..|m| - 10];
    assert Text.IntToString(b) == n[6..|n| - 10];
    Text.IntToStringInjective(a, b);
  }
}
