/** `OrderAudit`: an immutable record of a cancellation. */
module OrderAudits {

  /** The five readonly fields; there are no setters, so an audit never changes. */
  datatype OrderAudit = OrderAudit(id: int, orderId: int, action: string, reason: string, createdAt: int)

  /** `OrderAudit::create`: accepts any arguments, empty strings included, and its getters return them verbatim. */
  function Create(id: int, orderId: int, action: string, reason: string, createdAt: int): (a: OrderAudit)
    ensures a.id == id && a.orderId == orderId && a.action == action
    ensures a.reason == reason && a.createdAt == createdAt
  {
    OrderAudit(id, orderId, action, reason, createdAt)
  }
}
