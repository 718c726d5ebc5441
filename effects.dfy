/**
 * The calls a handler makes on its two seams, in the order it makes them.
 * The repository and the cache share one log and append to it on every effect,
 * so handler contracts can state the order of "save", "save audit" and "delete".
 */
module Effects {

  datatype Effect =
    | OrderSaved(orderId: int)
    | AuditSaved(orderId: int)
    | CacheWritten(key: string, ttlSeconds: int)
    | CacheDeleted(key: string)

  class EffectLog {
    ghost var events: seq<Effect>

    constructor()
      ensures events == []
    {
      events := [];
    }
  }
}
