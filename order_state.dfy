/** The closed, string-backed enum `OrderState` behind the order state machine. */
module OrderStates {
  import opened Wrappers
  import opened Failures

  datatype OrderState = DRAFT | CONFIRMED | CANCELLED

  /** The enum's backing string, `$state->value`: each case is backed by its own name. */
  function Value(s: OrderState): string
  {
    match s
    case DRAFT => "DRAFT"
    case CONFIRMED => "CONFIRMED"
    case CANCELLED => "CANCELLED"
  }

  /** `OrderState::from`: the case backed by `v`, or the ValueError PHP throws for any other string. */
  function From(v: string): (r: Result<OrderState, Error>)
    ensures r.Ok? <==> v == "DRAFT" || v == "CONFIRMED" || v == "CANCELLED"
    ensures r.Ok? ==> Value(r.value) == v
    ensures r.Err? ==> r.error == InvalidStateValue(v)
  {
    if v == "DRAFT" then Ok(DRAFT)
    else if v == "CONFIRMED" then Ok(CONFIRMED)
    else if v == "CANCELLED" then Ok(CANCELLED)
    else Err(InvalidStateValue(v))
  }

  /** Persisting `value` and reading it back with `from` gives the same case. */
  lemma FromValue(s: OrderState)
    ensures From(Value(s)) == Ok(s)
  {
  }

  /** `value` is injective: the state string in a row or a DTO names one state. */
  lemma ValueInjective(s: OrderState, t: OrderState)
    requires Value(s) == Value(t)
    ensures s == t
  {
  }
}
