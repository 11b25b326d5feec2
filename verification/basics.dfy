/** Identifiers, optional values, results and the error taxonomy shared by the
    whole cart/order core. */
module Basics {
  import opened OrderStatuses

  type ItemId = string
  type Sku = string
  type CartId = string
  type UserId = string
  type OrderId = string
  type IdempotencyKey = string

  /** A clock reading; every operation that stamps a time receives it from its caller. */
  type Instant = int

  /** A reference that may be absent (Java's Optional, or a null from a map lookup). */
  datatype Option<+T> = None | Some(value: T)

  /** The outcome of an operation that may throw. */
  datatype Result<+T> = Ok(value: T) | Err(error: Error)

  /** Why an IllegalArgumentException was thrown. */
  datatype ArgumentProblem =
    | QuantityBelowOne
    | NegativeUnitPrice
    | UnknownCartItem(itemId: ItemId)

  /** Why an IllegalStateException was thrown. */
  datatype StateProblem =
    | OrderWithoutItems
    | InvalidTransition(from: OrderStatus, to: OrderStatus)
    | NotCancellable(status: OrderStatus)

  /** One constructor per exception the core throws. */
  datatype Error =
    | CartNotFound(cartId: CartId)
    | CartEmpty(cartId: CartId)
    | ItemNotFound(itemId: ItemId, inCart: CartId)
    | OrderNotFound(orderId: OrderId)
    | IllegalArgument(argument: ArgumentProblem)
    | IllegalState(state: StateProblem)
    | ConcurrentModification(expectedVersion: int, actualVersion: int)
    | NullPointer
}
