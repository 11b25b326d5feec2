/** Order use cases: idempotent placement of an order from a cart, and the
    status changes governed by the lifecycle's transition table. */
module OrderService {
  import opened Basics
  import opened OrderStatuses
  import Carts
  import Orders
  import CartRepository
  import OrderRepository
  import CartService

  type Order = Orders.Order
  type OrderStore = OrderRepository.OrderStore

  /** A placed or found order, flagged when it already existed for the key. */
  datatype OrderResult = OrderResult(order: Order, wasExisting: bool)

  /** Everything placement touches: both stores and the counter of first-time
      placements that drives the simulated failure. */
  datatype System = System(
    carts: CartRepository.CartStore,
    orders: OrderStore,
    orderCounter: nat)

  /** Every fifth first-time placement throws a NullPointerException on purpose. */
  const FailureEvery: nat := 5

  /** Placement is a genuine first-time insert: the key is not indexed yet and the
      cart exists and has items. */
  ghost predicate IsFirstPlacement(sys: System, cartId: CartId, key: IdempotencyKey) {
    && key !in sys.orders.idByKey
    && cartId in sys.carts.byId
    && !Carts.IsEmpty(sys.carts.byId[cartId])
  }

  /** The idempotent placement protocol. A key that already finds an order returns
      it as existing. Otherwise the cart must exist and have items; an order is
      built from its snapshot and inserted only if the key is still free. If the
      insert returns another order, that order is returned as existing. After a
      genuine insert the cart is cleared (a failure there is swallowed), the
      counter is bumped and, on a multiple of five, the call throws although the
      order is stored and the cart cleared. */
  ghost function PlaceOrder(sys: System, cartId: CartId, key: IdempotencyKey, shippingAddress: string,
                            notes: Option<string>, freshOrderId: OrderId, now: Instant): (r: (System, Result<OrderResult>))
    ensures OrderRepository.FindByIdempotencyKey(sys.orders, key).Some? ==>
              r == (sys, Ok(OrderResult(OrderRepository.FindByIdempotencyKey(sys.orders, key).value, true)))
    ensures OrderRepository.FindByIdempotencyKey(sys.orders, key).None? && cartId !in sys.carts.byId ==>
              r == (sys, Err(CartNotFound(cartId)))
    ensures OrderRepository.FindByIdempotencyKey(sys.orders, key).None? && cartId in sys.carts.byId
            && Carts.IsEmpty(sys.carts.byId[cartId]) ==>
              r == (sys, Err(CartEmpty(cartId)))
    ensures r.1.Ok? && r.1.value.wasExisting ==>
              r.0 == sys && OrderRepository.FindByIdempotencyKey(sys.orders, key) == Some(r.1.value.order)
    ensures r.0.orderCounter == sys.orderCounter || r.0.orderCounter == sys.orderCounter + 1
    ensures r.0.orderCounter == sys.orderCounter + 1 <==> IsFirstPlacement(sys, cartId, key)
  {
    match OrderRepository.FindByIdempotencyKey(sys.orders, key)
    case Some(existing) => (sys, Ok(OrderResult(existing, true)))
    case None =>
      match CartRepository.FindById(sys.carts, cartId)
      case None => (sys, Err(CartNotFound(cartId)))
      case Some(cart) =>
        if Carts.IsEmpty(cart) then (sys, Err(CartEmpty(cartId)))
        else
          match Orders.FromCart(Carts.Snapshot(cart), key, shippingAddress, notes, freshOrderId, now)
          case Err(e) => (sys, Err(e))
          case Ok(order) =>
            var (orders', saved) := OrderRepository.SaveIfAbsentByIdempotencyKey(sys.orders, order);
            match saved
            case None => (sys.(orders := orders'), Err(NullPointer))
            case Some(winner) =>
              if winner.orderId != order.orderId then (sys.(orders := orders'), Ok(OrderResult(winner, true)))
              else
                var carts' := CartService.ClearCart(sys.carts, cart.cartId, now).0;
                var count := sys.orderCounter + 1;
                var sys' := System(carts', orders', count);
                if count % FailureEvery == 0 then (sys', Err(NullPointer))
                else (sys', Ok(OrderResult(winner, false)))
  }

  /** The stored order, or OrderNotFound. */
  function GetOrder(s: OrderStore, orderId: OrderId): (r: Result<Order>)
    ensures r.Ok? <==> orderId in s.byId
    ensures r.Ok? ==> r.value == s.byId[orderId]
    ensures r.Err? ==> r.error == OrderNotFound(orderId)
  {
    if orderId in s.byId then Ok(s.byId[orderId]) else Err(OrderNotFound(orderId))
  }

  /** Moves an order to `requested` if the transition table allows it; an unknown
      order fails with OrderNotFound and a forbidden transition with
      IllegalStateException, both leaving the store as it was. */
  function UpdateOrderStatus(s: OrderStore, orderId: OrderId, requested: OrderStatus, now: Instant): (r: (OrderStore, Result<Order>))
    ensures r.1.Err? ==> r.0 == s
    ensures orderId !in s.byId ==> r.1 == Err(OrderNotFound(orderId))
    ensures orderId in s.byId && !CanTransition(s.byId[orderId].status, requested) ==>
              r.1 == Err(IllegalState(InvalidTransition(s.byId[orderId].status, requested)))
    ensures r.1.Ok? <==> orderId in s.byId && (s.byId[orderId].status, requested) in Edges
    ensures r.1.Ok? ==>
              && r.1.value == Orders.WithStatus(s.byId[orderId], requested, now)
              && r.0 == s.(byId := s.byId[orderId := r.1.value])
  {
    match GetOrder(s, orderId)
    case Err(e) => (s, Err(e))
    case Ok(order) =>
      if !CanTransition(order.status, requested) then
        (s, Err(IllegalState(InvalidTransition(order.status, requested))))
      else
        match OrderRepository.UpdateStatus(s, orderId, requested, now)
        case (s', None) => (s', Err(OrderNotFound(orderId)))
        case (s', Some(updated)) => (s', Ok(updated))
  }

  /** Confirms a PENDING order; any other status is an invalid transition. */
  function ConfirmOrder(s: OrderStore, orderId: OrderId, now: Instant): (r: (OrderStore, Result<Order>))
    ensures r.1.Err? ==> r.0 == s
    ensures orderId !in s.byId ==> r.1 == Err(OrderNotFound(orderId))
    ensures r.1.Ok? <==> orderId in s.byId && s.byId[orderId].status == Pending
    ensures orderId in s.byId && s.byId[orderId].status != Pending ==>
              r.1 == Err(IllegalState(InvalidTransition(s.byId[orderId].status, Confirmed)))
    ensures r.1.Ok? ==> r.1.value.status == Confirmed && r.0.byId == s.byId[orderId := r.1.value]
  {
    match GetOrder(s, orderId)
    case Err(e) => (s, Err(e))
    case Ok(order) =>
      if !CanTransition(order.status, Confirmed) then
        (s, Err(IllegalState(InvalidTransition(order.status, Confirmed))))
      else
        match OrderRepository.UpdateStatus(s, orderId, Confirmed, now)
        case (s', None) => (s', Err(OrderNotFound(orderId)))
        case (s', Some(updated)) => (s', Ok(updated))
  }

  /** Cancels an order whose status is cancellable (PENDING or CONFIRMED). */
  function CancelOrder(s: OrderStore, orderId: OrderId, now: Instant): (r: (OrderStore, Result<Order>))
    ensures r.1.Err? ==> r.0 == s
    ensures orderId !in s.byId ==> r.1 == Err(OrderNotFound(orderId))
    ensures r.1.Ok? <==> orderId in s.byId && IsCancellable(s.byId[orderId].status)
    ensures orderId in s.byId && !IsCancellable(s.byId[orderId].status) ==>
              r.1 == Err(IllegalState(NotCancellable(s.byId[orderId].status)))
    ensures r.1.Ok? ==> r.1.value.status == Cancelled && r.0.byId == s.byId[orderId := r.1.value]
  {
    match GetOrder(s, orderId)
    case Err(e) => (s, Err(e))
    case Ok(order) =>
      if !IsCancellable(order.status) then
        (s, Err(IllegalState(NotCancellable(order.status))))
      else
        match OrderRepository.UpdateStatus(s, orderId, Cancelled, now)
        case (s', None) => (s', Err(OrderNotFound(orderId)))
        case (s', Some(updated)) => (s', Ok(updated))
  }

  // ---- Properties across calls ----

  /** Confirming and cancelling are the general status update with the target
      fixed: they succeed in the same cases and leave the same store. */
  lemma WrappersAgreeWithUpdate(s: OrderStore, orderId: OrderId, now: Instant)
    ensures ConfirmOrder(s, orderId, now) == UpdateOrderStatus(s, orderId, Confirmed, now)
    ensures CancelOrder(s, orderId, now).0 == UpdateOrderStatus(s, orderId, Cancelled, now).0
    ensures CancelOrder(s, orderId, now).1.Ok? <==> UpdateOrderStatus(s, orderId, Cancelled, now).1.Ok?
  {
  }

  /** A status change through the service only follows edges of the lifecycle:
      no call makes a terminal order move, and PENDING is never re-entered. */
  lemma StatusChangesFollowEdges(s: OrderStore, orderId: OrderId, requested: OrderStatus, now: Instant)
    requires orderId in s.byId
    ensures var r := UpdateOrderStatus(s, orderId, requested, now).0;
            orderId in r.byId &&
            (r.byId[orderId].status != s.byId[orderId].status ==>
               CanTransition(s.byId[orderId].status, r.byId[orderId].status))
    ensures IsTerminal(s.byId[orderId].status) ==> UpdateOrderStatus(s, orderId, requested, now).0 == s
    ensures UpdateOrderStatus(s, orderId, Pending, now).1.Err?
  {
    TerminalIffNoSuccessor(s.byId[orderId].status);
  }

  /** The status services keep the order store valid. */
  lemma UpdateOrderStatusPreservesValid(s: OrderStore, orderId: OrderId, requested: OrderStatus, now: Instant)
    requires OrderRepository.Valid(s)
    ensures OrderRepository.Valid(UpdateOrderStatus(s, orderId, requested, now).0)
  {
    OrderRepository.UpdateStatusPreservesValid(s, orderId, requested, now);
  }

  lemma ConfirmOrderPreservesValid(s: OrderStore, orderId: OrderId, now: Instant)
    requires OrderRepository.Valid(s)
    ensures OrderRepository.Valid(ConfirmOrder(s, orderId, now).0)
  {
    OrderRepository.UpdateStatusPreservesValid(s, orderId, Confirmed, now);
  }

  lemma CancelOrderPreservesValid(s: OrderStore, orderId: OrderId, now: Instant)
    requires OrderRepository.Valid(s)
    ensures OrderRepository.Valid(CancelOrder(s, orderId, now).0)
  {
    OrderRepository.UpdateStatusPreservesValid(s, orderId, Cancelled, now);
  }

  /** A genuine first placement stores exactly the order built from the cart,
      indexes its key, empties the cart (one version step) and bumps the counter;
      the call reports success unless the counter hits a multiple of five, in
      which case it throws after all of this has happened. */
  lemma PlaceOrderFirstTime(sys: System, cartId: CartId, key: IdempotencyKey, shippingAddress: string,
                            notes: Option<string>, freshOrderId: OrderId, now: Instant)
    requires CartRepository.Valid(sys.carts)
    requires IsFirstPlacement(sys, cartId, key)
    ensures var r := PlaceOrder(sys, cartId, key, shippingAddress, notes, freshOrderId, now);
            var cart := sys.carts.byId[cartId];
            var o := Orders.FromCart(cart, key, shippingAddress, notes, freshOrderId, now).value;
            && o.status == Pending && o.orderId == freshOrderId && o.cartId == cartId
            && o.subtotal == Carts.TotalPrice(cart)
            && r.0.orders == OrderRepository.Save(sys.orders, o)
            && OrderRepository.FindByIdempotencyKey(r.0.orders, key) == Some(o)
            && cartId in r.0.carts.byId && Carts.IsEmpty(r.0.carts.byId[cartId])
            && r.0.carts.byId[cartId].version == cart.version + 1
            && r.0.orderCounter == sys.orderCounter + 1
            && (r.1.Ok? <==> r.0.orderCounter % FailureEvery != 0)
            && (r.1.Ok? ==> r.1.value == OrderResult(o, false))
            && (r.1.Err? ==> r.1.error == NullPointer)
  {
    var cart := sys.carts.byId[cartId];
    assert Carts.Snapshot(cart) == cart;
  }

  /** In a valid order store the simulated NullPointerException is the only way a
      placement throws after changing state, and it happens exactly on first
      placements whose new count is a multiple of five. */
  lemma PlaceOrderFaultInjection(sys: System, cartId: CartId, key: IdempotencyKey, shippingAddress: string,
                                 notes: Option<string>, freshOrderId: OrderId, now: Instant)
    requires OrderRepository.Valid(sys.orders)
    ensures var r := PlaceOrder(sys, cartId, key, shippingAddress, notes, freshOrderId, now);
            r.1 == Err(NullPointer) <==>
              IsFirstPlacement(sys, cartId, key) && (sys.orderCounter + 1) % FailureEvery == 0
    ensures var r := PlaceOrder(sys, cartId, key, shippingAddress, notes, freshOrderId, now);
            r.0 != sys ==> IsFirstPlacement(sys, cartId, key)
  {
  }

  /** Placement with a fresh order id keeps the order store valid. */
  lemma PlaceOrderKeepsOrdersValid(sys: System, cartId: CartId, key: IdempotencyKey, shippingAddress: string,
                                   notes: Option<string>, freshOrderId: OrderId, now: Instant)
    requires OrderRepository.Valid(sys.orders)
    requires freshOrderId !in sys.orders.byId
    ensures OrderRepository.Valid(PlaceOrder(sys, cartId, key, shippingAddress, notes, freshOrderId, now).0.orders)
  {
    if IsFirstPlacement(sys, cartId, key) {
      var cart := sys.carts.byId[cartId];
      assert Carts.Snapshot(cart) == cart;
      var o := Orders.FromCart(cart, key, shippingAddress, notes, freshOrderId, now).value;
      OrderRepository.SaveIfAbsentPreservesValid(sys.orders, o);
    }
  }

  /** Placement keeps the cart store valid. Its only cart change is saving the
      cleared placed cart, which also makes that cart its user's current cart
      again, even when the user has moved on to a newer cart. Every other cart
      stays as it was. */
  lemma PlaceOrderKeepsCartsValid(sys: System, cartId: CartId, key: IdempotencyKey, shippingAddress: string,
                                  notes: Option<string>, freshOrderId: OrderId, now: Instant)
    requires CartRepository.Valid(sys.carts)
    ensures var carts' := PlaceOrder(sys, cartId, key, shippingAddress, notes, freshOrderId, now).0.carts;
            CartRepository.Valid(carts')
    ensures var carts' := PlaceOrder(sys, cartId, key, shippingAddress, notes, freshOrderId, now).0.carts;
            IsFirstPlacement(sys, cartId, key) ==>
              && carts' == CartRepository.Save(sys.carts, Carts.Clear(sys.carts.byId[cartId], now))
              && CartRepository.FindByUserId(carts', sys.carts.byId[cartId].userId).Some?
              && CartRepository.FindByUserId(carts', sys.carts.byId[cartId].userId).value.cartId == cartId
              && (forall id :: id != cartId ==> CartRepository.FindById(carts', id) == CartRepository.FindById(sys.carts, id))
    ensures !IsFirstPlacement(sys, cartId, key) ==>
              PlaceOrder(sys, cartId, key, shippingAddress, notes, freshOrderId, now).0.carts == sys.carts
  {
    if IsFirstPlacement(sys, cartId, key) {
      var cart := sys.carts.byId[cartId];
      assert Carts.Snapshot(cart) == cart;
      CartRepository.SavePreservesValid(sys.carts, Carts.Clear(cart, now));
    }
  }

  /** Placing again with the same key, from any cart and with any other fresh
      id, returns the order the first call stored, flagged as existing, and
      changes nothing, even when the first call threw its simulated failure. */
  lemma PlaceTwiceSameOrder(sys: System, cartId: CartId, otherCartId: CartId, key: IdempotencyKey,
                            shippingAddress: string, otherAddress: string, notes: Option<string>,
                            otherNotes: Option<string>, freshOrderId: OrderId, otherOrderId: OrderId,
                            now: Instant, later: Instant)
    requires OrderRepository.Valid(sys.orders) && CartRepository.Valid(sys.carts)
    requires freshOrderId !in sys.orders.byId
    ensures var first := PlaceOrder(sys, cartId, key, shippingAddress, notes, freshOrderId, now);
            var second := PlaceOrder(first.0, otherCartId, key, otherAddress, otherNotes, otherOrderId, later);
            && (first.1.Ok? ==> second == (first.0, Ok(OrderResult(first.1.value.order, true))))
            && (IsFirstPlacement(sys, cartId, key) ==>
                  && second.0 == first.0 && second.1.Ok? && second.1.value.wasExisting
                  && second.1.value.order.orderId == freshOrderId)
  {
    PlaceOrderKeepsOrdersValid(sys, cartId, key, shippingAddress, notes, freshOrderId, now);
    var first := PlaceOrder(sys, cartId, key, shippingAddress, notes, freshOrderId, now);
    if IsFirstPlacement(sys, cartId, key) {
      PlaceOrderFirstTime(sys, cartId, key, shippingAddress, notes, freshOrderId, now);
    }
    if first.1.Ok? {
      assert OrderRepository.FindByIdempotencyKey(first.0.orders, key) == Some(first.1.value.order);
    }
  }
}
