/** The end-to-end walk-through of the cart/order core, as the code behaves. */
module Scenario {
  import opened Basics
  import opened OrderStatuses
  import CartItems
  import Carts
  import Orders
  import CartRepository
  import OrderRepository
  import CartService
  import OrderService

  /** The store after user "u1" creates cart "c1" and adds SKU "A" twice
      (quantity 2, then 1, at 10.00) through the service. */
  function CartAfterTwoAdds(): (r: (CartRepository.CartStore, Result<Carts.Cart>)) {
    var (s1, _) := CartService.CreateCart(CartRepository.Empty, "u1", "c1", 0);
    var (s2, _) := CartService.AddItem(s1, "c1", "A", "Widget", 2, 10.0, "i1", 1);
    CartService.AddItem(s2, "c1", "A", "Widget", 1, 10.0, "i2", 2)
  }

  /** Each service add mints its own item id, so the two adds of "A" make two
      lines, 3 units worth 30.00 in all, not one merged line. */
  lemma TwoAddsOfOneSku()
    ensures var (s, r) := CartAfterTwoAdds();
            && r.Ok? && |r.value.items| == 2
            && Carts.ItemCount(r.value) == 3 && Carts.TotalPrice(r.value) == 30.0
            && CartRepository.Valid(s) && "c1" in s.byId && s.byId["c1"] == r.value
  {
    var (s, r) := CartAfterTwoAdds();
    var i1: CartItems.CartItem := CartItems.CartItemFields("i1", "A", "Widget", 2, 10.0, 1, 1);
    var i2: CartItems.CartItem := CartItems.CartItemFields("i2", "A", "Widget", 1, 10.0, 2, 2);
    assert r.value.items == map["i1" := i1, "i2" := i2];
    assert map["i1" := i1, "i2" := i2] == map["i1" := i1]["i2" := i2];
    assert map["i1" := i1] == map[]["i1" := i1];
    Carts.SumBounds(map[]);
    Carts.SumsAfterStore(map[], "i1", i1);
    Carts.SumsAfterStore(map["i1" := i1], "i2", i2);
  }

  /** Continuing the run of TwoAddsOfOneSku: placing with key "k1" from cart
      "c1" (two lines worth 30.00) yields a PENDING order of 33.00 with two lines
      and empties the cart; placing again with "k1" from another cart returns the
      same order and changes nothing. */
  lemma PlaceWalkthrough()
    ensures var carts := CartAfterTwoAdds().0;
            var sys := OrderService.System(carts, OrderRepository.Empty, 0);
            var (sys1, p1) := OrderService.PlaceOrder(sys, "c1", "k1", "1 Main Street", None, "o1", 3);
            && p1.Ok? && !p1.value.wasExisting
            && p1.value.order.total == 33.0 && p1.value.order.status == Pending
            && |p1.value.order.items| == 2
            && Carts.IsEmpty(sys1.carts.byId["c1"])
            && OrderService.PlaceOrder(sys1, "c9", "k1", "elsewhere", None, "o2", 4)
               == (sys1, Ok(OrderService.OrderResult(p1.value.order, true)))
  {
    TwoAddsOfOneSku();
    var carts := CartAfterTwoAdds().0;
    var sys := OrderService.System(carts, OrderRepository.Empty, 0);
    OrderService.PlaceOrderFirstTime(sys, "c1", "k1", "1 Main Street", None, "o1", 3);
    OrderService.PlaceTwiceSameOrder(sys, "c1", "c9", "k1", "1 Main Street", "elsewhere", None, None, "o1", "o2", 3, 4);
  }

  /** A PENDING order can be confirmed and then cancelled; once cancelled it can
      no longer be confirmed. */
  lemma LifecycleWalkthrough(s: OrderRepository.OrderStore)
    requires "o1" in s.byId && s.byId["o1"].status == Pending
    ensures var (s1, c1) := OrderService.ConfirmOrder(s, "o1", 5);
            && c1.Ok? && c1.value.status == Confirmed
            && var (s2, c2) := OrderService.CancelOrder(s1, "o1", 6);
               && c2.Ok? && c2.value.status == Cancelled
               && OrderService.ConfirmOrder(s2, "o1", 7) == (s2, Err(IllegalState(InvalidTransition(Cancelled, Confirmed))))
  {
  }
}
