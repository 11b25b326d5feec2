/** The order aggregate: an immutable snapshot of a cart's lines with totals,
    tax and a status that changes only by building a new order. */
module Orders {
  import opened Basics
  import opened OrderStatuses
  import CartItems
  import OrderItems
  import Carts

  type OrderItem = OrderItems.OrderItem

  datatype OrderFields = OrderFields(
    orderId: OrderId,
    userId: UserId,
    cartId: CartId,
    idempotencyKey: IdempotencyKey,
    items: seq<OrderItem>,
    subtotal: real,
    tax: real,
    total: real,
    status: OrderStatus,
    createdAt: Instant,
    updatedAt: Instant,
    shippingAddress: string,
    notes: Option<string>)

  /** An order can only be obtained from Build, which refuses an empty item list. */
  type Order = f: OrderFields | |f.items| > 0
    witness OrderFields("", "", "", "", [OrderItems.OrderItemFields("", "", "", 0, 0.0, 0.0)],
                        0.0, 0.0, 0.0, Pending, 0, 0, "", None)

  /** The fixed tax rate applied to the subtotal (10%). */
  const TaxRate: real := 0.10

  /** The builder's final check: an order must have at least one item. */
  function Build(f: OrderFields): (r: Result<Order>)
    ensures r.Ok? <==> |f.items| > 0
    ensures r.Ok? ==> r.value == f
    ensures r.Err? ==> r.error == IllegalState(OrderWithoutItems)
  {
    if |f.items| == 0 then Err(IllegalState(OrderWithoutItems)) else Ok(f)
  }

  function SumLineTotals(s: seq<OrderItem>): real {
    if |s| == 0 then 0.0 else s[0].totalPrice + SumLineTotals(s[1..])
  }

  function SumQuantities(s: seq<OrderItem>): int {
    if |s| == 0 then 0 else s[0].quantity + SumQuantities(s[1..])
  }

  /** The item ids of a list of order lines. */
  function Ids(s: seq<OrderItem>): set<ItemId> {
    if |s| == 0 then {} else {s[0].itemId} + Ids(s[1..])
  }

  /** One order line per cart entry, in the cart map's iteration order. */
  ghost function OrderLines(m: Carts.Items): (s: seq<OrderItem>)
    ensures |s| == |m|
    ensures SumLineTotals(s) == Carts.SumTotals(m)
    ensures SumQuantities(s) == Carts.SumQuantities(m)
    decreases |m|
  {
    if |m| == 0 then []
    else
      var k := Carts.Pick(m);
      Carts.RemoveShrinks(m, k);
      var rest := OrderLines(m - {k});
      var s := [OrderItems.FromCartItem(m[k])] + rest;
      assert s[1..] == rest;
      s
  }

  /** Splitting off the first entry visited: the lines are its frozen copy
      followed by the lines of the remaining entries. */
  lemma OrderLinesUnfold(m: Carts.Items)
    requires |m| > 0
    ensures var k := Carts.Pick(m);
            |m - {k}| < |m| &&
            OrderLines(m) == [OrderItems.FromCartItem(m[k])] + OrderLines(m - {k})
  {
    Carts.RemoveShrinks(m, Carts.Pick(m));
  }

  /** Each order line is the frozen copy of the cart entry stored under its id. */
  lemma {:induction false} OrderLinesAreFrozenEntries(m: Carts.Items)
    requires Carts.KeysMatchIds(m)
    ensures var s := OrderLines(m);
            forall i :: 0 <= i < |s| ==> s[i].itemId in m && s[i] == OrderItems.FromCartItem(m[s[i].itemId])
    decreases |m|
  {
    if |m| > 0 {
      var k := Carts.Pick(m);
      OrderLinesUnfold(m);
      var m' := m - {k};
      assert Carts.KeysMatchIds(m');
      var rest := OrderLines(m');
      OrderLinesAreFrozenEntries(m');
      var s := OrderLines(m);
      forall i | 0 <= i < |s|
        ensures s[i].itemId in m && s[i] == OrderItems.FromCartItem(m[s[i].itemId])
      {
        if i > 0 {
          assert s[i] == rest[i - 1];
          var id := rest[i - 1].itemId;
          assert id in m' && m'[id] == m[id];
        }
      }
    }
  }

  /** The set of line ids is exactly the set of cart keys. */
  lemma {:induction false} OrderLinesCoverKeys(m: Carts.Items)
    requires Carts.KeysMatchIds(m)
    ensures Ids(OrderLines(m)) == m.Keys
    decreases |m|
  {
    if |m| > 0 {
      var k := Carts.Pick(m);
      OrderLinesUnfold(m);
      var m' := m - {k};
      assert Carts.KeysMatchIds(m');
      var rest := OrderLines(m');
      OrderLinesCoverKeys(m');
      var s := OrderLines(m);
      assert s[1..] == rest;
      assert m.Keys == {k} + m'.Keys;
    }
  }

  /** Builds a PENDING order from a cart: one line per cart entry, subtotal the sum
      of the line totals, tax 10% of the subtotal, total their sum. The random
      order id and the current instant are supplied by the caller. */
  ghost function FromCart(cart: Carts.Cart, idempotencyKey: IdempotencyKey, shippingAddress: string,
                          notes: Option<string>, freshOrderId: OrderId, now: Instant): (r: Result<Order>)
    ensures r.Ok? <==> !Carts.IsEmpty(cart)
    ensures r.Err? ==> r.error == IllegalState(OrderWithoutItems)
    ensures r.Ok? ==> r.value.status == Pending && r.value.orderId == freshOrderId
    ensures r.Ok? ==> r.value.userId == cart.userId && r.value.cartId == cart.cartId
    ensures r.Ok? ==> r.value.idempotencyKey == idempotencyKey
    ensures r.Ok? ==> r.value.shippingAddress == shippingAddress && r.value.notes == notes
    ensures r.Ok? ==> r.value.createdAt == now && r.value.updatedAt == now
    ensures r.Ok? ==> r.value.subtotal == Carts.TotalPrice(cart)
    ensures r.Ok? ==> r.value.tax == r.value.subtotal * TaxRate
    ensures r.Ok? ==> r.value.total == r.value.subtotal + r.value.tax
    ensures r.Ok? ==> |r.value.items| == |cart.items|
    ensures r.Ok? ==> ItemCount(r.value) == Carts.ItemCount(cart) >= |r.value.items|
  {
    Carts.SumBounds(cart.items);
    var lines := OrderLines(cart.items);
    var subtotal := SumLineTotals(lines);
    var tax := subtotal * TaxRate;
    Build(OrderFields(freshOrderId, cart.userId, cart.cartId, idempotencyKey, lines,
                      subtotal, tax, subtotal + tax, Pending, now, now, shippingAddress, notes))
  }

  /** The order holds exactly one line per cart entry: each line is the frozen
      copy of the entry under its id, and the line ids are the cart's keys. */
  lemma FromCartLinesMatchCart(cart: Carts.Cart, idempotencyKey: IdempotencyKey, shippingAddress: string,
                               notes: Option<string>, freshOrderId: OrderId, now: Instant)
    requires Carts.Valid(cart) && !Carts.IsEmpty(cart)
    ensures var o := FromCart(cart, idempotencyKey, shippingAddress, notes, freshOrderId, now).value;
            && (forall i :: 0 <= i < |o.items| ==>
                  o.items[i].itemId in cart.items && o.items[i] == OrderItems.FromCartItem(cart.items[o.items[i].itemId]))
            && Ids(o.items) == cart.items.Keys
            && |o.items| == |cart.items|
  {
    OrderLinesAreFrozenEntries(cart.items);
    OrderLinesCoverKeys(cart.items);
  }

  /** The order total is the cart's total plus 10%. */
  lemma FromCartTotal(cart: Carts.Cart, idempotencyKey: IdempotencyKey, shippingAddress: string,
                      notes: Option<string>, freshOrderId: OrderId, now: Instant)
    requires !Carts.IsEmpty(cart)
    ensures FromCart(cart, idempotencyKey, shippingAddress, notes, freshOrderId, now).value.total
            == Carts.TotalPrice(cart) * 1.10
  {
  }

  /** A copy with another status and a fresh update time; every other field,
      including the frozen lines and amounts, is kept. */
  function WithStatus(o: Order, status: OrderStatus, now: Instant): (r: Order)
    ensures r.status == status && r.updatedAt == now
    ensures r.orderId == o.orderId && r.userId == o.userId && r.cartId == o.cartId
    ensures r.idempotencyKey == o.idempotencyKey && r.items == o.items
    ensures r.subtotal == o.subtotal && r.tax == o.tax && r.total == o.total
    ensures r.createdAt == o.createdAt && r.shippingAddress == o.shippingAddress && r.notes == o.notes
  {
    Build(OrderFields(o.orderId, o.userId, o.cartId, o.idempotencyKey, o.items, o.subtotal, o.tax,
                      o.total, status, o.createdAt, now, o.shippingAddress, o.notes)).value
  }

  /** Number of units ordered: the sum of the line quantities, not the number of lines. */
  function ItemCount(o: Order): int {
    SumQuantities(o.items)
  }
}
