/** A line of a placed order: a frozen copy of a cart item with its price fixed. */
module OrderItems {
  import opened Basics
  import CartItems

  datatype OrderItemFields = OrderItemFields(
    itemId: ItemId,
    sku: Sku,
    productName: string,
    quantity: int,
    unitPrice: real,
    totalPrice: real)

  /** The only constructor computes the line total, so it always agrees with
      unit price and quantity. */
  type OrderItem = f: OrderItemFields | f.totalPrice == f.unitPrice * (f.quantity as real)
    witness OrderItemFields("", "", "", 0, 0.0, 0.0)

  /** Captures the cart item as it is at placement time. */
  function FromCartItem(c: CartItems.CartItem): (o: OrderItem)
    ensures o.itemId == c.itemId && o.sku == c.sku && o.productName == c.productName
    ensures o.quantity == c.quantity && o.unitPrice == c.unitPrice
    ensures o.totalPrice == CartItems.TotalPrice(c)
  {
    OrderItemFields(c.itemId, c.sku, c.productName, c.quantity, c.unitPrice,
                    c.unitPrice * (c.quantity as real))
  }

  /** Java equality of order items: two items are equal iff their ids are. */
  predicate SameItem(a: OrderItem, b: OrderItem) {
    a.itemId == b.itemId
  }

  /** Freezing cart items neither merges nor splits identities. */
  lemma FromCartItemKeepsIdentity(a: CartItems.CartItem, b: CartItems.CartItem)
    ensures SameItem(FromCartItem(a), FromCartItem(b)) <==> CartItems.SameItem(a, b)
  {
  }
}
