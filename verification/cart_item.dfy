/** A line of a shopping cart: an immutable value built and validated by a builder. */
module CartItems {
  import opened Basics

  datatype CartItemFields = CartItemFields(
    itemId: ItemId,
    sku: Sku,
    productName: string,
    quantity: int,
    unitPrice: real,
    addedAt: Instant,
    updatedAt: Instant)

  /** A cart item can only be obtained from Build, which enforces these bounds. */
  type CartItem = f: CartItemFields | f.quantity >= 1 && f.unitPrice >= 0.0
    witness CartItemFields("", "", "", 1, 0.0, 0, 0)

  /** The builder's fields; an unset SKU or product name is None (a null). */
  datatype Builder = Builder(
    itemId: ItemId,
    sku: Option<Sku>,
    productName: Option<string>,
    quantity: int,
    unitPrice: real,
    addedAt: Instant,
    updatedAt: Instant)

  /** A fresh builder: a new random id (supplied by the caller), quantity 1,
      unit price 0 and both timestamps set to the current instant. */
  function NewBuilder(freshId: ItemId, now: Instant): Builder {
    Builder(freshId, None, None, 1, 0.0, now, now)
  }

  /** Validates the builder's fields: SKU and product name must be set (else a
      NullPointerException), the quantity at least 1 and the price non-negative
      (else an IllegalArgumentException), checked in that order. */
  function Build(b: Builder): (r: Result<CartItem>)
    ensures r.Ok? <==> b.sku.Some? && b.productName.Some? && b.quantity >= 1 && b.unitPrice >= 0.0
    ensures r.Ok? ==> r.value == CartItemFields(b.itemId, b.sku.value, b.productName.value,
                                                  b.quantity, b.unitPrice, b.addedAt, b.updatedAt)
    ensures (b.sku.None? || b.productName.None?) ==> r == Err(NullPointer)
    ensures b.sku.Some? && b.productName.Some? && b.quantity < 1 ==>
              r == Err(IllegalArgument(QuantityBelowOne))
    ensures b.sku.Some? && b.productName.Some? && b.quantity >= 1 && b.unitPrice < 0.0 ==>
              r == Err(IllegalArgument(NegativeUnitPrice))
  {
    if b.sku.None? || b.productName.None? then Err(NullPointer)
    else if b.quantity < 1 then Err(IllegalArgument(QuantityBelowOne))
    else if b.unitPrice < 0.0 then Err(IllegalArgument(NegativeUnitPrice))
    else Ok(CartItemFields(b.itemId, b.sku.value, b.productName.value,
                           b.quantity, b.unitPrice, b.addedAt, b.updatedAt))
  }

  /** A builder with only SKU and product name set yields quantity 1 and price 0. */
  lemma BuilderDefaults(freshId: ItemId, now: Instant, sku: Sku, name: string)
    ensures var r := Build(NewBuilder(freshId, now).(sku := Some(sku), productName := Some(name)));
            r.Ok? && r.value.quantity == 1 && r.value.unitPrice == 0.0
            && r.value.itemId == freshId && r.value.sku == sku && r.value.productName == name
  {
  }

  /** The price of the line: unit price times quantity. */
  function TotalPrice(i: CartItem): (t: real)
    ensures t >= i.unitPrice >= 0.0
    ensures i.quantity == 1 ==> t == i.unitPrice
  {
    i.unitPrice * (i.quantity as real)
  }

  /** A copy with another quantity and a fresh update time; it goes through the
      builder again, so a quantity below 1 is rejected. */
  function WithQuantity(i: CartItem, quantity: int, now: Instant): (r: Result<CartItem>)
    ensures r.Ok? <==> quantity >= 1
    ensures r.Ok? ==> r.value == i.(quantity := quantity, updatedAt := now)
    ensures r.Err? ==> r.error == IllegalArgument(QuantityBelowOne)
  {
    Build(Builder(i.itemId, Some(i.sku), Some(i.productName), quantity, i.unitPrice, i.addedAt, now))
  }

  /** Java equality of cart items: two items are equal iff their ids are. */
  predicate SameItem(a: CartItem, b: CartItem) {
    a.itemId == b.itemId
  }

  /** Changing the quantity keeps the item's identity and prices the new quantity. */
  lemma WithQuantityKeepsIdentity(i: CartItem, quantity: int, now: Instant)
    requires quantity >= 1
    ensures WithQuantity(i, quantity, now).Ok?
    ensures SameItem(WithQuantity(i, quantity, now).value, i)
    ensures TotalPrice(WithQuantity(i, quantity, now).value) == i.unitPrice * (quantity as real)
  {
  }
}
