/** The cart aggregate: a map from item id to cart item plus an optimistic
    version counter that every state-changing operation bumps by exactly one. */
module Carts {
  import opened Basics
  import CartItems
  type CartItem = CartItems.CartItem

  type Items = map<ItemId, CartItem>

  datatype Cart = Cart(
    cartId: CartId,
    userId: UserId,
    items: Items,
    createdAt: Instant,
    updatedAt: Instant,
    version: nat)

  /** Every entry is stored under its own item id. All cart operations keep this. */
  ghost predicate KeysMatchIds(m: Items) {
    forall k :: k in m ==> m[k].itemId == k
  }

  ghost predicate Valid(c: Cart) {
    KeysMatchIds(c.items)
  }

  /** A new, empty cart at version 0; the random cart id is supplied by the caller. */
  function New(freshCartId: CartId, userId: UserId, now: Instant): (c: Cart)
    ensures c.items == map[] && c.version == 0 && Valid(c)
    ensures c.cartId == freshCartId && c.userId == userId
    ensures c.createdAt == now && c.updatedAt == now
  {
    Cart(freshCartId, userId, map[], now, now, 0)
  }

  function IncrementVersion(c: Cart, now: Instant): Cart {
    c.(version := c.version + 1, updatedAt := now)
  }

  /** Stores `item` under its own id. If that slot already holds an item with the
      same SKU, the stored item keeps the existing line and adds the quantities;
      otherwise `item` replaces whatever was there. Returns the new cart and the
      stored item. */
  function AddItem(c: Cart, item: CartItem, now: Instant): (r: (Cart, CartItem))
    ensures r.0.version == c.version + 1
    ensures r.0.cartId == c.cartId && r.0.userId == c.userId && r.0.createdAt == c.createdAt
    ensures r.0.items == c.items[item.itemId := r.1]
    ensures r.1.sku == item.sku && (Valid(c) ==> r.1.itemId == item.itemId)
    ensures item.itemId in c.items && c.items[item.itemId].sku == item.sku ==>
              r.1 == c.items[item.itemId].(quantity := c.items[item.itemId].quantity + item.quantity,
                                           updatedAt := now)
    ensures !(item.itemId in c.items && c.items[item.itemId].sku == item.sku) ==> r.1 == item
    ensures Valid(c) ==> Valid(r.0)
  {
    var id := item.itemId;
    var stored :=
      if id in c.items && c.items[id].sku == item.sku then
        var existing := c.items[id];
        var merged := CartItems.WithQuantity(existing, existing.quantity + item.quantity, now);
        merged.value
      else item;
    (IncrementVersion(c.(items := c.items[id := stored]), now), stored)
  }

  /** Replaces the quantity of an existing item. An absent id, or a quantity the
      builder rejects, throws IllegalArgumentException and changes nothing. */
  function UpdateItemQuantity(c: Cart, itemId: ItemId, quantity: int, now: Instant): (r: Result<(Cart, CartItem)>)
    ensures itemId !in c.items ==> r == Err(IllegalArgument(UnknownCartItem(itemId)))
    ensures itemId in c.items && quantity < 1 ==> r == Err(IllegalArgument(QuantityBelowOne))
    ensures r.Ok? <==> itemId in c.items && quantity >= 1
    ensures r.Ok? ==> r.value.1 == c.items[itemId].(quantity := quantity, updatedAt := now)
    ensures r.Ok? ==> r.value.0 == c.(items := c.items[itemId := r.value.1], version := c.version + 1,
                                      updatedAt := now)
    ensures r.Ok? && Valid(c) ==> Valid(r.value.0)
  {
    if itemId !in c.items then Err(IllegalArgument(UnknownCartItem(itemId)))
    else
      match CartItems.WithQuantity(c.items[itemId], quantity, now)
      case Err(e) => Err(e)
      case Ok(updated) => Ok((IncrementVersion(c.(items := c.items[itemId := updated]), now), updated))
  }

  /** Removes an item, returning it; the version moves only if something was removed. */
  function RemoveItem(c: Cart, itemId: ItemId, now: Instant): (r: (Cart, Option<CartItem>))
    ensures r.1.Some? <==> itemId in c.items
    ensures itemId in c.items ==> r.1.value == c.items[itemId]
    ensures itemId in c.items ==>
              r.0 == c.(items := c.items - {itemId}, version := c.version + 1, updatedAt := now)
    ensures itemId !in c.items ==> r.0 == c
    ensures Valid(c) ==> Valid(r.0)
  {
    if itemId in c.items then
      (IncrementVersion(c.(items := c.items - {itemId}), now), Some(c.items[itemId]))
    else (c, None)
  }

  /** Empties the cart; the version moves even if it was already empty. */
  function Clear(c: Cart, now: Instant): (r: Cart)
    ensures r.items == map[] && r.version == c.version + 1 && Valid(r)
    ensures r.cartId == c.cartId && r.userId == c.userId && r.createdAt == c.createdAt
  {
    IncrementVersion(c.(items := map[]), now)
  }

  predicate IsEmpty(c: Cart) {
    |c.items| == 0
  }

  /** A copy with the same id, owner, timestamps, version and entries. Carts are
      values here, so the copy and the original evolve independently. */
  function Snapshot(c: Cart): (s: Cart)
    ensures s.cartId == c.cartId && s.userId == c.userId && s.version == c.version
    ensures s.items == c.items && s.createdAt == c.createdAt && s.updatedAt == c.updatedAt
  {
    Cart(c.cartId, c.userId, c.items, c.createdAt, c.updatedAt, c.version)
  }

  // ---- Sums over the item map (its iteration order is unspecified) ----

  /** Some key of a non-empty map: the position the map's iteration happens to visit first. */
  ghost function Pick<V>(m: map<ItemId, V>): (k: ItemId)
    requires |m| > 0
    ensures k in m
  {
    var k :| k in m; k
  }

  lemma RemoveShrinks<V>(m: map<ItemId, V>, k: ItemId)
    requires k in m
    ensures |m - {k}| == |m| - 1
  {
    assert (m - {k}).Keys == m.Keys - {k};
  }

  /** Sum of the line totals, visiting the entries in iteration order. */
  ghost function SumTotals(m: Items): real
    decreases |m|
  {
    if |m| == 0 then 0.0
    else
      var k := Pick(m);
      RemoveShrinks(m, k);
      CartItems.TotalPrice(m[k]) + SumTotals(m - {k})
  }

  /** Sum of the quantities, visiting the entries in iteration order. */
  ghost function SumQuantities(m: Items): int
    decreases |m|
  {
    if |m| == 0 then 0
    else
      var k := Pick(m);
      RemoveShrinks(m, k);
      m[k].quantity + SumQuantities(m - {k})
  }

  ghost function TotalPrice(c: Cart): real {
    SumTotals(c.items)
  }

  ghost function ItemCount(c: Cart): int {
    SumQuantities(c.items)
  }

  /** The total does not depend on the iteration order: any entry can be split off. */
  lemma {:induction false} SumTotalsSplit(m: Items, k: ItemId)
    requires k in m
    ensures SumTotals(m) == CartItems.TotalPrice(m[k]) + SumTotals(m - {k})
    decreases |m|
  {
    var j := Pick(m);
    if j != k {
      RemoveShrinks(m, j);
      RemoveShrinks(m, k);
      SumTotalsSplit(m - {j}, k);
      SumTotalsSplit(m - {k}, j);
      assert m - {j} - {k} == m - {k} - {j};
    }
  }

  /** The item count does not depend on the iteration order either. */
  lemma {:induction false} SumQuantitiesSplit(m: Items, k: ItemId)
    requires k in m
    ensures SumQuantities(m) == m[k].quantity + SumQuantities(m - {k})
    decreases |m|
  {
    var j := Pick(m);
    if j != k {
      RemoveShrinks(m, j);
      RemoveShrinks(m, k);
      SumQuantitiesSplit(m - {j}, k);
      SumQuantitiesSplit(m - {k}, j);
      assert m - {j} - {k} == m - {k} - {j};
    }
  }

  /** Every line holds at least one unit and prices are non-negative, so the
      item count is at least the number of lines and the total is non-negative. */
  lemma {:induction false} SumBounds(m: Items)
    ensures SumQuantities(m) >= |m|
    ensures SumTotals(m) >= 0.0
    ensures |m| == 0 ==> SumQuantities(m) == 0 && SumTotals(m) == 0.0
    decreases |m|
  {
    if |m| > 0 {
      var k := Pick(m);
      RemoveShrinks(m, k);
      SumBounds(m - {k});
    }
  }

  /** Setting slot `k` to `v` changes the sums by the difference between the old
      and the new line (no old line if the slot was empty). */
  lemma SumsAfterStore(m: Items, k: ItemId, v: CartItem)
    ensures k !in m ==> SumTotals(m[k := v]) == SumTotals(m) + CartItems.TotalPrice(v)
    ensures k !in m ==> SumQuantities(m[k := v]) == SumQuantities(m) + v.quantity
    ensures k in m ==> SumTotals(m[k := v]) == SumTotals(m) - CartItems.TotalPrice(m[k]) + CartItems.TotalPrice(v)
    ensures k in m ==> SumQuantities(m[k := v]) == SumQuantities(m) - m[k].quantity + v.quantity
  {
    SumTotalsSplit(m[k := v], k);
    SumQuantitiesSplit(m[k := v], k);
    if k in m {
      SumTotalsSplit(m, k);
      SumQuantitiesSplit(m, k);
      assert m[k := v] - {k} == m - {k};
    } else {
      assert m[k := v] - {k} == m;
    }
  }

  /** The cart's derived totals after each operation. Adding a new line raises the
      total by that line's total and the count by its quantity; removing lowers
      them by the removed line; clearing resets them to zero. */
  lemma TotalsAfterAddItem(c: Cart, item: CartItem, now: Instant)
    ensures item.itemId !in c.items ==>
              TotalPrice(AddItem(c, item, now).0) == TotalPrice(c) + CartItems.TotalPrice(item)
              && ItemCount(AddItem(c, item, now).0) == ItemCount(c) + item.quantity
    ensures item.itemId in c.items && c.items[item.itemId].sku == item.sku ==>
              ItemCount(AddItem(c, item, now).0) == ItemCount(c) + item.quantity
  {
    SumsAfterStore(c.items, item.itemId, AddItem(c, item, now).1);
  }

  /** A merge keeps the existing line's unit price: the added units are charged
      at that price, and the new item's own price is discarded. */
  lemma TotalsAfterMerge(c: Cart, item: CartItem, now: Instant)
    requires item.itemId in c.items && c.items[item.itemId].sku == item.sku
    ensures TotalPrice(AddItem(c, item, now).0)
            == TotalPrice(c) + c.items[item.itemId].unitPrice * (item.quantity as real)
  {
    var k := item.itemId;
    var existing := c.items[k];
    var r := AddItem(c, item, now);
    var stored := r.1;
    var extra := existing.unitPrice * (item.quantity as real);
    assert stored.unitPrice == existing.unitPrice && stored.quantity == existing.quantity + item.quantity;
    assert CartItems.TotalPrice(stored) == CartItems.TotalPrice(existing) + extra by {
      MergedLinePrice(existing.unitPrice, existing.quantity, item.quantity);
    }
    assert r.0.items == c.items[k := stored];
    SumsAfterStore(c.items, k, stored);
  }

  /** Pricing a merged line: the extra units are charged at the existing price. */
  lemma MergedLinePrice(p: real, q: int, extra: int)
    ensures p * ((q + extra) as real) == p * (q as real) + p * (extra as real)
  {
  }

  lemma TotalsAfterRemoveItem(c: Cart, itemId: ItemId, now: Instant)
    requires itemId in c.items
    ensures TotalPrice(RemoveItem(c, itemId, now).0) == TotalPrice(c) - CartItems.TotalPrice(c.items[itemId])
    ensures ItemCount(RemoveItem(c, itemId, now).0) == ItemCount(c) - c.items[itemId].quantity
  {
    SumTotalsSplit(c.items, itemId);
    SumQuantitiesSplit(c.items, itemId);
  }

  lemma TotalsAfterClear(c: Cart, now: Instant)
    ensures TotalPrice(Clear(c, now)) == 0.0 && ItemCount(Clear(c, now)) == 0 && IsEmpty(Clear(c, now))
  {
    SumBounds(Clear(c, now).items);
  }

  /** The cart is empty exactly when its item count is zero. */
  lemma EmptyIffNoUnits(c: Cart)
    ensures IsEmpty(c) <==> ItemCount(c) == 0
  {
    SumBounds(c.items);
  }

  /** Single-item operations leave every other entry untouched. */
  lemma OtherEntriesUnchanged(c: Cart, item: CartItem, itemId: ItemId, quantity: int, k: ItemId, now: Instant)
    requires k != item.itemId && k != itemId
    ensures var a := AddItem(c, item, now).0.items;
            (k in a <==> k in c.items) && (k in c.items ==> a[k] == c.items[k])
    ensures var u := UpdateItemQuantity(c, itemId, quantity, now);
            u.Ok? ==> (k in u.value.0.items <==> k in c.items) && (k in c.items ==> u.value.0.items[k] == c.items[k])
    ensures var d := RemoveItem(c, itemId, now).0.items;
            (k in d <==> k in c.items) && (k in c.items ==> d[k] == c.items[k])
  {
  }
}
