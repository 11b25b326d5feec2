/** Cart use cases: each reads the cart from the store, applies one cart
    operation and saves the cart back. Saving also makes the cart its user's
    current cart. A failed call leaves the store as it was. */
module CartService {
  import opened Basics
  import CartItems
  import Carts
  import opened CartRepository

  /** Creates an empty cart under a fresh id and saves it, so it becomes the
      user's current cart; a previous cart of the user stays stored under its id. */
  function CreateCart(s: CartStore, userId: UserId, freshCartId: CartId, now: Instant): (r: (CartStore, Cart))
    ensures r.1.items == map[] && r.1.version == 0 && r.1.userId == userId && r.1.cartId == freshCartId
    ensures FindByUserId(r.0, userId) == Some(r.1) && FindById(r.0, freshCartId) == Some(r.1)
    ensures forall id :: id != freshCartId ==> FindById(r.0, id) == FindById(s, id)
  {
    var cart := Carts.New(freshCartId, userId, now);
    (Save(s, cart), cart)
  }

  /** The stored cart, or CartNotFound. */
  function GetCart(s: CartStore, cartId: CartId): (r: Result<Cart>)
    ensures r.Ok? <==> cartId in s.byId
    ensures r.Ok? ==> r.value == s.byId[cartId]
    ensures r.Err? ==> r.error == CartNotFound(cartId)
  {
    if cartId in s.byId then Ok(s.byId[cartId]) else Err(CartNotFound(cartId))
  }

  /** Adds a new line built from the request under a fresh random item id. Since
      the id is fresh, a second add of the same SKU makes a second line. */
  function AddItem(s: CartStore, cartId: CartId, sku: Sku, productName: string, quantity: int,
                   unitPrice: real, freshItemId: ItemId, now: Instant): (r: (CartStore, Result<Cart>))
    ensures r.1.Err? ==> r.0 == s
    ensures cartId !in s.byId ==> r.1 == Err(CartNotFound(cartId))
    ensures cartId in s.byId && quantity < 1 ==> r.1 == Err(IllegalArgument(QuantityBelowOne))
    ensures cartId in s.byId && quantity >= 1 && unitPrice < 0.0 ==> r.1 == Err(IllegalArgument(NegativeUnitPrice))
    ensures r.1.Ok? <==> cartId in s.byId && quantity >= 1 && unitPrice >= 0.0
    ensures r.1.Ok? ==>
              var before := s.byId[cartId];
              var after := r.1.value;
              && after.version == before.version + 1
              && after.cartId == before.cartId && after.userId == before.userId
              && r.0 == Save(s, after)
              && (freshItemId !in before.items ==>
                    && freshItemId in after.items
                    && after.items[freshItemId] == CartItems.CartItemFields(
                         freshItemId, sku, productName, quantity, unitPrice, now, now)
                    && after.items == before.items[freshItemId := after.items[freshItemId]]
                    && |after.items| == |before.items| + 1)
  {
    match GetCart(s, cartId)
    case Err(e) => (s, Err(e))
    case Ok(cart) =>
      var builder := CartItems.NewBuilder(freshItemId, now).(sku := Some(sku), productName := Some(productName),
                                                             quantity := quantity, unitPrice := unitPrice);
      match CartItems.Build(builder)
      case Err(e) => (s, Err(e))
      case Ok(item) =>
        var (updated, _) := Carts.AddItem(cart, item, now);
        (Save(s, updated), Ok(updated))
  }

  /** Sets the quantity of an existing line. An unknown item id fails with the
      cart's IllegalArgumentException (not ItemNotFound), and nothing changes. */
  function UpdateItemQuantity(s: CartStore, cartId: CartId, itemId: ItemId, quantity: int, now: Instant): (r: (CartStore, Result<Cart>))
    ensures r.1.Err? ==> r.0 == s
    ensures cartId !in s.byId ==> r.1 == Err(CartNotFound(cartId))
    ensures cartId in s.byId && itemId !in s.byId[cartId].items ==>
              r.1 == Err(IllegalArgument(UnknownCartItem(itemId)))
    ensures r.1.Ok? <==> cartId in s.byId && itemId in s.byId[cartId].items && quantity >= 1
    ensures r.1.Ok? ==>
              var before := s.byId[cartId];
              && r.1.value == before.(items := before.items[itemId := before.items[itemId].(quantity := quantity, updatedAt := now)],
                                     version := before.version + 1, updatedAt := now)
              && r.0 == Save(s, r.1.value)
  {
    match GetCart(s, cartId)
    case Err(e) => (s, Err(e))
    case Ok(cart) =>
      match Carts.UpdateItemQuantity(cart, itemId, quantity, now)
      case Err(e) => (s, Err(e))
      case Ok((updated, _)) => (Save(s, updated), Ok(updated))
  }

  /** Removes a line. An unknown item id fails with ItemNotFound, and the cart and
      its version stay as they were. */
  function RemoveItem(s: CartStore, cartId: CartId, itemId: ItemId, now: Instant): (r: (CartStore, Result<Cart>))
    ensures r.1.Err? ==> r.0 == s
    ensures cartId !in s.byId ==> r.1 == Err(CartNotFound(cartId))
    ensures cartId in s.byId && itemId !in s.byId[cartId].items ==> r.1 == Err(ItemNotFound(itemId, cartId))
    ensures r.1.Ok? <==> cartId in s.byId && itemId in s.byId[cartId].items
    ensures r.1.Ok? ==>
              var before := s.byId[cartId];
              && r.1.value == before.(items := before.items - {itemId}, version := before.version + 1, updatedAt := now)
              && r.0 == Save(s, r.1.value)
  {
    match GetCart(s, cartId)
    case Err(e) => (s, Err(e))
    case Ok(cart) =>
      var (updated, removed) := Carts.RemoveItem(cart, itemId, now);
      if removed.None? then (s, Err(ItemNotFound(itemId, cartId)))
      else (Save(s, updated), Ok(updated))
  }

  /** Empties a stored cart (bumping its version) and saves it. */
  function ClearCart(s: CartStore, cartId: CartId, now: Instant): (r: (CartStore, Result<Cart>))
    ensures r.1.Err? ==> r.0 == s
    ensures r.1.Ok? <==> cartId in s.byId
    ensures r.1.Err? ==> r.1.error == CartNotFound(cartId)
    ensures r.1.Ok? ==>
              && r.1.value.items == map[] && r.1.value.version == s.byId[cartId].version + 1
              && r.1.value.cartId == s.byId[cartId].cartId && r.1.value.userId == s.byId[cartId].userId
              && r.0 == Save(s, r.1.value)
  {
    match GetCart(s, cartId)
    case Err(e) => (s, Err(e))
    case Ok(cart) =>
      var cleared := Carts.Clear(cart, now);
      (Save(s, cleared), Ok(cleared))
  }

  /** Deletes a stored cart; an unknown id fails with CartNotFound. */
  function DeleteCart(s: CartStore, cartId: CartId): (r: (CartStore, Result<()>))
    ensures r.1.Err? ==> r.0 == s && r.1.error == CartNotFound(cartId)
    ensures r.1.Ok? <==> cartId in s.byId
    ensures r.1.Ok? ==> r.0 == DeleteById(s, cartId).0 && FindById(r.0, cartId) == None
  {
    match DeleteById(s, cartId)
    case (s', None) => (s', Err(CartNotFound(cartId)))
    case (s', Some(_)) => (s', Ok(()))
  }

  // ---- Properties across calls ----

  /** Creating a cart under a fresh id keeps the store valid. */
  lemma CreateCartPreservesValid(s: CartStore, userId: UserId, freshCartId: CartId, now: Instant)
    requires Valid(s)
    requires freshCartId !in s.byId
    ensures Valid(CreateCart(s, userId, freshCartId, now).0)
  {
    SavePreservesValid(s, Carts.New(freshCartId, userId, now));
  }

  lemma AddItemPreservesValid(s: CartStore, cartId: CartId, sku: Sku, productName: string, quantity: int,
                              unitPrice: real, freshItemId: ItemId, now: Instant)
    requires Valid(s)
    ensures Valid(AddItem(s, cartId, sku, productName, quantity, unitPrice, freshItemId, now).0)
  {
    var r := AddItem(s, cartId, sku, productName, quantity, unitPrice, freshItemId, now);
    if r.1.Ok? { SavePreservesValid(s, r.1.value); }
  }

  lemma UpdateItemQuantityPreservesValid(s: CartStore, cartId: CartId, itemId: ItemId, quantity: int, now: Instant)
    requires Valid(s)
    ensures Valid(UpdateItemQuantity(s, cartId, itemId, quantity, now).0)
  {
    var r := UpdateItemQuantity(s, cartId, itemId, quantity, now);
    if r.1.Ok? { SavePreservesValid(s, r.1.value); }
  }

  lemma RemoveItemPreservesValid(s: CartStore, cartId: CartId, itemId: ItemId, now: Instant)
    requires Valid(s)
    ensures Valid(RemoveItem(s, cartId, itemId, now).0)
  {
    var r := RemoveItem(s, cartId, itemId, now);
    if r.1.Ok? { SavePreservesValid(s, r.1.value); }
  }

  lemma ClearCartPreservesValid(s: CartStore, cartId: CartId, now: Instant)
    requires Valid(s)
    ensures Valid(ClearCart(s, cartId, now).0)
  {
    if cartId in s.byId { SavePreservesValid(s, Carts.Clear(s.byId[cartId], now)); }
  }

  lemma DeleteCartPreservesValid(s: CartStore, cartId: CartId)
    requires Valid(s)
    ensures Valid(DeleteCart(s, cartId).0)
  {
    DeletePreservesValid(s, cartId);
  }

  /** Two adds of the same SKU with their fresh item ids make two separate lines:
      the same-SKU merge of the cart is never reached from this service. */
  lemma SameSkuTwiceMakesTwoLines(s: CartStore, cartId: CartId, sku: Sku, productName: string,
                                  quantity: int, unitPrice: real, id1: ItemId, id2: ItemId, now: Instant)
    requires Valid(s) && cartId in s.byId
    requires quantity >= 1 && unitPrice >= 0.0
    requires id1 != id2 && id1 !in s.byId[cartId].items && id2 !in s.byId[cartId].items
    ensures var first := AddItem(s, cartId, sku, productName, quantity, unitPrice, id1, now);
            var second := AddItem(first.0, cartId, sku, productName, quantity, unitPrice, id2, now);
            && second.1.Ok?
            && |second.1.value.items| == |s.byId[cartId].items| + 2
            && second.1.value.items[id1].sku == sku && second.1.value.items[id2].sku == sku
            && second.1.value.version == s.byId[cartId].version + 2
  {
    var first := AddItem(s, cartId, sku, productName, quantity, unitPrice, id1, now);
    assert first.0.byId[cartId] == first.1.value;
  }
}
