/** In-memory cart storage: carts by id plus a "current cart" index from user id
    to cart id. Each operation is one atomic step on the two maps. */
module CartRepository {
  import opened Basics
  import Carts

  type Cart = Carts.Cart

  datatype CartStore = CartStore(byId: map<CartId, Cart>, currentByUser: map<UserId, CartId>)

  /** The store every sequence of service calls keeps: each cart sits under its
      own id and is well formed, and each index entry names a stored cart of
      that user. */
  ghost predicate Valid(s: CartStore) {
    && (forall id :: id in s.byId ==> s.byId[id].cartId == id && Carts.Valid(s.byId[id]))
    && (forall u :: u in s.currentByUser ==>
          s.currentByUser[u] in s.byId && s.byId[s.currentByUser[u]].userId == u)
  }

  const Empty: CartStore := CartStore(map[], map[])

  /** Upserts the cart and makes it the user's current cart (last write wins). */
  function Save(s: CartStore, c: Cart): (r: CartStore)
    ensures FindById(r, c.cartId) == Some(c)
    ensures FindByUserId(r, c.userId) == Some(c)
    ensures forall id :: id != c.cartId ==> FindById(r, id) == FindById(s, id)
    ensures forall u :: u != c.userId ==> (u in r.currentByUser <==> u in s.currentByUser)
    ensures forall u :: u != c.userId && u in s.currentByUser ==> r.currentByUser[u] == s.currentByUser[u]
  {
    CartStore(s.byId[c.cartId := c], s.currentByUser[c.userId := c.cartId])
  }

  function FindById(s: CartStore, cartId: CartId): (r: Option<Cart>)
    ensures r.Some? <==> cartId in s.byId
    ensures r.Some? ==> r.value == s.byId[cartId]
  {
    if cartId in s.byId then Some(s.byId[cartId]) else None
  }

  /** The user's current cart; empty if the user has no index entry or the
      indexed cart is no longer stored. */
  function FindByUserId(s: CartStore, userId: UserId): (r: Option<Cart>)
    ensures r.Some? <==> userId in s.currentByUser && s.currentByUser[userId] in s.byId
    ensures r.Some? ==> r.value == s.byId[s.currentByUser[userId]]
  {
    if userId !in s.currentByUser then None else FindById(s, s.currentByUser[userId])
  }

  /** Removes the cart and returns it. The user's index entry goes too, but only
      if it still names this cart, so an index already moved to a newer cart survives. */
  function DeleteById(s: CartStore, cartId: CartId): (r: (CartStore, Option<Cart>))
    ensures cartId !in s.byId ==> r == (s, None)
    ensures cartId in s.byId ==> r.1 == Some(s.byId[cartId]) && r.0.byId == s.byId - {cartId}
    ensures cartId in s.byId ==>
              var u := s.byId[cartId].userId;
              && (forall v :: v != u ==> (v in r.0.currentByUser <==> v in s.currentByUser))
              && (forall v :: v in r.0.currentByUser ==> v in s.currentByUser && r.0.currentByUser[v] == s.currentByUser[v])
              && (u in s.currentByUser && s.currentByUser[u] != cartId ==>
                    u in r.0.currentByUser && r.0.currentByUser[u] == s.currentByUser[u])
              && (u !in r.0.currentByUser <==> (u !in s.currentByUser || s.currentByUser[u] == cartId))
  {
    if cartId !in s.byId then (s, None)
    else
      var removed := s.byId[cartId];
      var index :=
        if removed.userId in s.currentByUser && s.currentByUser[removed.userId] == cartId
        then s.currentByUser - {removed.userId}
        else s.currentByUser;
      (CartStore(s.byId - {cartId}, index), Some(removed))
  }

  /** Empties both the primary map and the user index. */
  function Clear(s: CartStore): (r: CartStore)
    ensures forall id :: FindById(r, id) == None
    ensures forall u :: FindByUserId(r, u) == None && u !in r.currentByUser
  {
    Empty
  }

  /** Optimistic update: an absent cart gives an empty result; a stored version
      other than `expectedVersion` throws ConcurrentModificationException without
      running `updater`; otherwise the updater's result replaces the stored cart
      and is returned. An updater that returns null (None) removes the entry, as
      Java's compute does. The user index is never touched. */
  function UpdateWithVersionCheck(s: CartStore, cartId: CartId, expectedVersion: int,
                                  updater: Cart -> Option<Cart>): (r: (CartStore, Result<Option<Cart>>))
    ensures cartId !in s.byId ==> r == (s, Ok(None))
    ensures cartId in s.byId && s.byId[cartId].version != expectedVersion ==>
              r == (s, Err(ConcurrentModification(expectedVersion, s.byId[cartId].version)))
    ensures cartId in s.byId && s.byId[cartId].version == expectedVersion ==>
              && r.1 == Ok(updater(s.byId[cartId]))
              && r.0.currentByUser == s.currentByUser
              && (updater(s.byId[cartId]).Some? ==> r.0.byId == s.byId[cartId := updater(s.byId[cartId]).value])
              && (updater(s.byId[cartId]).None? ==> r.0.byId == s.byId - {cartId})
  {
    if cartId !in s.byId then (s, Ok(None))
    else
      var existing := s.byId[cartId];
      if existing.version != expectedVersion then
        (s, Err(ConcurrentModification(expectedVersion, existing.version)))
      else
        match updater(existing)
        case None => (s.(byId := s.byId - {cartId}), Ok(None))
        case Some(updated) => (s.(byId := s.byId[cartId := updated]), Ok(Some(updated)))
  }

  /** Saving a well-formed cart keeps the store valid, provided the cart id is new
      or already belongs to the same user (a fresh random id, or a cart read back
      from the store). */
  lemma SavePreservesValid(s: CartStore, c: Cart)
    requires Valid(s) && Carts.Valid(c)
    requires c.cartId in s.byId ==> s.byId[c.cartId].userId == c.userId
    ensures Valid(Save(s, c))
  {
  }

  lemma DeletePreservesValid(s: CartStore, cartId: CartId)
    requires Valid(s)
    ensures Valid(DeleteById(s, cartId).0)
  {
    if cartId in s.byId {
      var r := DeleteById(s, cartId).0;
      forall u | u in r.currentByUser
        ensures r.currentByUser[u] in r.byId && r.byId[r.currentByUser[u]].userId == u
      {
        assert r.currentByUser[u] == s.currentByUser[u];
        assert s.currentByUser[u] != cartId;
      }
    }
  }

  /** A version-checked update keeps the store valid when the updater keeps the
      cart's id and owner and its well-formedness. */
  lemma UpdatePreservesValid(s: CartStore, cartId: CartId, expectedVersion: int, updater: Cart -> Option<Cart>)
    requires Valid(s)
    requires forall c: Cart :: Carts.Valid(c) ==>
               && updater(c).Some?
               && updater(c).value.cartId == c.cartId && updater(c).value.userId == c.userId
               && Carts.Valid(updater(c).value)
    ensures Valid(UpdateWithVersionCheck(s, cartId, expectedVersion, updater).0)
  {
    if cartId in s.byId && s.byId[cartId].version == expectedVersion {
      var before := s.byId[cartId];
      assert Carts.Valid(before);
      var updated := updater(before).value;
      var r := UpdateWithVersionCheck(s, cartId, expectedVersion, updater).0;
      assert r.byId == s.byId[cartId := updated];
      assert r.currentByUser == s.currentByUser;
      forall u | u in r.currentByUser
        ensures r.currentByUser[u] in r.byId && r.byId[r.currentByUser[u]].userId == u
      {
      }
    }
  }

  /** An updater that returns null removes the cart but leaves the user index
      untouched: if the cart was its user's current cart, the index entry now
      names a missing cart, the lookup by user finds nothing, and the store is
      no longer valid. */
  lemma NullUpdateLeavesDanglingIndex(s: CartStore, cartId: CartId, updater: Cart -> Option<Cart>)
    requires cartId in s.byId
    requires updater(s.byId[cartId]).None?
    requires s.byId[cartId].userId in s.currentByUser && s.currentByUser[s.byId[cartId].userId] == cartId
    ensures var r := UpdateWithVersionCheck(s, cartId, s.byId[cartId].version, updater);
            var u := s.byId[cartId].userId;
            && r.1 == Ok(None)
            && u in r.0.currentByUser && r.0.currentByUser[u] == cartId
            && cartId !in r.0.byId
            && FindByUserId(r.0, u) == None
            && !Valid(r.0)
  {
    var r := UpdateWithVersionCheck(s, cartId, s.byId[cartId].version, updater);
    var u := s.byId[cartId].userId;
    assert r.0.currentByUser[u] !in r.0.byId;
  }
}
