/** In-memory order storage: orders by id, a user index (user id to the set of
    that user's order ids) and the idempotency index (key to order id). Each
    operation is one atomic step on the three maps. */
module OrderRepository {
  import opened Basics
  import opened OrderStatuses
  import Orders

  type Order = Orders.Order

  datatype OrderStore = OrderStore(
    byId: map<OrderId, Order>,
    idsByUser: map<UserId, set<OrderId>>,
    idByKey: map<IdempotencyKey, OrderId>)

  /** The three maps agree: every order sits under its own id, the idempotency
      index and the stored orders are in one-to-one correspondence, and the user
      index lists exactly the stored orders of each user. */
  ghost predicate Valid(s: OrderStore) {
    && (forall id :: id in s.byId ==> s.byId[id].orderId == id)
    && (forall id :: id in s.byId ==>
          s.byId[id].idempotencyKey in s.idByKey && s.idByKey[s.byId[id].idempotencyKey] == id)
    && (forall k :: k in s.idByKey ==> s.idByKey[k] in s.byId && s.byId[s.idByKey[k]].idempotencyKey == k)
    && (forall id :: id in s.byId ==> s.byId[id].userId in s.idsByUser && id in s.idsByUser[s.byId[id].userId])
    && (forall u, id :: u in s.idsByUser && id in s.idsByUser[u] ==> id in s.byId && s.byId[id].userId == u)
  }

  const Empty: OrderStore := OrderStore(map[], map[], map[])

  function UserOrderIds(s: OrderStore, userId: UserId): set<OrderId> {
    if userId in s.idsByUser then s.idsByUser[userId] else {}
  }

  /** Stores the order under its id, adds it to its user's set and points its
      idempotency key at it, overwriting whatever the key pointed at before. */
  function Save(s: OrderStore, o: Order): (r: OrderStore)
    ensures r.byId == s.byId[o.orderId := o]
    ensures r.idByKey == s.idByKey[o.idempotencyKey := o.orderId]
    ensures UserOrderIds(r, o.userId) == UserOrderIds(s, o.userId) + {o.orderId}
    ensures forall u :: u != o.userId ==> UserOrderIds(r, u) == UserOrderIds(s, u)
  {
    OrderStore(s.byId[o.orderId := o],
               s.idsByUser[o.userId := UserOrderIds(s, o.userId) + {o.orderId}],
               s.idByKey[o.idempotencyKey := o.orderId])
  }

  /** Inserts the order only if its idempotency key is not yet indexed. If it is,
      nothing changes, the candidate is discarded and the order stored under the
      indexed id is returned (None if that id is not stored: Java's null). */
  function SaveIfAbsentByIdempotencyKey(s: OrderStore, o: Order): (r: (OrderStore, Option<Order>))
    ensures o.idempotencyKey !in s.idByKey ==> r == (Save(s, o), Some(o))
    ensures o.idempotencyKey in s.idByKey ==> r == (s, FindById(s, s.idByKey[o.idempotencyKey]))
    ensures forall k :: k in s.idByKey ==> k in r.0.idByKey && r.0.idByKey[k] == s.idByKey[k]
    ensures forall id :: id in s.byId && id != o.orderId ==> id in r.0.byId && r.0.byId[id] == s.byId[id]
  {
    if o.idempotencyKey in s.idByKey then (s, FindById(s, s.idByKey[o.idempotencyKey]))
    else (Save(s, o), Some(o))
  }

  function FindById(s: OrderStore, orderId: OrderId): (r: Option<Order>)
    ensures r.Some? <==> orderId in s.byId
    ensures r.Some? ==> r.value == s.byId[orderId]
  {
    if orderId in s.byId then Some(s.byId[orderId]) else None
  }

  /** The order stored under the id indexed for the key; empty if the key is not
      indexed or its id is not stored. */
  function FindByIdempotencyKey(s: OrderStore, key: IdempotencyKey): (r: Option<Order>)
    ensures key !in s.idByKey ==> r == None
    ensures key in s.idByKey ==> r == FindById(s, s.idByKey[key])
    ensures Valid(s) ==> (r.Some? <==> key in s.idByKey)
    ensures Valid(s) && r.Some? ==> r.value.idempotencyKey == key
  {
    if key !in s.idByKey then None else FindById(s, s.idByKey[key])
  }

  /** The stored orders whose ids are in the user's set (an unknown user has none). */
  function FindByUserId(s: OrderStore, userId: UserId): (r: set<Order>)
    ensures userId !in s.idsByUser ==> r == {}
    ensures forall o :: o in r ==> o in s.byId.Values
    ensures forall o :: o in r ==> exists id :: id in UserOrderIds(s, userId) && id in s.byId && s.byId[id] == o
    ensures forall id :: id in UserOrderIds(s, userId) && id in s.byId ==> s.byId[id] in r
    ensures Valid(s) ==> forall o :: o in r <==> o in s.byId.Values && o.userId == userId
  {
    var ids := UserOrderIds(s, userId);
    var r := set id | id in ids && id in s.byId :: s.byId[id];
    assert Valid(s) ==> forall o :: o in s.byId.Values && o.userId == userId ==> o in r by {
      if Valid(s) {
        forall o | o in s.byId.Values && o.userId == userId ensures o in r {
          var id :| id in s.byId && s.byId[id] == o;
        }
      }
    }
    r
  }

  /** The stored orders currently in the given status. */
  function FindByStatus(s: OrderStore, status: OrderStatus): (r: set<Order>)
    ensures forall o :: o in r <==> o in s.byId.Values && o.status == status
  {
    set o | o in s.byId.Values && o.status == status
  }

  predicate ExistsByIdempotencyKey(s: OrderStore, key: IdempotencyKey) {
    key in s.idByKey
  }

  /** Replaces a stored order by a copy with the new status, without checking the
      transition; an absent id gives an empty result and changes nothing. */
  function UpdateStatus(s: OrderStore, orderId: OrderId, status: OrderStatus, now: Instant): (r: (OrderStore, Option<Order>))
    ensures orderId !in s.byId ==> r == (s, None)
    ensures orderId in s.byId ==>
              && r.1 == Some(Orders.WithStatus(s.byId[orderId], status, now))
              && r.0 == s.(byId := s.byId[orderId := r.1.value])
  {
    if orderId in s.byId then
      var updated := Orders.WithStatus(s.byId[orderId], status, now);
      (s.(byId := s.byId[orderId := updated]), Some(updated))
    else (s, None)
  }

  function Clear(s: OrderStore): (r: OrderStore)
    ensures r.byId == map[] && r.idsByUser == map[] && r.idByKey == map[]
    ensures Valid(r)
  {
    Empty
  }

  // ---- Invariant and idempotency lemmas ----

  /** In a valid store no two stored orders share an idempotency key. */
  lemma AtMostOneOrderPerKey(s: OrderStore, a: OrderId, b: OrderId)
    requires Valid(s)
    requires a in s.byId && b in s.byId
    requires s.byId[a].idempotencyKey == s.byId[b].idempotencyKey
    ensures a == b
  {
  }

  /** The existence check answers exactly whether the lookup by key finds an order. */
  lemma ExistsIffFound(s: OrderStore, key: IdempotencyKey)
    requires Valid(s)
    ensures ExistsByIdempotencyKey(s, key) <==> FindByIdempotencyKey(s, key).Some?
  {
  }

  /** A first-time insert with a fresh order id keeps the store valid. */
  lemma SaveIfAbsentPreservesValid(s: OrderStore, o: Order)
    requires Valid(s)
    requires o.orderId !in s.byId
    ensures Valid(SaveIfAbsentByIdempotencyKey(s, o).0)
  {
    if o.idempotencyKey !in s.idByKey {
      var r := Save(s, o);
      forall u, id | u in r.idsByUser && id in r.idsByUser[u]
        ensures id in r.byId && r.byId[id].userId == u
      {
        if u == o.userId {
          assert id in UserOrderIds(r, u);
        } else {
          assert id in UserOrderIds(s, u);
        }
      }
      forall id | id in r.byId
        ensures r.byId[id].userId in r.idsByUser && id in r.idsByUser[r.byId[id].userId]
      {
        assert id in UserOrderIds(r, r.byId[id].userId);
      }
    }
  }

  /** A status update keeps the store valid: id, key and user stay the same. */
  lemma UpdateStatusPreservesValid(s: OrderStore, orderId: OrderId, status: OrderStatus, now: Instant)
    requires Valid(s)
    ensures Valid(UpdateStatus(s, orderId, status, now).0)
  {
  }

  /** Once a key is indexed, inserting any other candidate with the same key
      returns the order already stored for it and changes nothing. */
  lemma SaveIfAbsentIsIdempotent(s: OrderStore, first: Order, second: Order)
    requires Valid(s)
    requires first.orderId !in s.byId && first.idempotencyKey !in s.idByKey
    requires second.idempotencyKey == first.idempotencyKey
    ensures var s1 := SaveIfAbsentByIdempotencyKey(s, first).0;
            SaveIfAbsentByIdempotencyKey(s1, second) == (s1, Some(first))
  {
  }

  /** Every stored order appears in exactly the status query for its status. */
  lemma StatusQueriesPartition(s: OrderStore, a: OrderStatus, b: OrderStatus)
    requires a != b
    ensures FindByStatus(s, a) !! FindByStatus(s, b)
    ensures forall o :: o in s.byId.Values ==> o in FindByStatus(s, o.status)
  {
  }
}
