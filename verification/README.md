# Cart and order core of the order-placement service, in Dafny

This project models the in-memory domain and storage layer of a Java order-placement
service. A user fills a shopping **cart**. The cart is a map from item id to cart item,
with an optimistic version counter. The user then turns the cart into an immutable
**order**. Placement is idempotent: it is keyed by a caller-supplied **idempotency key**.
After placement, the order moves through a closed status lifecycle
(PENDING → CONFIRMED → PROCESSING → SHIPPED → DELIVERED, with CANCELLED reachable from
PENDING and CONFIRMED).

The model is functional:

- Cart items, order items, carts and orders are immutable Dafny values.
- Each store is a record of Dafny maps:
  - `CartStore`: carts by id, plus the user → current-cart index.
  - `OrderStore`: orders by id, user → order-id set, and idempotency key → order id.
- Every repository or service operation is a pure function from a state to a new state
  and a `Result`. Every Java exception is one constructor of `Basics.Error`.
- Each call on a concurrent map is one atomic step. A sequence of calls is a sequence
  of function applications.
- Money is exact (`real`, as `BigDecimal` is).
- Random ids (UUIDs) and clock readings (`Instant.now()`) are parameters supplied by the
  caller. Freshness of an id is a hypothesis of the invariant lemmas, never a
  precondition of an operation.

Modules, one per source file:

| module | file | models |
|---|---|---|
| `OrderStatuses` | `order_status.dfy` | the status enum, its predicates and the transition table |
| `Basics` | `basics.dfy` | ids, `Option`, `Result`, the error taxonomy |
| `CartItems` | `cart_item.dfy` | `CartItem` and its builder |
| `OrderItems` | `order_item.dfy` | `OrderItem` |
| `Carts` | `cart.dfy` | the `Cart` aggregate and its sums over the item map |
| `Orders` | `order.dfy` | `Order`, `fromCart`, `withStatus`, the builder check |
| `CartRepository` | `cart_repository.dfy` | cart storage |
| `OrderRepository` | `order_repository.dfy` | order storage with the idempotency index |
| `CartService` | `cart_service.dfy` | cart use cases |
| `OrderService` | `order_service.dfy` | placement protocol and status changes |
| `Scenario` | `scenario.dfy` | an end-to-end walk-through |

Objects that Java lets exist only after a successful `build()` are **subset types**:

- a `CartItem` has quantity ≥ 1 and unit price ≥ 0;
- an `Order` has at least one item;
- an `OrderItem`'s total always equals unit price × quantity.

The builders themselves are modelled as functions returning a `Result`.

The cart's item map is a `ConcurrentHashMap`, and its iteration order is unspecified.
The model sums over it by visiting an arbitrary key first (`Carts.Pick`). It then proves
that any entry can be split off with the same result (`SumTotalsSplit`,
`SumQuantitiesSplit`). So no property depends on the order.

Where the code and its documentation disagree, the model follows the code:

- The doc comments call CONFIRMED "the point of no return". The code still lets
  CONFIRMED orders be cancelled.
- `Order.getItemCount` is documented as counting unique items. It sums quantities.
- `Cart.addItem` is documented as merging items with the same SKU. It merges only when
  the *item id* slot already holds that SKU. `CartService.addItem` always mints a fresh
  item id, so two service adds of one SKU give two lines (`SameSkuTwiceMakesTwoLines`,
  `Scenario.TwoAddsOfOneSku`). The totals are the same either way: 3 units, 30.00,
  an order of 33.00.

## Model

Paths are relative to the repository root.

| member | source | states |
|---|---|---|
| `OrderStatuses.CanTransition` | src/main/java/com/telekom/orderPlacement/service/OrderService.java:246-263 | a transition is allowed iff it is one of the six listed edges (`Edges`); the rule is chosen by the requested status, and a request for PENDING is never allowed |
| `OrderStatuses.ModifiableIsCancellable` | src/main/java/com/telekom/orderPlacement/domain/model/OrderStatus.java:62-80 | modifiable holds exactly for PENDING, and a modifiable status is cancellable |
| `OrderStatuses.TerminalExcludesCancellable` | src/main/java/com/telekom/orderPlacement/domain/model/OrderStatus.java:62-72 | no status is both terminal and cancellable |
| `OrderStatuses.TerminalIffNoSuccessor` | src/main/java/com/telekom/orderPlacement/service/OrderService.java:250-257 | DELIVERED and CANCELLED (the terminal statuses) are exactly the statuses with no allowed outgoing transition |
| `OrderStatuses.PendingIsNeverATarget` | src/main/java/com/telekom/orderPlacement/service/OrderService.java:250-257 | no status may move to PENDING |
| `OrderStatuses.CancelEdgeMatchesCancellable` | src/main/java/com/telekom/orderPlacement/service/OrderService.java:255 | moving to CANCELLED is allowed exactly from the cancellable statuses (PENDING, CONFIRMED) |
| `OrderStatuses.EdgesClimb` | src/main/java/com/telekom/orderPlacement/service/OrderService.java:250-257 | every allowed transition strictly raises the lifecycle rank |
| `OrderStatuses.RunClimbs` | src/main/java/com/telekom/orderPlacement/service/OrderService.java:250-257 | along a chain of allowed transitions the rank rises by at least one per step |
| `OrderStatuses.RunsAreShortAndAcyclic` | src/main/java/com/telekom/orderPlacement/service/OrderService.java:250-257 | no chain of allowed transitions revisits a status, and none is longer than six statuses |
| `CartItems.Build` | src/main/java/com/telekom/orderPlacement/domain/model/CartItem.java:116-126 | build succeeds iff SKU and name are set, quantity ≥ 1 and price ≥ 0; a null gives NullPointerException, then a quantity below 1 and then a negative price give IllegalArgumentException; on success every field is copied |
| `CartItems.BuilderDefaults` | src/main/java/com/telekom/orderPlacement/domain/model/CartItem.java:99-107 | a builder given only SKU and name builds an item with quantity 1 and unit price 0 under the fresh id |
| `CartItems.TotalPrice` | src/main/java/com/telekom/orderPlacement/domain/model/CartItem.java:54-56 | the line total is non-negative, at least the unit price, and equal to it for a single unit |
| `CartItems.WithQuantity` | src/main/java/com/telekom/orderPlacement/domain/model/CartItem.java:62-72 | succeeds iff the new quantity is ≥ 1; then only quantity and updatedAt change (id, SKU, name, price, addedAt kept); otherwise IllegalArgumentException |
| `CartItems.WithQuantityKeepsIdentity` | src/main/java/com/telekom/orderPlacement/domain/model/CartItem.java:74-85 | the copy is equal (same item id) to the original and its total is price × new quantity |
| `OrderItems.FromCartItem` | src/main/java/com/telekom/orderPlacement/domain/model/OrderItem.java:42-50 | copies id, SKU, name, quantity and unit price, and its fixed total equals the cart item's total |
| `OrderItems.FromCartItemKeepsIdentity` | src/main/java/com/telekom/orderPlacement/domain/model/OrderItem.java:61-71 | two frozen items are equal iff the cart items they came from are equal (same item id) |
| `Carts.New` | src/main/java/com/telekom/orderPlacement/domain/model/Cart.java:42-49 | a new cart has no items, version 0, the given owner and id, and both timestamps at creation |
| `Carts.AddItem` | src/main/java/com/telekom/orderPlacement/domain/model/Cart.java:94-104 | the slot of the item's id gets either the existing line with summed quantity (same SKU there) or the item itself; that stored item is returned; the version rises by exactly 1; no other entry changes |
| `Carts.UpdateItemQuantity` | src/main/java/com/telekom/orderPlacement/domain/model/Cart.java:111-120 | an absent id, or a quantity below 1, fails with IllegalArgumentException and no new cart; otherwise only that item's quantity changes and the version rises by 1 |
| `Carts.RemoveItem` | src/main/java/com/telekom/orderPlacement/domain/model/Cart.java:127-133 | returns the removed item and bumps the version iff the id was present; otherwise returns empty and the cart is unchanged |
| `Carts.Clear` | src/main/java/com/telekom/orderPlacement/domain/model/Cart.java:139-142 | the cart is empty and its version rises by 1, even if it was empty already |
| `Carts.Snapshot` | src/main/java/com/telekom/orderPlacement/domain/model/Cart.java:182-184 | the copy has the same id, owner, version, timestamps and entries |
| `Carts.SumTotalsSplit` | src/main/java/com/telekom/orderPlacement/domain/model/Cart.java:147-151 | the cart total is the sum of line totals whatever the iteration order: any line can be split off |
| `Carts.SumQuantitiesSplit` | src/main/java/com/telekom/orderPlacement/domain/model/Cart.java:156-160 | the item count is the sum of quantities whatever the iteration order |
| `Carts.SumBounds` | src/main/java/com/telekom/orderPlacement/domain/model/Cart.java:147-167 | the item count is at least the number of lines, the total is non-negative, and both are zero for an empty map |
| `Carts.SumsAfterStore` | src/main/java/com/telekom/orderPlacement/domain/model/Cart.java:94-120 | storing a line changes total and count by the new line minus the line it replaces |
| `Carts.TotalsAfterAddItem` | src/main/java/com/telekom/orderPlacement/domain/model/Cart.java:94-104 | adding a line under a new id raises the total by its total and the count by its quantity; merging raises the count by the added quantity |
| `Carts.TotalsAfterMerge` | src/main/java/com/telekom/orderPlacement/domain/model/Cart.java:94-100 | a same-SKU merge raises the total by the added quantity at the EXISTING line's unit price; the new item's own price is discarded |
| `Carts.TotalsAfterRemoveItem` | src/main/java/com/telekom/orderPlacement/domain/model/Cart.java:127-133 | removing a line lowers total and count by that line |
| `Carts.TotalsAfterClear` | src/main/java/com/telekom/orderPlacement/domain/model/Cart.java:139-142 | after clearing, total and count are zero and the cart is empty |
| `Carts.EmptyIffNoUnits` | src/main/java/com/telekom/orderPlacement/domain/model/Cart.java:156-167 | the cart is empty iff its item count is zero |
| `Carts.OtherEntriesUnchanged` | src/main/java/com/telekom/orderPlacement/domain/model/Cart.java:94-133 | add, update and remove leave every entry under another id untouched |
| `Orders.Build` | src/main/java/com/telekom/orderPlacement/domain/model/Order.java:202-211 | building succeeds iff the item list is non-empty; otherwise IllegalStateException |
| `Orders.OrderLines` | src/main/java/com/telekom/orderPlacement/domain/model/Order.java:72-78 | one order line per cart entry; the lines' totals sum to the cart total and their quantities to the cart's item count |
| `Orders.OrderLinesAreFrozenEntries` | src/main/java/com/telekom/orderPlacement/domain/model/Order.java:72-74 | each order line is the frozen copy of the cart entry stored under its id |
| `Orders.OrderLinesCoverKeys` | src/main/java/com/telekom/orderPlacement/domain/model/Order.java:72-74 | the set of line ids is exactly the set of cart keys |
| `Orders.FromCart` | src/main/java/com/telekom/orderPlacement/domain/model/Order.java:70-100 | succeeds iff the cart has items; the order is PENDING, carries the cart's user and cart id, the key, address and notes; subtotal is the cart total, tax is 10% of it and total is their sum; its unit count equals the cart's and is at least its line count |
| `Orders.FromCartLinesMatchCart` | src/main/java/com/telekom/orderPlacement/domain/model/Order.java:72-74 | for a well-formed cart, the order's lines are the frozen cart entries, one per key |
| `Orders.FromCartTotal` | src/main/java/com/telekom/orderPlacement/domain/model/Order.java:80-83 | the order total is the cart total × 1.10 |
| `Orders.WithStatus` | src/main/java/com/telekom/orderPlacement/domain/model/Order.java:106-122 | the copy has the new status and update time; id, user, cart, key, items, amounts, createdAt, address and notes are kept |
| `CartRepository.Save` | src/main/java/com/telekom/orderPlacement/repository/CartRepository.java:67-73 | afterwards both lookups (by id, by user) return the saved cart; other ids and other users' index entries are untouched |
| `CartRepository.FindById` | src/main/java/com/telekom/orderPlacement/repository/CartRepository.java:81-83 | finds a cart iff one is stored under the id |
| `CartRepository.FindByUserId` | src/main/java/com/telekom/orderPlacement/repository/CartRepository.java:91-97 | empty when the user has no index entry or the indexed cart is no longer stored; otherwise the indexed cart |
| `CartRepository.DeleteById` | src/main/java/com/telekom/orderPlacement/repository/CartRepository.java:115-123 | an absent id changes nothing; otherwise the cart is removed and returned, and its user's index entry is removed only if it still names this cart |
| `CartRepository.Clear` | src/main/java/com/telekom/orderPlacement/repository/CartRepository.java:148-152 | no cart is found by id or by user afterwards |
| `CartRepository.UpdateWithVersionCheck` | src/main/java/com/telekom/orderPlacement/repository/CartRepository.java:167-185 | an absent cart gives empty and no change; a version mismatch throws ConcurrentModificationException with the store unchanged; on a match the updater's result replaces the cart (or removes it when null) and is returned, with the user index untouched |
| `CartRepository.SavePreservesValid` | src/main/java/com/telekom/orderPlacement/repository/CartRepository.java:67-73 | saving a cart with a new id, or one owned by the same user, keeps every index entry pointing at a stored cart of that user |
| `CartRepository.DeletePreservesValid` | src/main/java/com/telekom/orderPlacement/repository/CartRepository.java:115-123 | the guarded index removal keeps every index entry pointing at a stored cart of that user |
| `CartRepository.UpdatePreservesValid` | src/main/java/com/telekom/orderPlacement/repository/CartRepository.java:167-185 | a version-checked update keeps the store valid when the updater never returns null and keeps id, owner and well-formedness |
| `CartRepository.NullUpdateLeavesDanglingIndex` | src/main/java/com/telekom/orderPlacement/repository/CartRepository.java:167-185 | an updater returning null removes a user's current cart but leaves the user index naming it, so the lookup by user finds nothing and the store is no longer valid |
| `OrderRepository.Save` | src/main/java/com/telekom/orderPlacement/repository/OrderRepository.java:61-75 | stores the order by id, adds its id to its user's set, and points its key at it, overwriting the key's previous target |
| `OrderRepository.SaveIfAbsentByIdempotencyKey` | src/main/java/com/telekom/orderPlacement/repository/OrderRepository.java:87-101 | an unindexed key stores the order in all three maps and returns it; an indexed key changes nothing and returns the order stored under the indexed id; no indexed key is ever remapped |
| `OrderRepository.FindById` | src/main/java/com/telekom/orderPlacement/repository/OrderRepository.java:109-111 | finds an order iff one is stored under the id |
| `OrderRepository.FindByIdempotencyKey` | src/main/java/com/telekom/orderPlacement/repository/OrderRepository.java:119-125 | the order stored under the key's indexed id, or empty for an unindexed key; in a valid store it is found iff the key is indexed, and it carries that key |
| `OrderRepository.FindByUserId` | src/main/java/com/telekom/orderPlacement/repository/OrderRepository.java:133-143 | exactly the stored orders whose ids are in the user's set (none for an unknown user), in any store; in a valid store exactly the stored orders of that user |
| `OrderRepository.FindByStatus` | src/main/java/com/telekom/orderPlacement/repository/OrderRepository.java:151-155 | exactly the stored orders with the status |
| `OrderRepository.UpdateStatus` | src/main/java/com/telekom/orderPlacement/repository/OrderRepository.java:185-199 | a present order is replaced by its copy with the new status, which is returned, with no transition check; an absent id changes nothing |
| `OrderRepository.Clear` | src/main/java/com/telekom/orderPlacement/repository/OrderRepository.java:223-228 | all three maps are empty |
| `OrderRepository.AtMostOneOrderPerKey` | src/main/java/com/telekom/orderPlacement/repository/OrderRepository.java:87-101 | in a valid store two stored orders with the same idempotency key are the same order |
| `OrderRepository.ExistsIffFound` | src/main/java/com/telekom/orderPlacement/repository/OrderRepository.java:173-175 | in a valid store the key is indexed iff the lookup by key finds an order |
| `OrderRepository.SaveIfAbsentPreservesValid` | src/main/java/com/telekom/orderPlacement/repository/OrderRepository.java:87-101 | inserting an order with a fresh id keeps the three maps consistent |
| `OrderRepository.UpdateStatusPreservesValid` | src/main/java/com/telekom/orderPlacement/repository/OrderRepository.java:185-199 | status updates keep the three maps consistent |
| `OrderRepository.SaveIfAbsentIsIdempotent` | src/main/java/com/telekom/orderPlacement/repository/OrderRepository.java:87-97 | after a first insert for a key, inserting any other candidate with that key returns the first order and changes nothing |
| `OrderRepository.StatusQueriesPartition` | src/main/java/com/telekom/orderPlacement/repository/OrderRepository.java:151-155 | queries for different statuses are disjoint and every stored order appears under its own status |
| `CartService.CreateCart` | src/main/java/com/telekom/orderPlacement/service/CartService.java:55-71 | stores a new empty cart at version 0 that becomes the user's current cart; every other cart stays stored under its id |
| `CartService.GetCart` | src/main/java/com/telekom/orderPlacement/service/CartService.java:80-85 | the stored cart, or CartNotFound |
| `CartService.AddItem` | src/main/java/com/telekom/orderPlacement/service/CartService.java:109-129 | unknown cart → CartNotFound, bad quantity or price → IllegalArgument, store unchanged; otherwise a line under the fresh id is added (one more entry even if the SKU is present), the version rises by 1 and the cart is saved |
| `CartService.UpdateItemQuantity` | src/main/java/com/telekom/orderPlacement/service/CartService.java:139-152 | an unknown item fails with the cart's IllegalArgumentException (not ItemNotFound) and nothing changes; otherwise only that quantity changes, the version rises by 1 and the cart is saved |
| `CartService.RemoveItem` | src/main/java/com/telekom/orderPlacement/service/CartService.java:162-176 | an unknown item fails with ItemNotFound and cart and version stay; otherwise the line is removed, the version rises by 1 and the cart is saved |
| `CartService.ClearCart` | src/main/java/com/telekom/orderPlacement/service/CartService.java:185-196 | a stored cart is left with no items and one more version and is saved; an unknown cart gives CartNotFound |
| `CartService.DeleteCart` | src/main/java/com/telekom/orderPlacement/service/CartService.java:203-210 | an unknown cart gives CartNotFound and no change; otherwise the cart is no longer found |
| `CartService.CreateCartPreservesValid` | src/main/java/com/telekom/orderPlacement/service/CartService.java:55-71 | creating a cart under a fresh id keeps carts under their own ids and the user index pointing at stored carts of that user |
| `CartService.AddItemPreservesValid` | src/main/java/com/telekom/orderPlacement/service/CartService.java:109-129 | adding an item keeps the cart store valid |
| `CartService.UpdateItemQuantityPreservesValid` | src/main/java/com/telekom/orderPlacement/service/CartService.java:139-152 | changing a quantity keeps the cart store valid |
| `CartService.RemoveItemPreservesValid` | src/main/java/com/telekom/orderPlacement/service/CartService.java:162-176 | removing an item keeps the cart store valid |
| `CartService.ClearCartPreservesValid` | src/main/java/com/telekom/orderPlacement/service/CartService.java:185-196 | clearing a cart keeps the cart store valid |
| `CartService.DeleteCartPreservesValid` | src/main/java/com/telekom/orderPlacement/service/CartService.java:203-210 | deleting a cart keeps the cart store valid, because the user index entry goes only if it names the deleted cart |
| `CartService.SameSkuTwiceMakesTwoLines` | src/main/java/com/telekom/orderPlacement/service/CartService.java:115-122 | two adds of one SKU with their fresh ids make two lines and raise the version by 2 |
| `OrderService.PlaceOrder` | src/main/java/com/telekom/orderPlacement/service/OrderService.java:76-136 | a key that finds an order returns it flagged existing with no change; otherwise an unknown cart gives CartNotFound and an empty cart CartEmpty, with no change; an existing-flag result never changes state; the counter moves by one exactly on first placements |
| `OrderService.GetOrder` | src/main/java/com/telekom/orderPlacement/service/OrderService.java:150-155 | the stored order, or OrderNotFound |
| `OrderService.UpdateOrderStatus` | src/main/java/com/telekom/orderPlacement/service/OrderService.java:229-242 | an unknown order gives OrderNotFound and a forbidden transition IllegalStateException, neither changing the store; it succeeds iff the transition is one of the edges, and then only that order gets the requested status |
| `OrderService.ConfirmOrder` | src/main/java/com/telekom/orderPlacement/service/OrderService.java:185-197 | succeeds iff the order exists and is PENDING, and then it is CONFIRMED; otherwise OrderNotFound or an invalid transition, with no change |
| `OrderService.CancelOrder` | src/main/java/com/telekom/orderPlacement/service/OrderService.java:205-220 | succeeds iff the order exists and is cancellable, and then it is CANCELLED; otherwise OrderNotFound or IllegalStateException, with no change |
| `OrderService.WrappersAgreeWithUpdate` | src/main/java/com/telekom/orderPlacement/service/OrderService.java:185-242 | confirming is exactly the general update to CONFIRMED; cancelling leaves the same store and succeeds in the same cases as the update to CANCELLED |
| `OrderService.StatusChangesFollowEdges` | src/main/java/com/telekom/orderPlacement/service/OrderService.java:229-263 | a status change through the service follows an allowed edge; a terminal order never changes; no request for PENDING succeeds |
| `OrderService.UpdateOrderStatusPreservesValid` | src/main/java/com/telekom/orderPlacement/service/OrderService.java:229-242 | a status update keeps the order store's three maps consistent |
| `OrderService.ConfirmOrderPreservesValid` | src/main/java/com/telekom/orderPlacement/service/OrderService.java:185-197 | confirming keeps the order store consistent |
| `OrderService.CancelOrderPreservesValid` | src/main/java/com/telekom/orderPlacement/service/OrderService.java:205-220 | cancelling keeps the order store consistent |
| `OrderService.PlaceOrderFirstTime` | src/main/java/com/telekom/orderPlacement/service/OrderService.java:88-135 | a first placement stores exactly the PENDING order built from the cart, indexes its key, empties the cart (one version step) and bumps the counter; it reports a new order unless the counter is a multiple of 5, in which case it throws after all of that |
| `OrderService.PlaceOrderFaultInjection` | src/main/java/com/telekom/orderPlacement/service/OrderService.java:126-133 | in a valid store a placement throws NullPointerException iff it is a first placement whose new count is a multiple of 5; only first placements change state |
| `OrderService.PlaceOrderKeepsOrdersValid` | src/main/java/com/telekom/orderPlacement/service/OrderService.java:76-112 | placement with a fresh order id keeps the order store consistent: one order per key, exact user index |
| `OrderService.PlaceOrderKeepsCartsValid` | src/main/java/com/telekom/orderPlacement/service/OrderService.java:114-120 | placement keeps the cart store valid; a first placement's only cart change is saving the cleared placed cart, which makes it its user's current cart again, with every other cart unchanged; any other placement leaves the carts alone |
| `OrderService.PlaceTwiceSameOrder` | src/main/java/com/telekom/orderPlacement/service/OrderService.java:80-86 | a second placement with the same key, from any cart, returns the order the first stored (same order id), flagged existing, and changes nothing, even if the first call threw its simulated failure |
| `Scenario.TwoAddsOfOneSku` | src/main/java/com/telekom/orderPlacement/service/CartService.java:109-129 | two service adds of SKU A (2 and 1 units at 10.00) give two lines, 3 units, total 30.00 |
| `Scenario.PlaceWalkthrough` | src/main/java/com/telekom/orderPlacement/service/OrderService.java:76-136 | continuing the two-adds run, placing its 30.00 cart gives a PENDING 33.00 order with two lines and an empty cart; placing again with the key from another cart returns it unchanged |
| `Scenario.LifecycleWalkthrough` | src/main/java/com/telekom/orderPlacement/service/OrderService.java:185-220 | a PENDING order can be confirmed then cancelled, and a cancelled order cannot be confirmed |

## Left out

- Thread interleavings. Each `ConcurrentHashMap` or `AtomicLong` call is one atomic
  step. The "another thread won" branch of placement (OrderService.java:107-112) is
  modelled, and in sequential execution it is never taken.
- Logging, MDC and correlation ids, the HTTP controllers, the exception-to-status
  mapping, the response DTOs, the scheduler, and configuration. They only shape or
  drive calls into the core.
- Bean-validation annotations on the request records. The core's own checks (the
  builders, the cart) are modelled, so invalid input takes the error path.
- `requireNonNull` checks on ids, user, key and status in `Order.Builder.build`. Strings
  are never null in the model. The cart-item builder's SKU and name are the exception:
  they are `Option`s, so their null checks are modelled.
- UUID generation and `Instant.now()`. Both are caller-supplied parameters. One `now`
  serves all clock reads of one call.
- `Carts.AddItem`: quantities are unbounded integers, so the Java `int` wrap-around of a
  merged quantity is not modelled. Likewise the `long` version and order counter never
  overflow.
- `Carts.ItemCount`: the sum of quantities is unbounded. Java sums them with a wrapping
  `int` stream sum, and request quantities are bounded only from below.
- `Orders.ItemCount`: the same wrapping `int` sum of line quantities is not modelled.
- `CartRepository.UpdatePreservesValid`: holds only for updaters that never return null.
  A null result leaves a dangling user-index entry, stated in
  `CartRepository.NullUpdateLeavesDanglingIndex`.
- `Orders.FromCart`: the order of the lines follows the map's unspecified iteration
  order. Properties are stated as sums and as the set of line ids.
- `OrderRepository.FindByUserId`: returns a set of orders instead of a list, since the
  list order comes from hash-map iteration.
- `OrderRepository.FindByStatus`: returns a set for the same reason.
- `Carts.Snapshot`: carts are values, so a snapshot and its original can never alias.
  The Java copy constructor's map copy has nothing to model.
- `BigDecimal` scale (`10.0` vs `10.00`) is not modelled. Amounts are compared by value.
- Not modelled: `CartRepository.existsById`, `findAll` and `count`;
  `OrderRepository.existsById`, `findAll` and `count`; `CartService.getCartByUserId`;
  `OrderService.getOrdersByUserId` and `getOrdersByStatus`. Each is a direct
  pass-through to a map or to a modelled finder.
- Event publishing and durability beyond process memory. They are not part of the code.
