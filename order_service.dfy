/** `OrderServiceImpl`: checkout from the cart, the status update, the scoped
    order-item lookup and the fresh-order constructor. The current user is passed
    in as `userId`, the clock reading as `now`. */
module OrderService {
  import opened Wrappers
  import opened Domain
  import opened Orders
  import opened Store
  import ShoppingCartService

  /** `save`: find or create the user's order, replace its lines by a snapshot of
      the cart at today's prices, and recompute the total. */
  method Save(db: Database, userId: int, shippingAddress: string, now: Timestamp) returns (r: Result<Order, Error>)
    requires db.Valid()
    modifies db
    ensures db.Valid()
    ensures userId !in old(db.carts) ==> r == Err(CartNotFound(userId)) && unchanged(db)
    ensures userId in old(db.carts) ==>
      && r == Checkout(if userId in old(db.orders) then Some(old(db.orders[userId])) else None,
                       userId, shippingAddress, now, old(db.books), old(db.carts[userId].cartItems))
      && (r.Err? ==> unchanged(db))
      && (r.Ok? ==> db.orders == old(db.orders)[userId := r.value])
    ensures unchanged(db`books, db`users, db`roles, db`carts, db`nextUserId, db`nextCartItemId, db`itemOwner)
  {
    var order: Order;
    if userId in db.orders {
      order := db.orders[userId];
    } else {
      order := PendingOrder(userId, shippingAddress, now);
    }
    var cart := ShoppingCartService.GetShoppingCart(db, userId);
    if cart.Err? {
      return Err(cart.error);
    }
    var items := Snapshot(db.books, cart.value.cartItems);
    if items.Err? {
      return Err(items.error);
    }
    order := order.(orderItems := items.value);
    order := order.(total := Total(order.orderItems));
    db.orders := db.orders[userId := order];
    r := Ok(order);
  }

  /** `update`: set the status of the user's order from its name. */
  method Update(db: Database, userId: int, status: string) returns (r: Result<Order, Error>)
    requires db.Valid()
    modifies db
    ensures db.Valid()
    ensures userId !in old(db.orders) ==> r == Err(OrderNotFound(userId)) && unchanged(db)
    ensures userId in old(db.orders) && ParseStatus(status).None? ==>
      r == Err(NoStatusConstant(status)) && unchanged(db)
    ensures userId in old(db.orders) && ParseStatus(status).Some? ==>
      && r == Ok(old(db.orders[userId]).(status := ParseStatus(status).value))
      && db.orders == old(db.orders)[userId := r.value]
    ensures unchanged(db`books, db`users, db`roles, db`carts, db`nextUserId, db`nextCartItemId, db`itemOwner)
  {
    if userId !in db.orders {
      return Err(OrderNotFound(userId));
    }
    var order := db.orders[userId];
    var parsed := ParseStatus(status);
    if parsed.None? {
      return Err(NoStatusConstant(status));
    }
    order := order.(status := parsed.value);
    db.orders := db.orders[userId := order];
    r := Ok(order);
  }

  /** `findSpecificOrderItem`: the repository's scoped query, given as `lookup`
      and called with the arguments in the source's order; no row is not found. */
  function FindSpecificOrderItem(lookup: (int, int, int) -> Option<OrderItem>,
                                 userId: int, orderId: int, itemId: int): (r: Result<OrderItem, Error>)
    ensures r.Ok? <==> lookup(orderId, itemId, userId).Some?
    ensures r.Ok? ==> r.value == lookup(orderId, itemId, userId).value
    ensures r.Err? ==> r.error == OrderItemNotFound
  {
    match lookup(orderId, itemId, userId)
    case Some(item) => Ok(item)
    case None => Err(OrderItemNotFound)
  }

  /** `createOrder`: insert a fresh PENDING order with no lines and total 0 for
      the user. The order takes its owner's id (`@MapsId`), so a user who has an
      order already makes the insert fail, and nothing is written. */
  method CreateOrder(db: Database, user: User, shippingAddress: string, now: Timestamp) returns (r: Result<Order, Error>)
    requires db.Valid()
    modifies db
    ensures db.Valid()
    ensures user.id in old(db.orders) ==> r == Err(DuplicateKey("orders", user.id)) && unchanged(db)
    ensures user.id !in old(db.orders) ==>
      && r.Ok?
      && r.value.id == user.id && r.value.status == Pending && r.value.shippingAddress == shippingAddress
      && r.value.orderDate == now && r.value.orderItems == [] && r.value.total == 0
      && db.orders == old(db.orders)[user.id := r.value]
    ensures unchanged(db`books, db`users, db`roles, db`carts, db`nextUserId, db`nextCartItemId, db`itemOwner)
  {
    var order := PendingOrder(user.id, shippingAddress, now);
    order := order.(total := Total(order.orderItems));
    if user.id in db.orders {
      return Err(DuplicateKey("orders", user.id));
    }
    db.orders := db.orders[user.id := order];
    r := Ok(order);
  }
}
