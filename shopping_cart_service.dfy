/** `ShoppingCartServiceImpl`: the current user's cart, adding a book to it,
    overwriting a line's quantity, deleting a line, and the empty cart made at
    registration. The current user is passed in as `userId`. */
module ShoppingCartService {
  import opened Wrappers
  import opened Domain
  import opened CartItems
  import opened Store

  /** `getShoppingCart`: the cart stored for the user, or EntityNotFound. */
  method GetShoppingCart(db: Database, userId: int) returns (r: Result<ShoppingCart, Error>)
    ensures r.Ok? <==> userId in db.carts
    ensures r.Ok? ==> r.value == db.carts[userId]
    ensures r.Err? ==> r.error == CartNotFound(userId)
  {
    if userId in db.carts {
      r := Ok(db.carts[userId]);
    } else {
      r := Err(CartNotFound(userId));
    }
  }

  /** `save`: add `quantity` copies of a book to the user's cart, merging with the
      book's line if it has one. */
  method Save(db: Database, userId: int, bookId: int, quantity: int) returns (r: Result<ShoppingCart, Error>)
    requires db.Valid()
    modifies db
    ensures db.Valid()
    ensures userId !in old(db.carts) ==> r == Err(CartNotFound(userId)) && unchanged(db)
    ensures userId in old(db.carts) && bookId !in old(db.books) ==>
      r == Err(CartBookNotFound(bookId)) && unchanged(db)
    ensures userId in old(db.carts) && bookId in old(db.books) ==>
      var before := old(db.carts[userId].cartItems);
      && r == Ok(ShoppingCart(userId, AddToCart(before, bookId, quantity, old(db.nextCartItemId))))
      && db.carts == old(db.carts)[userId := r.value]
      && db.nextCartItemId == old(db.nextCartItemId) + (if FirstIndex(before, OfBook(bookId)).Some? then 0 else 1)
      && unchanged(db`books, db`users, db`roles, db`orders, db`nextUserId)
  {
    if userId !in db.carts {
      return Err(CartNotFound(userId));
    }
    var cart := db.carts[userId];
    if bookId !in db.books {
      return Err(CartBookNotFound(bookId));
    }
    var book := db.books[bookId];
    AddToCartWellFormed(cart.cartItems, book.id, quantity, db.nextCartItemId);
    AddToCartOwned(cart.cartItems, book.id, quantity, db.nextCartItemId, userId, db.itemOwner);
    ghost var next, owners := db.nextCartItemId, db.itemOwner;
    var existing := FirstIndex(cart.cartItems, OfBook(book.id));
    ghost var after := AddToCart(cart.cartItems, bookId, quantity, next);
    match existing {
      case Some(i) =>
        var item := cart.cartItems[i];
        cart := cart.(cartItems := cart.cartItems[i := item.(quantity := item.quantity + quantity)]);
      case None =>
        var newItem := CartItem(db.nextCartItemId, book.id, quantity);
        db.nextCartItemId := db.nextCartItemId + 1;
        db.itemOwner := db.itemOwner[newItem.id := userId];
        cart := cart.(cartItems := cart.cartItems + [newItem]);
    }
    assert cart.cartItems == after;
    ReplaceCart(db.carts, next, owners, userId, cart, db.nextCartItemId, db.itemOwner);
    db.carts := db.carts[userId := cart];
    r := Ok(cart);
  }

  /** `update`: overwrite the quantity of a line of the user's cart; a line of
      anybody else's cart is not found. */
  method Update(db: Database, userId: int, cartItemId: int, quantity: int) returns (r: Result<ShoppingCart, Error>)
    requires db.Valid()
    modifies db
    ensures db.Valid()
    ensures userId !in old(db.carts) ==> r == Err(CartNotFound(userId)) && unchanged(db)
    ensures userId in old(db.carts) ==>
      var updated := OverwriteQuantity(old(db.carts[userId].cartItems), cartItemId, quantity);
      && (updated.None? ==> r == Err(CartItemNotFound(cartItemId)) && unchanged(db))
      && (updated.Some? ==>
            && r == Ok(ShoppingCart(userId, updated.value))
            && db.carts == old(db.carts)[userId := r.value]
            && unchanged(db`books, db`users, db`roles, db`orders, db`nextUserId, db`nextCartItemId, db`itemOwner))
  {
    if userId !in db.carts {
      return Err(CartNotFound(userId));
    }
    var cart := db.carts[userId];
    var found := FirstIndex(cart.cartItems, WithId(cartItemId));
    if found.None? {
      return Err(CartItemNotFound(cartItemId));
    }
    var i := found.value;
    OverwriteQuantityWellFormed(cart.cartItems, cartItemId, quantity, db.nextCartItemId, userId, db.itemOwner);
    cart := cart.(cartItems := cart.cartItems[i := cart.cartItems[i].(quantity := quantity)]);
    ReplaceCart(db.carts, db.nextCartItemId, db.itemOwner, userId, cart, db.nextCartItemId, db.itemOwner);
    db.carts := db.carts[userId := cart];
    r := Ok(cart);
  }

  /** `deleteById`: the line with that id goes, whichever cart holds it; the
      current user is not consulted. An id that no cart holds changes nothing. */
  method DeleteById(db: Database, cartItemId: int)
    requires db.Valid()
    modifies db
    ensures db.Valid()
    ensures db.carts == map u | u in old(db.carts) ::
      old(db.carts)[u].(cartItems := WithoutItem(old(db.carts)[u].cartItems, cartItemId))
    ensures unchanged(db`books, db`users, db`roles, db`orders, db`nextUserId, db`nextCartItemId, db`itemOwner)
  {
    forall u | u in db.carts {
      WithoutItemKeepsCart(db.carts[u].cartItems, cartItemId, db.nextCartItemId, u, db.itemOwner);
    }
    db.carts := map u | u in db.carts :: db.carts[u].(cartItems := WithoutItem(db.carts[u].cartItems, cartItemId));
  }

  /** `createShoppingCartForUser`: insert an empty cart for a user already saved.
      The cart takes its owner's id (`@MapsId`), so a user who has a cart already
      makes the insert fail, and nothing is written. */
  method CreateShoppingCartForUser(db: Database, user: User) returns (r: Result<(), Error>)
    requires db.Valid() && user.id in db.users
    modifies db
    ensures db.Valid()
    ensures user.id in old(db.carts) ==> r == Err(DuplicateKey("shopping_carts", user.id)) && unchanged(db)
    ensures user.id !in old(db.carts) ==>
      r == Ok(()) && db.carts == old(db.carts)[user.id := ShoppingCart(user.id, [])]
    ensures unchanged(db`books, db`users, db`roles, db`orders, db`nextUserId, db`nextCartItemId, db`itemOwner)
  {
    if user.id in db.carts {
      return Err(DuplicateKey("shopping_carts", user.id));
    }
    ReplaceCart(db.carts, db.nextCartItemId, db.itemOwner, user.id, ShoppingCart(user.id, []),
                db.nextCartItemId, db.itemOwner);
    db.carts := db.carts[user.id := ShoppingCart(user.id, [])];
    r := Ok(());
  }
}
