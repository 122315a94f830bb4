/** The relational store as the services see it: one map per repository, keyed by
    id, and the identity counters the database uses for new rows. */
module Store {
  import opened Domain
  import opened CartItems

  class Database {
    /** BookRepository: book id to book. */
    var books: map<int, Book>
    /** UserRepository: user id to user. */
    var users: map<int, User>
    /** RoleRepository: lookup by role name. */
    var roles: map<RoleName, Role>
    /** ShoppingCartRepository: a cart is keyed by its owner's user id. */
    var carts: map<int, ShoppingCart>
    /** OrderRepository: an order is keyed by its owner's user id. */
    var orders: map<int, Order>
    /** The id the database gives the next user row. */
    var nextUserId: int
    /** The id the database gives the next cart-item row. */
    var nextCartItemId: int
    /** Which cart each cart-item id was handed out to; it makes item ids unique
        across all carts, as the cart-item table's primary key does. */
    ghost var itemOwner: map<int, int>

    ghost predicate Valid()
      reads this
    {
      && BooksKeyed(books)
      && UsersKeyed(users, nextUserId)
      && UniqueEmails(users)
      && CartsKeyed(carts, users)
      && CartsValid(carts, nextCartItemId, itemOwner)
      && OrdersKeyed(orders)
    }

    constructor (books: map<int, Book>, roles: map<RoleName, Role>)
      requires BooksKeyed(books)
      ensures Valid()
      ensures this.books == books && this.roles == roles
      ensures users == map[] && carts == map[] && orders == map[]
    {
      this.books := books;
      this.roles := roles;
      users, carts, orders := map[], map[], map[];
      nextUserId, nextCartItemId := 1, 1;
      itemOwner := map[];
    }
  }

  /** Every row is stored under its own id. */
  ghost predicate BooksKeyed(books: map<int, Book>) {
    forall b :: b in books ==> books[b].id == b
  }

  /** Users are stored under their ids, all handed out before `next`. */
  ghost predicate UsersKeyed(users: map<int, User>, next: int) {
    forall u :: u in users ==> users[u].id == u && u < next
  }

  /** A cart has its owner's id, and the owner is a stored user. */
  ghost predicate CartsKeyed(carts: map<int, ShoppingCart>, users: map<int, User>) {
    forall u :: u in carts ==> carts[u].id == u && u in users
  }

  /** An order has its owner's id. */
  ghost predicate OrdersKeyed(orders: map<int, Order>) {
    forall u :: u in orders ==> orders[u].id == u
  }

  /** Every cart's lines are well formed and were handed out to that cart. */
  ghost predicate CartsValid(carts: map<int, ShoppingCart>, next: int, owners: map<int, int>) {
    forall u :: u in carts ==> WellFormed(carts[u].cartItems, next) && OwnedBy(carts[u].cartItems, u, owners)
  }

  /** Storing one cart keeps the others valid, as long as the ids handed out
      before keep their owners. */
  lemma ReplaceCart(carts: map<int, ShoppingCart>, next: int, owners: map<int, int>,
                    owner: int, cart: ShoppingCart, next': int, owners': map<int, int>)
    requires CartsValid(carts, next, owners)
    requires next' == next || (next' == next + 1 && owners' == owners[next := owner])
    requires next' == next ==> owners' == owners
    requires WellFormed(cart.cartItems, next') && OwnedBy(cart.cartItems, owner, owners')
    ensures CartsValid(carts[owner := cart], next', owners')
  {
    forall u | u in carts && u != owner
      ensures WellFormed(carts[u].cartItems, next') && OwnedBy(carts[u].cartItems, u, owners')
    {
      if next' != next {
        OwnedByFresh(carts[u].cartItems, next, u, owners, owner);
      }
    }
  }

  /** No two users share an email. */
  ghost predicate UniqueEmails(users: map<int, User>) {
    forall u, v :: u in users && v in users && users[u].email == users[v].email ==> u == v
  }

  /** `UserRepository.existsByEmail`. */
  predicate EmailRegistered(users: map<int, User>, email: string) {
    exists u :: u in users && users[u].email == email
  }
}
