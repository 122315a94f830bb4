/** The persisted entities of the bookstore and the exceptions its services raise.

    Ids are the database's `Long` keys, as unbounded integers. Money is an exact
    decimal in the source; here it is a whole number of cents, so adding and
    multiplying are exact as they are for `BigDecimal`. */
module Domain {
  import opened Wrappers

  /** An opaque reading of the clock (`LocalDateTime.now()`), supplied by the caller. */
  type Timestamp = int

  /** `Book`: description and cover image may be null in the table. */
  datatype Book = Book(
    id: int,
    title: string,
    author: string,
    isbn: string,
    price: int,
    description: Option<string>,
    coverImage: Option<string>)

  /** One line of a shopping cart: a book and how many copies. */
  datatype CartItem = CartItem(id: int, bookId: int, quantity: int)

  /** A shopping cart; its id is its owner's user id. */
  datatype ShoppingCart = ShoppingCart(id: int, cartItems: seq<CartItem>)

  datatype OrderStatus = Pending | Completed | Cancelled

  /** One line of an order: the book, the quantity, and the book's price when the
      order was placed. */
  datatype OrderItem = OrderItem(bookId: int, quantity: int, price: int)

  /** An order; its id is its owner's user id, so a user has at most one. */
  datatype Order = Order(
    id: int,
    status: OrderStatus,
    total: int,
    orderDate: Timestamp,
    shippingAddress: string,
    orderItems: seq<OrderItem>)

  datatype RoleName = RoleUser | RoleAdmin

  datatype Role = Role(id: int, name: RoleName)

  datatype User = User(
    id: int,
    email: string,
    password: string,
    firstName: string,
    lastName: string,
    shippingAddress: Option<string>,
    roles: set<Role>)

  /** The exception a service throws: its class and its message. */
  datatype Error =
    | EntityNotFound(message: string)
    | RegistrationFailed(message: string)
    | IllegalArgument(message: string)
    | NoProvider(message: string)
    /** The persistence failure of inserting a second row under an id the table
        already holds; its class and text come from the JPA provider. */
    | DuplicateKey(table: string, id: int)

  /** `Long.toString`: optional minus sign, then decimal digits without leading zeros. */
  function LongToString(n: int): (s: string)
    ensures |s| > 0
    ensures s[0] == '-' <==> n < 0
  {
    if n < 0 then "-" + Digits(-n) else Digits(n)
  }

  function Digits(n: nat): (s: string)
    ensures |s| > 0 && '0' <= s[0] <= '9'
    ensures forall k :: 0 <= k < |s| ==> '0' <= s[k] <= '9'
    decreases n
  {
    if n < 10 then [DigitChar(n)] else Digits(n / 10) + [DigitChar(n % 10)]
  }

  function DigitChar(d: nat): (c: char)
    requires d < 10
    ensures '0' <= c <= '9'
  {
    "0123456789"[d]
  }

  function CartNotFound(userId: int): Error {
    EntityNotFound("Shopping cart not found for user id: " + LongToString(userId))
  }

  function CartBookNotFound(bookId: int): Error {
    EntityNotFound("Book: " + LongToString(bookId) + " not found")
  }

  function CartItemNotFound(cartItemId: int): Error {
    EntityNotFound("Cart item not found for id: " + LongToString(cartItemId))
  }

  function OrderBookNotFound(bookId: int): Error {
    EntityNotFound("Book not found with id: " + LongToString(bookId))
  }

  function OrderNotFound(userId: int): Error {
    EntityNotFound("Order not found for user id: " + LongToString(userId))
  }

  const OrderItemNotFound: Error := EntityNotFound("Order item not found")

  const UserRoleNotFound: Error := EntityNotFound("Role 'USER' not found")

  function EmailTaken(email: string): Error {
    RegistrationFailed("User with this email: " + email + " already exists")
  }

  /** What `Order.Status.valueOf(name)` throws for a name that is not a constant. */
  function NoStatusConstant(name: string): Error {
    IllegalArgument("No enum constant bookrepo.model.Order.Status." + name)
  }

  function NoProviderForKey(key: string): Error {
    NoProvider("No specification provider found for key: " + key)
  }
}
