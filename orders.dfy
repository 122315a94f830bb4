/** The pure part of `OrderServiceImpl`: turning cart lines into order lines at the
    books' current prices, the order total, the status names, and the order that
    checkout produces. */
module Orders {
  import opened Wrappers
  import opened Domain

  /** The price of one order line: price times quantity, exactly. */
  function Subtotal(item: OrderItem): int {
    item.price * item.quantity
  }

  /** The order total: the sum of the line subtotals, zero for no lines. */
  function Total(items: seq<OrderItem>): int {
    if items == [] then 0 else Subtotal(items[0]) + Total(items[1..])
  }

  /** The stream that maps every cart line to an order line, looking each book up
      and failing with EntityNotFound on the first book that is gone. */
  function Snapshot(books: map<int, Book>, cartItems: seq<CartItem>): (r: Result<seq<OrderItem>, Error>)
    ensures r.Ok? <==> forall k :: 0 <= k < |cartItems| ==> cartItems[k].bookId in books
    ensures r.Ok? ==> |r.value| == |cartItems|
    ensures r.Ok? ==> forall k :: 0 <= k < |cartItems| ==>
      r.value[k] == OrderItem(cartItems[k].bookId, cartItems[k].quantity, books[cartItems[k].bookId].price)
    ensures r.Err? ==>
      exists k :: 0 <= k < |cartItems| && cartItems[k].bookId !in books && r.error == OrderBookNotFound(cartItems[k].bookId)
  {
    if cartItems == [] then Ok([])
    else
      var line := cartItems[0];
      if line.bookId !in books then Err(OrderBookNotFound(line.bookId))
      else match Snapshot(books, cartItems[1..])
        case Err(e) => Err(e)
        case Ok(rest) => Ok([OrderItem(line.bookId, line.quantity, books[line.bookId].price)] + rest)
  }

  /** The value of a cart at today's prices: an independent statement of what the
      total of a checkout must be. */
  function CartValue(books: map<int, Book>, cartItems: seq<CartItem>): int
    requires forall k :: 0 <= k < |cartItems| ==> cartItems[k].bookId in books
  {
    if cartItems == [] then 0
    else books[cartItems[0].bookId].price * cartItems[0].quantity + CartValue(books, cartItems[1..])
  }

  /** `Order.Status.valueOf`. */
  function ParseStatus(name: string): Option<OrderStatus> {
    if name == "PENDING" then Some(Pending)
    else if name == "COMPLETED" then Some(Completed)
    else if name == "CANCELLED" then Some(Cancelled)
    else None
  }

  /** `Order.Status.name()`. */
  function StatusName(status: OrderStatus): string {
    match status
    case Pending => "PENDING"
    case Completed => "COMPLETED"
    case Cancelled => "CANCELLED"
  }

  /** A fresh order: PENDING, the requested address, the given time, no lines and
      the total of no lines. */
  function PendingOrder(userId: int, shippingAddress: string, now: Timestamp): Order {
    Order(userId, Pending, Total([]), now, shippingAddress, [])
  }

  /** What `save` makes of the user's order (absent or present) and cart: the
      existing order, or else a fresh one, with its lines replaced by the
      snapshot of the cart and the total recomputed. */
  function Checkout(existing: Option<Order>, userId: int, shippingAddress: string, now: Timestamp,
                    books: map<int, Book>, cartItems: seq<CartItem>): Result<Order, Error>
  {
    var order := if existing.Some? then existing.value else PendingOrder(userId, shippingAddress, now);
    match Snapshot(books, cartItems)
    case Err(e) => Err(e)
    case Ok(items) => Ok(order.(orderItems := items, total := Total(items)))
  }

  // ---- totals ----

  lemma {:induction false} TotalAppend(a: seq<OrderItem>, b: seq<OrderItem>)
    ensures Total(a + b) == Total(a) + Total(b)
  {
    if a == [] {
      assert a + b == b;
    } else {
      assert (a + b)[0] == a[0];
      assert (a + b)[1..] == a[1..] + b;
      TotalAppend(a[1..], b);
    }
  }

  /** Taking one line out of the sum. */
  lemma TotalRemove(b: seq<OrderItem>, j: nat)
    requires j < |b|
    ensures Total(b) == Subtotal(b[j]) + Total(b[..j] + b[j + 1..])
  {
    var before, after := b[..j], b[j + 1..];
    assert b == before + ([b[j]] + after);
    TotalAppend(before, [b[j]] + after);
    TotalCons(b[j], after);
    TotalAppend(before, after);
  }

  lemma TotalCons(x: OrderItem, s: seq<OrderItem>)
    ensures Total([x] + s) == Subtotal(x) + Total(s)
  {
    assert ([x] + s)[1..] == s;
  }

  lemma RemoveFromMultiset(b: seq<OrderItem>, j: nat)
    requires j < |b|
    ensures multiset(b[..j] + b[j + 1..]) == multiset(b) - multiset{b[j]}
  {
    assert b == b[..j] + [b[j]] + b[j + 1..];
  }

  /** Matching the head of `a` with line `j` of its permutation `b` leaves two
      permutations of each other. */
  lemma PermutationRest(a: seq<OrderItem>, b: seq<OrderItem>, j: nat)
    requires multiset(a) == multiset(b) && a != []
    requires j < |b| && b[j] == a[0]
    ensures multiset(a[1..]) == multiset(b[..j] + b[j + 1..])
  {
    RemoveFromMultiset(b, j);
    assert a == [a[0]] + a[1..];
  }

  lemma PositionOf(b: seq<OrderItem>, x: OrderItem) returns (j: nat)
    requires x in multiset(b)
    ensures j < |b| && b[j] == x
  {
    j :| 0 <= j < |b| && b[j] == x;
  }

  /** The lines are collected into a hash set, whose order is unspecified; the
      total does not depend on the order of the lines. */
  lemma {:induction false} TotalPermutation(a: seq<OrderItem>, b: seq<OrderItem>)
    requires multiset(a) == multiset(b)
    ensures Total(a) == Total(b)
    decreases |a|
  {
    if a == [] {
      assert |b| == |multiset(b)| == 0;
    } else {
      var j := PositionOf(b, a[0]);
      PermutationRest(a, b, j);
      TotalPermutation(a[1..], b[..j] + b[j + 1..]);
      TotalRemove(b, j);
    }
  }

  /** A cart holds one line per book, so the snapshot's lines differ pairwise and
      collecting them into a set drops none of them. */
  lemma SnapshotLinesDistinct(books: map<int, Book>, cartItems: seq<CartItem>)
    requires Snapshot(books, cartItems).Ok?
    requires forall i, j :: 0 <= i < j < |cartItems| ==> cartItems[i].bookId != cartItems[j].bookId
    ensures var lines := Snapshot(books, cartItems).value;
      |multiset(lines)| == |lines| && forall i, j :: 0 <= i < j < |lines| ==> lines[i] != lines[j]
  {
    var lines := Snapshot(books, cartItems).value;
    DistinctLinesMultiset(lines);
  }

  /** A sequence whose elements differ pairwise has as many elements as its
      multiset of elements. */
  lemma {:induction false} DistinctLinesMultiset(lines: seq<OrderItem>)
    requires forall i, j :: 0 <= i < j < |lines| ==> lines[i] != lines[j]
    ensures |multiset(lines)| == |lines|
  {
    if lines != [] {
      DistinctLinesMultiset(lines[1..]);
      assert lines == [lines[0]] + lines[1..];
      assert lines[0] !in lines[1..];
    }
  }

  /** With non-negative prices and quantities the total is non-negative. */
  lemma {:induction false} TotalNonNegative(items: seq<OrderItem>)
    requires forall k :: 0 <= k < |items| ==> items[k].price >= 0 && items[k].quantity >= 0
    ensures Total(items) >= 0
  {
    if items != [] {
      TotalNonNegative(items[1..]);
    }
  }

  /** The total of a snapshot is the value of the cart at the prices looked up. */
  lemma {:induction false} SnapshotTotal(books: map<int, Book>, cartItems: seq<CartItem>)
    requires forall k :: 0 <= k < |cartItems| ==> cartItems[k].bookId in books
    ensures Snapshot(books, cartItems).Ok?
    ensures Total(Snapshot(books, cartItems).value) == CartValue(books, cartItems)
  {
    if cartItems != [] {
      SnapshotTotal(books, cartItems[1..]);
    }
  }

  // ---- status names ----

  /** `valueOf` accepts exactly the three constant names, and gives back the
      constant with that name. */
  lemma ParseStatusAccepts(name: string)
    ensures ParseStatus(name).Some? <==> name == "PENDING" || name == "COMPLETED" || name == "CANCELLED"
    ensures ParseStatus(name).Some? ==> StatusName(ParseStatus(name).value) == name
  {
  }

  /** `valueOf(s.name()) == s`. */
  lemma ParseStatusName(status: OrderStatus)
    ensures ParseStatus(StatusName(status)) == Some(status)
  {
  }

  // ---- checkout ----

  /** Checkout fails exactly when some cart line's book is gone. */
  lemma CheckoutFails(existing: Option<Order>, userId: int, shippingAddress: string, now: Timestamp,
                      books: map<int, Book>, cartItems: seq<CartItem>)
    ensures Checkout(existing, userId, shippingAddress, now, books, cartItems).Err? <==>
      exists k :: 0 <= k < |cartItems| && cartItems[k].bookId !in books
  {
  }

  /** An existing order is reused: its id, status, date and shipping address stay,
      whatever address the request gives. */
  lemma CheckoutReusesOrder(o: Order, userId: int, shippingAddress: string, now: Timestamp,
                            books: map<int, Book>, cartItems: seq<CartItem>)
    requires Checkout(Some(o), userId, shippingAddress, now, books, cartItems).Ok?
    ensures var r := Checkout(Some(o), userId, shippingAddress, now, books, cartItems).value;
      r.id == o.id && r.status == o.status && r.orderDate == o.orderDate && r.shippingAddress == o.shippingAddress
  {
  }

  /** Without an order, a PENDING one with the request's address is made. */
  lemma CheckoutCreatesOrder(userId: int, shippingAddress: string, now: Timestamp,
                             books: map<int, Book>, cartItems: seq<CartItem>)
    requires Checkout(None, userId, shippingAddress, now, books, cartItems).Ok?
    ensures var r := Checkout(None, userId, shippingAddress, now, books, cartItems).value;
      r.id == userId && r.status == Pending && r.orderDate == now && r.shippingAddress == shippingAddress
  {
  }

  /** The new lines match the cart lines one to one: same book, same quantity,
      and the book's price at this moment. */
  lemma CheckoutSnapshotsCart(existing: Option<Order>, userId: int, shippingAddress: string, now: Timestamp,
                              books: map<int, Book>, cartItems: seq<CartItem>)
    requires Checkout(existing, userId, shippingAddress, now, books, cartItems).Ok?
    ensures var r := Checkout(existing, userId, shippingAddress, now, books, cartItems).value;
      && |r.orderItems| == |cartItems|
      && forall k :: 0 <= k < |cartItems| ==>
           && r.orderItems[k].bookId == cartItems[k].bookId
           && r.orderItems[k].quantity == cartItems[k].quantity
           && r.orderItems[k].price == books[cartItems[k].bookId].price
  {
  }

  /** The old lines are replaced, not merged into: the new lines do not depend on
      what the order held before. */
  lemma CheckoutReplacesItems(o1: Order, o2: Order, userId: int, shippingAddress: string, now: Timestamp,
                              books: map<int, Book>, cartItems: seq<CartItem>)
    requires Checkout(Some(o1), userId, shippingAddress, now, books, cartItems).Ok?
    ensures Checkout(Some(o2), userId, shippingAddress, now, books, cartItems).Ok?
    ensures Checkout(Some(o1), userId, shippingAddress, now, books, cartItems).value.orderItems ==
            Checkout(Some(o2), userId, shippingAddress, now, books, cartItems).value.orderItems
  {
  }

  /** The total is the sum of price times quantity over the new lines, which is
      the cart's value at today's prices, and zero for an empty cart. */
  lemma CheckoutTotal(existing: Option<Order>, userId: int, shippingAddress: string, now: Timestamp,
                      books: map<int, Book>, cartItems: seq<CartItem>)
    requires Checkout(existing, userId, shippingAddress, now, books, cartItems).Ok?
    ensures var r := Checkout(existing, userId, shippingAddress, now, books, cartItems).value;
      && r.total == Total(r.orderItems)
      && r.total == CartValue(books, cartItems)
      && (cartItems == [] ==> r.total == 0 && r.orderItems == [])
  {
    SnapshotTotal(books, cartItems);
  }

  /** A fresh order is PENDING, has the given address, no lines and total 0. */
  lemma PendingOrderIsEmpty(userId: int, shippingAddress: string, now: Timestamp)
    ensures var o := PendingOrder(userId, shippingAddress, now);
      && o.id == userId && o.status == Pending && o.shippingAddress == shippingAddress
      && o.orderDate == now && o.orderItems == [] && o.total == 0
  {
  }
}
