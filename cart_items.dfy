/** What the shopping-cart service does to the lines of one cart, as functions on
    the sequence of lines, and what those functions keep true. */
module CartItems {
  import opened Wrappers
  import opened Domain

  /** The filter of `save`: the line is for the given book. */
  function OfBook(bookId: int): CartItem -> bool {
    (item: CartItem) => item.bookId == bookId
  }

  /** The filter of the scoped item lookup: the line has the given id. */
  function WithId(cartItemId: int): CartItem -> bool {
    (item: CartItem) => item.id == cartItemId
  }

  /** A cart holds at most one line per book. */
  ghost predicate OneLinePerBook(items: seq<CartItem>) {
    forall i, j :: 0 <= i < |items| && 0 <= j < |items| && items[i].bookId == items[j].bookId ==> i == j
  }

  ghost predicate DistinctIds(items: seq<CartItem>) {
    forall i, j :: 0 <= i < |items| && 0 <= j < |items| && items[i].id == items[j].id ==> i == j
  }

  /** Every line id was handed out before `next`. */
  ghost predicate IdsBelow(items: seq<CartItem>, next: int) {
    forall k :: 0 <= k < |items| ==> items[k].id < next
  }

  ghost predicate WellFormed(items: seq<CartItem>, next: int) {
    OneLinePerBook(items) && DistinctIds(items) && IdsBelow(items, next)
  }

  /** Every line's id was handed out to `owner`'s cart. */
  ghost predicate OwnedBy(items: seq<CartItem>, owner: int, owners: map<int, int>) {
    forall x :: x in items ==> x.id in owners && owners[x.id] == owner
  }

  ghost predicate AllPositive(items: seq<CartItem>) {
    forall k :: 0 <= k < |items| ==> items[k].quantity > 0
  }

  /** The lines after `save` adds `quantity` copies of a book: the first line for the
      book has its quantity raised, or else a new line with the id the database
      hands out next is appended. */
  function AddToCart(items: seq<CartItem>, bookId: int, quantity: int, freshId: int): seq<CartItem> {
    match FirstIndex(items, OfBook(bookId))
    case Some(i) => items[i := items[i].(quantity := items[i].quantity + quantity)]
    case None => items + [CartItem(freshId, bookId, quantity)]
  }

  /** The lines after `update` sets the quantity of the line with the given id, or
      None when this cart has no such line. */
  function OverwriteQuantity(items: seq<CartItem>, cartItemId: int, quantity: int): Option<seq<CartItem>> {
    match FirstIndex(items, WithId(cartItemId))
    case Some(i) => Some(items[i := items[i].(quantity := quantity)])
    case None => None
  }

  /** The lines that remain once the line with the given id is deleted. */
  function WithoutItem(items: seq<CartItem>, cartItemId: int): (r: seq<CartItem>)
    ensures |r| <= |items|
    ensures forall x :: x in r <==> x in items && x.id != cartItemId
  {
    if items == [] then []
    else if items[0].id == cartItemId then WithoutItem(items[1..], cartItemId)
    else [items[0]] + WithoutItem(items[1..], cartItemId)
  }

  /** How many copies of a book the lines hold in all. */
  function QuantityOf(items: seq<CartItem>, bookId: int): int {
    if items == [] then 0
    else (if items[0].bookId == bookId then items[0].quantity else 0) + QuantityOf(items[1..], bookId)
  }

  // ---- save: merge or append ----

  /** A book that already has a line: the first such line's quantity goes up by
      `quantity`, it keeps its id and book, and nothing else changes. (In a cart
      with one line per book, the first line for the book is its only one.) */
  lemma AddToCartExisting(items: seq<CartItem>, bookId: int, quantity: int, freshId: int, i: nat)
    requires i < |items| && items[i].bookId == bookId
    requires forall k :: 0 <= k < i ==> items[k].bookId != bookId
    ensures var r := AddToCart(items, bookId, quantity, freshId);
      && |r| == |items|
      && r[i] == CartItem(items[i].id, bookId, items[i].quantity + quantity)
      && forall k :: 0 <= k < |items| && k != i ==> r[k] == items[k]
  {
    var found := FirstIndex(items, OfBook(bookId));
    assert OfBook(bookId)(items[i]);
    assert found.Some?;
    assert OfBook(bookId)(items[found.value]);
  }

  /** A book without a line: exactly one new line, with that book and quantity, is
      appended. */
  lemma AddToCartNew(items: seq<CartItem>, bookId: int, quantity: int, freshId: int)
    requires forall k :: 0 <= k < |items| ==> items[k].bookId != bookId
    ensures AddToCart(items, bookId, quantity, freshId) == items + [CartItem(freshId, bookId, quantity)]
  {
    assert forall k :: 0 <= k < |items| ==> !OfBook(bookId)(items[k]);
  }

  /** Either way, the lines of other books keep their book and quantity, and the
      cart grows by at most one line. */
  lemma AddToCartOtherLines(items: seq<CartItem>, bookId: int, quantity: int, freshId: int)
    ensures var r := AddToCart(items, bookId, quantity, freshId);
      && |items| <= |r| <= |items| + 1
      && forall k :: 0 <= k < |items| && items[k].bookId != bookId ==> r[k] == items[k]
  {
    match FirstIndex(items, OfBook(bookId))
    case Some(i) => assert OfBook(bookId)(items[i]);
    case None =>
  }

  /** The line count grows exactly when the book had no line. */
  lemma AddToCartLength(items: seq<CartItem>, bookId: int, quantity: int, freshId: int)
    ensures |AddToCart(items, bookId, quantity, freshId)| ==
      if exists k :: 0 <= k < |items| && items[k].bookId == bookId then |items| else |items| + 1
  {
    match FirstIndex(items, OfBook(bookId))
    case Some(i) => assert OfBook(bookId)(items[i]);
    case None =>
      assert forall k :: 0 <= k < |items| ==> !OfBook(bookId)(items[k]);
  }

  /** `save` keeps the cart's invariants; the id counter moves only when a line is
      appended. */
  lemma AddToCartWellFormed(items: seq<CartItem>, bookId: int, quantity: int, next: int)
    requires WellFormed(items, next)
    ensures WellFormed(AddToCart(items, bookId, quantity, next),
                       if FirstIndex(items, OfBook(bookId)).Some? then next else next + 1)
  {
    match FirstIndex(items, OfBook(bookId))
    case Some(i) =>
      assert OfBook(bookId)(items[i]);
    case None =>
      var r := items + [CartItem(next, bookId, quantity)];
      assert forall k :: 0 <= k < |items| ==> !OfBook(bookId)(items[k]);
      assert forall k :: 0 <= k < |items| ==> r[k] == items[k];
  }

  /** An appended line's id is recorded as handed out to this cart; a merge hands
      out nothing. */
  lemma AddToCartOwned(items: seq<CartItem>, bookId: int, quantity: int, next: int, owner: int, owners: map<int, int>)
    requires OwnedBy(items, owner, owners)
    ensures OwnedBy(AddToCart(items, bookId, quantity, next), owner,
                    if FirstIndex(items, OfBook(bookId)).Some? then owners else owners[next := owner])
  {
    var r := AddToCart(items, bookId, quantity, next);
    forall x | x in r ensures x.id in owners[next := owner] && owners[next := owner][x.id] == owner {
      var k :| 0 <= k < |r| && r[k] == x;
      match FirstIndex(items, OfBook(bookId))
      case Some(i) =>
        assert x.id == items[k].id && items[k] in items;
      case None =>
        if k < |items| {
          assert x == items[k];
          assert x.id in owners && owners[x.id] == owner;
        }
    }
  }

  /** Handing out a fresh id does not change who owns the ids handed out before. */
  lemma OwnedByFresh(items: seq<CartItem>, next: int, owner: int, owners: map<int, int>, newOwner: int)
    requires IdsBelow(items, next) && OwnedBy(items, owner, owners)
    ensures IdsBelow(items, next + 1) && OwnedBy(items, owner, owners[next := newOwner])
  {
    forall x | x in items ensures x.id != next {
      var k :| 0 <= k < |items| && items[k] == x;
    }
  }

  /** With positive quantities everywhere and a positive request, quantities stay
      positive. */
  lemma AddToCartPositive(items: seq<CartItem>, bookId: int, quantity: int, freshId: int)
    requires AllPositive(items) && quantity > 0
    ensures AllPositive(AddToCart(items, bookId, quantity, freshId))
  {
    match FirstIndex(items, OfBook(bookId))
    case Some(i) =>
    case None =>
      var r := items + [CartItem(freshId, bookId, quantity)];
      assert forall k :: 0 <= k < |items| ==> r[k] == items[k];
  }

  lemma {:induction false} QuantityOfAppend(items: seq<CartItem>, item: CartItem, bookId: int)
    ensures QuantityOf(items + [item], bookId) ==
      QuantityOf(items, bookId) + (if item.bookId == bookId then item.quantity else 0)
  {
    if items != [] {
      assert (items + [item])[1..] == items[1..] + [item];
      QuantityOfAppend(items[1..], item, bookId);
    }
  }

  lemma {:induction false} QuantityOfUpdate(items: seq<CartItem>, i: nat, delta: int, bookId: int)
    requires i < |items|
    ensures QuantityOf(items[i := items[i].(quantity := items[i].quantity + delta)], bookId) ==
      QuantityOf(items, bookId) + (if items[i].bookId == bookId then delta else 0)
  {
    var r := items[i := items[i].(quantity := items[i].quantity + delta)];
    if i == 0 {
      assert r[1..] == items[1..];
    } else {
      assert r[1..] == items[1..][i - 1 := items[i].(quantity := items[i].quantity + delta)];
      QuantityOfUpdate(items[1..], i - 1, delta, bookId);
    }
  }

  /** The merge property in numbers: adding `quantity` copies of a book raises the
      cart's count of that book by `quantity` and leaves every other book's count
      alone. */
  lemma AddToCartQuantity(items: seq<CartItem>, bookId: int, quantity: int, freshId: int, other: int)
    ensures QuantityOf(AddToCart(items, bookId, quantity, freshId), bookId) == QuantityOf(items, bookId) + quantity
    ensures other != bookId ==>
      QuantityOf(AddToCart(items, bookId, quantity, freshId), other) == QuantityOf(items, other)
  {
    match FirstIndex(items, OfBook(bookId))
    case Some(i) =>
      assert OfBook(bookId)(items[i]);
      QuantityOfUpdate(items, i, quantity, bookId);
      QuantityOfUpdate(items, i, quantity, other);
    case None =>
      QuantityOfAppend(items, CartItem(freshId, bookId, quantity), bookId);
      QuantityOfAppend(items, CartItem(freshId, bookId, quantity), other);
  }

  /** Two successive adds of the same book to a cart without it (2 and then 3
      copies of book 5, say) leave exactly one line for it, holding the sum. */
  lemma AddTwiceMerges(items: seq<CartItem>, bookId: int, q1: int, q2: int, id1: int, id2: int)
    requires forall k :: 0 <= k < |items| ==> items[k].bookId != bookId
    ensures var r := AddToCart(AddToCart(items, bookId, q1, id1), bookId, q2, id2);
      && r == items + [CartItem(id1, bookId, q1 + q2)]
      && forall k :: 0 <= k < |r| && r[k].bookId == bookId ==> k == |items|
  {
    AddToCartNew(items, bookId, q1, id1);
    var once := items + [CartItem(id1, bookId, q1)];
    assert once[|items|].bookId == bookId;
    assert forall k :: 0 <= k < |items| ==> once[k] == items[k];
    AddToCartExisting(once, bookId, q2, id2, |items|);
  }

  // ---- update: scoped overwrite ----

  /** `update` finds a line exactly when this cart has one with that id. */
  lemma OverwriteQuantityFound(items: seq<CartItem>, cartItemId: int, quantity: int)
    ensures OverwriteQuantity(items, cartItemId, quantity).Some? <==>
      exists k :: 0 <= k < |items| && items[k].id == cartItemId
  {
    match FirstIndex(items, WithId(cartItemId))
    case Some(i) =>
    case None =>
      assert forall k :: 0 <= k < |items| ==> !WithId(cartItemId)(items[k]);
  }

  /** The line with that id gets exactly the new quantity (it is not added to),
      keeps its id and book, and every other line is untouched. */
  lemma OverwriteQuantityReplaces(items: seq<CartItem>, cartItemId: int, quantity: int, i: nat)
    requires DistinctIds(items)
    requires i < |items| && items[i].id == cartItemId
    ensures var r := OverwriteQuantity(items, cartItemId, quantity);
      && r.Some?
      && |r.value| == |items|
      && r.value[i] == CartItem(cartItemId, items[i].bookId, quantity)
      && forall k :: 0 <= k < |items| && k != i ==> r.value[k] == items[k]
  {
    assert WithId(cartItemId)(items[i]);
    var found := FirstIndex(items, WithId(cartItemId));
    assert WithId(cartItemId)(items[found.value]);
  }

  /** `update` keeps the cart's invariants. */
  lemma OverwriteQuantityWellFormed(items: seq<CartItem>, cartItemId: int, quantity: int, next: int,
                                    owner: int, owners: map<int, int>)
    requires WellFormed(items, next) && OwnedBy(items, owner, owners)
    requires OverwriteQuantity(items, cartItemId, quantity).Some?
    ensures WellFormed(OverwriteQuantity(items, cartItemId, quantity).value, next)
    ensures OwnedBy(OverwriteQuantity(items, cartItemId, quantity).value, owner, owners)
  {
    var i := FirstIndex(items, WithId(cartItemId)).value;
    var r := items[i := items[i].(quantity := quantity)];
    forall x | x in r ensures x.id in owners && owners[x.id] == owner {
      var k :| 0 <= k < |r| && r[k] == x;
      assert x.id == items[k].id && items[k] in items;
    }
  }

  // ---- deleteById ----

  /** Deleting an id that the cart does not hold changes nothing. */
  lemma {:induction false} WithoutAbsentItem(items: seq<CartItem>, cartItemId: int)
    requires forall k :: 0 <= k < |items| ==> items[k].id != cartItemId
    ensures WithoutItem(items, cartItemId) == items
  {
    if items != [] {
      WithoutAbsentItem(items[1..], cartItemId);
    }
  }

  /** Deleting drops exactly the one line with that id and keeps the rest in order. */
  lemma {:induction false} WithoutPresentItem(items: seq<CartItem>, cartItemId: int, i: nat)
    requires DistinctIds(items)
    requires i < |items| && items[i].id == cartItemId
    ensures WithoutItem(items, cartItemId) == items[..i] + items[i + 1..]
  {
    if i == 0 {
      WithoutAbsentItem(items[1..], cartItemId);
      assert items[..0] + items[1..] == items[1..];
    } else {
      assert DistinctIds(items[1..]);
      WithoutPresentItem(items[1..], cartItemId, i - 1);
      SkipAfterFirst(items, i);
    }
  }

  /** Skipping position `i > 0` of a sequence is keeping its head and skipping
      position `i - 1` of its tail. */
  lemma SkipAfterFirst(items: seq<CartItem>, i: nat)
    requires 0 < i < |items|
    ensures items[..i] + items[i + 1..] == [items[0]] + (items[1..][..i - 1] + items[1..][i..])
  {
    assert items[1..][..i - 1] == items[1..i];
    assert items[1..][i..] == items[i + 1..];
  }

  /** Deleting a line keeps a cart well formed and owned as it was. */
  lemma WithoutItemKeepsCart(items: seq<CartItem>, cartItemId: int, next: int, owner: int, owners: map<int, int>)
    requires WellFormed(items, next) && OwnedBy(items, owner, owners)
    ensures WellFormed(WithoutItem(items, cartItemId), next) && OwnedBy(WithoutItem(items, cartItemId), owner, owners)
  {
    WithoutItemWellFormed(items, cartItemId, next);
  }

  /** Deleting keeps the cart's invariants. */
  lemma {:induction false} WithoutItemWellFormed(items: seq<CartItem>, cartItemId: int, next: int)
    requires WellFormed(items, next)
    ensures WellFormed(WithoutItem(items, cartItemId), next)
  {
    if items != [] {
      var rest := items[1..];
      assert WellFormed(rest, next);
      WithoutItemWellFormed(rest, cartItemId, next);
      var tail := WithoutItem(rest, cartItemId);
      if items[0].id != cartItemId {
        var r := [items[0]] + tail;
        assert items[0] !in rest;
        forall k | 1 <= k < |r|
          ensures r[k].bookId != items[0].bookId && r[k].id != items[0].id
        {
          assert r[k] in tail;
          var j :| 0 <= j < |rest| && rest[j] == r[k];
          assert items[j + 1] == r[k];
        }
      }
    }
  }
}
