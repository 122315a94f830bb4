# Bookstore services: a verified Dafny model

This project models the part of the Spring Boot bookstore `book-repo` that holds
real logic. It covers four pieces:

- **The shopping cart** (`ShoppingCartServiceImpl`). Adding a book merges into
  the book's line or appends a new line. An update overwrites one line's
  quantity, scoped to the user's own cart. A delete removes a line by id. An
  empty cart is made at registration.
- **Checkout** (`OrderServiceImpl`). It finds the user's order or creates one.
  Every cart line is copied into an order line at the book's current price, and
  the old lines are replaced. The total is the sum of price times quantity. A
  status update, the scoped lookup of one order line and the fresh-order
  constructor sit next to it.
- **Book search** (`BookSpecificationBuilder` and the author and cover-image
  providers). Each non-empty parameter array is turned into a membership test
  on one field of `Book`. The builder ANDs these onto a base that restricts
  nothing, looking each provider up in a registry by key.
- **Registration** (`UserServiceImpl.register`). A duplicate email is rejected.
  Otherwise the user is stored with the encoded password and the USER role, and
  one empty cart is made for the user.

The modules follow the program's layers:

- `Wrappers`: `Option`, `Result`, and `FirstIndex`, the first-match search that
  the Java code writes as `stream().filter(p).findFirst()`.
- `Domain`: the entities as datatypes, and the exceptions with their messages.
- `CartItems` and `Orders`: what the services compute, stated as functions on
  values, together with lemmas about those functions.
- `Store`: the database. It is a class whose fields are the repositories, one
  map per table, plus the id counters. Its `Valid()` invariant says:
  - every row is stored under its own id;
  - emails are unique;
  - a cart holds at most one line per book;
  - cart-item ids are unique across all carts.
- `ShoppingCartService`, `OrderService`, `UserService`: the service methods. Each
  state-changing one modifies the database, is proved against the functions
  above, keeps `Valid()`, and states which repositories it does not touch;
  `GetShoppingCart` only reads, and `FindSpecificOrderItem` is a function of its
  lookup.
- `SpecificationProviders` and `BookSpecificationBuilder`: specifications as book
  predicates, the two providers, the registry lookup, and `build` as its six
  guarded steps.

The services read the current user from `AuthenticationService`; here the
current user is a parameter (`userId`). `LocalDateTime.now()` is a parameter
(`now`), and so is the password encoder (`encode`), about which nothing is
assumed. Money is a whole number of cents, so sums and products are exact, as
they are for `BigDecimal`.

The registry class `BookSpecificationProviderManager` is not part of this
model. Its behaviour is taken from its test: it returns the provider whose key
matches, and for an unknown key it throws `RuntimeException` with the message
"No specification provider found for key: k". It is modelled as a list of
providers searched for the first match. `build` returns the registry's error
instead of throwing. It also returns the keys it looked up, in order, which is
what the builder's tests check through their mocks.

`deleteById` on an id that no cart holds changes nothing. The cart-item
repository is a Spring Data `JpaRepository` (the `jakarta` packages place it in
Spring Boot 3), whose `deleteById` ignores a missing row. A failure there would
come from the collaborator, so the model follows this code.

## Model

| member | source | states |
|---|---|---|
| Wrappers.FirstIndex | src/main/java/bookrepo/service/impl/ShoppingCartServiceImpl.java:56-58 | the index found is the first element passing the filter; nothing is found exactly when no element passes |
| ShoppingCartService.GetShoppingCart | src/main/java/bookrepo/service/impl/ShoppingCartServiceImpl.java:33-40 | succeeds exactly when the user has a cart and returns that cart; otherwise EntityNotFound "Shopping cart not found for user id: <id>" |
| ShoppingCartService.Save | src/main/java/bookrepo/service/impl/ShoppingCartServiceImpl.java:43-73 | no cart, or an unknown book: EntityNotFound with the source's message and the database unchanged; otherwise the user's cart becomes the merge-or-append of the book, the item-id counter moves only when a line is appended, only the carts change, and the store invariant (one line per book, unique item ids) is kept |
| ShoppingCartService.Update | src/main/java/bookrepo/service/impl/ShoppingCartServiceImpl.java:76-90 | no cart: cart not found; an id not in the user's own cart: EntityNotFound "Cart item not found for id: <id>" and nothing changes; otherwise only that cart changes, to the quantity overwrite, and the invariant is kept |
| ShoppingCartService.DeleteById | src/main/java/bookrepo/service/impl/ShoppingCartServiceImpl.java:93-95 | the line with that id is removed from whichever cart holds it, with no ownership check; every other line, repository and counter stays, and the invariant is kept |
| ShoppingCartService.CreateShoppingCartForUser | src/main/java/bookrepo/service/impl/ShoppingCartServiceImpl.java:98-102 | a user without a cart gets an empty cart under the user's id; a user who has one already makes the insert fail with a duplicate key and nothing changes; no other repository changes |
| CartItems.AddToCart | src/main/java/bookrepo/service/impl/ShoppingCartServiceImpl.java:56-69 | the lines after `save`: the first line for the book has its quantity raised, else a new line with the fresh id is appended; what this means is stated by `AddToCartExisting`, `AddToCartNew`, `AddToCartOtherLines`, `AddToCartLength` and `AddToCartQuantity` |
| CartItems.OverwriteQuantity | src/main/java/bookrepo/service/impl/ShoppingCartServiceImpl.java:82-85 | the lines after `update`, or none when this cart holds no line with the id; its meaning is stated by `OverwriteQuantityFound` and `OverwriteQuantityReplaces` |
| CartItems.AddToCartExisting | src/main/java/bookrepo/service/impl/ShoppingCartServiceImpl.java:56-62 | a book with a line: that line's quantity rises by the requested amount and keeps its id and book; the line count and every other line are unchanged |
| CartItems.AddToCartNew | src/main/java/bookrepo/service/impl/ShoppingCartServiceImpl.java:63-69 | a book without a line: exactly one line with the fresh id, the book and the requested quantity is appended |
| CartItems.AddToCartOtherLines | src/main/java/bookrepo/service/impl/ShoppingCartServiceImpl.java:56-69 | lines of other books keep their book and quantity, and the cart grows by at most one line |
| CartItems.AddToCartLength | src/main/java/bookrepo/service/impl/ShoppingCartServiceImpl.java:56-69 | the line count grows by one exactly when the cart had no line for the book |
| CartItems.AddToCartWellFormed | src/main/java/bookrepo/service/impl/ShoppingCartServiceImpl.java:56-69 | merge-or-append keeps one line per book, distinct line ids, and all ids below the counter, which moves only on append |
| CartItems.AddToCartOwned | src/main/java/bookrepo/service/impl/ShoppingCartServiceImpl.java:64-68 | an appended line belongs to the cart it was added to (`setShoppingCart(cart)`); a merge hands out no id |
| CartItems.AddToCartPositive | src/main/java/bookrepo/service/impl/ShoppingCartServiceImpl.java:60-69 | with positive quantities and a positive request (the request's `@Positive`), every quantity stays positive |
| CartItems.AddToCartQuantity | src/main/java/bookrepo/service/impl/ShoppingCartServiceImpl.java:56-69 | the cart's count of the book rises by exactly the requested amount and every other book's count is unchanged |
| CartItems.AddTwiceMerges | src/main/java/bookrepo/service/impl/ShoppingCartServiceImpl.java:56-69 | adding the same new book twice leaves exactly one line for it, holding the sum of the two quantities |
| CartItems.OverwriteQuantityFound | src/main/java/bookrepo/service/impl/ShoppingCartServiceImpl.java:82-83 | the scoped lookup finds a line exactly when this cart holds one with that id |
| CartItems.OverwriteQuantityReplaces | src/main/java/bookrepo/service/impl/ShoppingCartServiceImpl.java:82-85 | the line gets exactly the new quantity (not a sum) and keeps its id and book; every other line is untouched |
| CartItems.OverwriteQuantityWellFormed | src/main/java/bookrepo/service/impl/ShoppingCartServiceImpl.java:82-87 | the overwrite keeps one line per book, distinct ids and the lines' owner |
| CartItems.WithoutItem | src/main/java/bookrepo/service/impl/ShoppingCartServiceImpl.java:93-95 | a line remains exactly when it was there and does not have the deleted id |
| CartItems.WithoutAbsentItem | src/main/java/bookrepo/service/impl/ShoppingCartServiceImpl.java:93-95 | deleting an id the cart does not hold leaves the cart as it was |
| CartItems.WithoutPresentItem | src/main/java/bookrepo/service/impl/ShoppingCartServiceImpl.java:93-95 | deleting a held id removes exactly that one line and keeps the others in order |
| CartItems.WithoutItemWellFormed | src/main/java/bookrepo/service/impl/ShoppingCartServiceImpl.java:93-95 | deletion keeps one line per book, distinct ids and ids below the counter |
| CartItems.WithoutItemKeepsCart | src/main/java/bookrepo/service/impl/ShoppingCartServiceImpl.java:93-95 | deletion also keeps every remaining line owned by the same cart |
| Store.ReplaceCart | src/main/java/bookrepo/service/impl/ShoppingCartServiceImpl.java:71 | storing one well-formed cart keeps every other cart valid, even when a fresh item id was handed out |
| OrderService.Save | src/main/java/bookrepo/service/impl/OrderServiceImpl.java:51-87 | no cart: cart not found, nothing changes; otherwise the result is the checkout of the existing order (or a fresh one) against the cart at today's prices; on error nothing changes, on success only the user's order is written; the cart and every other repository are untouched |
| OrderService.Update | src/main/java/bookrepo/service/impl/OrderServiceImpl.java:90-102 | no order: EntityNotFound "Order not found for user id: <id>"; a name that is not a status constant: IllegalArgument, nothing changes; otherwise only the status changes |
| OrderService.FindSpecificOrderItem | src/main/java/bookrepo/service/impl/OrderServiceImpl.java:112-118 | succeeds exactly when the scoped lookup (order id, item id, user id) returns a row, and returns that row; otherwise EntityNotFound "Order item not found" |
| OrderService.CreateOrder | src/main/java/bookrepo/service/impl/OrderServiceImpl.java:125-136 | for a user without an order, the saved and returned order is PENDING, has the given address and time, no lines and total 0; a user who has an order already makes the insert fail with a duplicate key and nothing changes; no other repository changes |
| Orders.Total | src/main/java/bookrepo/service/impl/OrderServiceImpl.java:80-82 | the reduce of price times quantity from zero; its properties are `TotalAppend`, `TotalPermutation`, `TotalNonNegative` and `SnapshotTotal` |
| Orders.Checkout | src/main/java/bookrepo/service/impl/OrderServiceImpl.java:54-83 | the order `save` writes; its meaning is stated by `CheckoutFails`, `CheckoutReusesOrder`, `CheckoutCreatesOrder`, `CheckoutSnapshotsCart`, `CheckoutReplacesItems` and `CheckoutTotal` |
| Orders.PendingOrder | src/main/java/bookrepo/service/impl/OrderServiceImpl.java:56-61 | the order made when the user has none; `PendingOrderIsEmpty` states its fields |
| Orders.ParseStatus | src/main/java/bookrepo/service/impl/OrderServiceImpl.java:98 | `Status.valueOf`; `ParseStatusAccepts` and `ParseStatusName` state which names it accepts and that it inverts `StatusName` |
| Orders.StatusName | src/main/java/bookrepo/model/Order.java:45-49 | `Status.name()`; `ParseStatusName` states that `valueOf` gives back the status |
| Orders.Snapshot | src/main/java/bookrepo/service/impl/OrderServiceImpl.java:64-75 | succeeds exactly when every cart line's book exists; line k then has line k's book and quantity and the book's current price; otherwise the error names a missing book |
| Orders.SnapshotLinesDistinct | src/main/java/bookrepo/service/impl/OrderServiceImpl.java:75 | with one cart line per book the order lines differ pairwise, so collecting them into a set keeps them all |
| Orders.TotalAppend | src/main/java/bookrepo/service/impl/OrderServiceImpl.java:80-82 | the total of two runs of lines is the sum of their totals |
| Orders.TotalPermutation | src/main/java/bookrepo/service/impl/OrderServiceImpl.java:75-82 | the total does not depend on the order of the lines, which a hash set leaves unspecified |
| Orders.TotalNonNegative | src/main/java/bookrepo/service/impl/OrderServiceImpl.java:80-82 | non-negative prices and quantities give a non-negative total |
| Orders.SnapshotTotal | src/main/java/bookrepo/service/impl/OrderServiceImpl.java:64-82 | the total of the snapshot is the cart's value at the prices looked up |
| Orders.CheckoutFails | src/main/java/bookrepo/service/impl/OrderServiceImpl.java:66-68 | checkout fails exactly when some cart line's book is missing |
| Orders.CheckoutReusesOrder | src/main/java/bookrepo/service/impl/OrderServiceImpl.java:54-62 | an existing order keeps its id, status, date and shipping address, whatever address the request gives |
| Orders.CheckoutCreatesOrder | src/main/java/bookrepo/service/impl/OrderServiceImpl.java:55-61 | without an order, a PENDING one with the request's address and the given time is created for the user |
| Orders.CheckoutSnapshotsCart | src/main/java/bookrepo/service/impl/OrderServiceImpl.java:64-78 | the new lines match the cart lines one to one in book and quantity, at the book's current price |
| Orders.CheckoutReplacesItems | src/main/java/bookrepo/service/impl/OrderServiceImpl.java:77-78 | the new lines do not depend on the lines the order held before |
| Orders.CheckoutTotal | src/main/java/bookrepo/service/impl/OrderServiceImpl.java:80-83 | the total is the sum of price times quantity over the new lines, equals the cart's value, and is 0 with no lines for an empty cart |
| Orders.PendingOrderIsEmpty | src/main/java/bookrepo/service/impl/OrderServiceImpl.java:126-133 | a fresh order is PENDING with the given address and time, no lines and total 0 |
| Orders.ParseStatusAccepts | src/main/java/bookrepo/model/Order.java:45-49 | `valueOf` accepts exactly PENDING, COMPLETED and CANCELLED, and returns the constant with that name |
| Orders.ParseStatusName | src/main/java/bookrepo/model/Order.java:45-49 | `valueOf(s.name())` is `s` for every status |
| SpecificationProviders.StreamToArray | src/main/java/bookrepo/repository/book/spec/CoverImageSpecificationProvider.java:19 | copying the values through a stream gives back the same values in the same order |
| SpecificationProviders.GetSpecificationProvider | src/test/java/bookrepo/repository/BookSpecificationProviderManagerTest.java:26-86 | succeeds exactly when some provider has the key, and returns the first such provider; otherwise fails with "No specification provider found for key: <key>" |
| SpecificationProviders.RegistryLookups | src/test/java/bookrepo/repository/BookSpecificationProviderManagerTest.java:26-86 | the registry's test cases: a registered key is found, the right one of several is returned, and an unknown key or an empty registry fails with the message naming the key |
| SpecificationProviders.ProviderKeys | src/main/java/bookrepo/repository/book/spec/AuthorSpecificationProvider.java:10-15 | the author provider's key is "author" and the cover-image provider's key is "coverImage" |
| SpecificationProviders.AuthorSpecification | src/main/java/bookrepo/repository/book/spec/AuthorSpecificationProvider.java:18-21 | author IN params; its meaning is stated by `AuthorMatches`, `AuthorIsExact` and `AuthorDependsOnSet` |
| SpecificationProviders.CoverImageSpecification | src/main/java/bookrepo/repository/book/spec/CoverImageSpecificationProvider.java:17-20 | coverImage IN a stream copy of params; its meaning is stated by `CoverImageMatches` and `CoverImageDependsOnSet` |
| SpecificationProviders.AuthorMatches | src/main/java/bookrepo/repository/book/spec/AuthorSpecificationProvider.java:18-21 | a book matches exactly when its author equals one of the values |
| SpecificationProviders.AuthorIsExact | src/main/java/bookrepo/repository/book/spec/AuthorSpecificationProvider.java:20 | an example of exact matching: for a book by "Joshua Bloch", the values "Joshua" and "joshua bloch" do not match and "Joshua Bloch" does (the general fact is `AuthorMatches`) |
| SpecificationProviders.AuthorDependsOnSet | src/main/java/bookrepo/repository/book/spec/AuthorSpecificationProvider.java:19-20 | values with the same members select the same books, whatever their order or repetition |
| SpecificationProviders.CoverImageMatches | src/main/java/bookrepo/repository/book/spec/CoverImageSpecificationProvider.java:17-20 | a book matches exactly when it has a cover image equal to one of the values; a book without one never matches |
| SpecificationProviders.CoverImageDependsOnSet | src/main/java/bookrepo/repository/book/spec/CoverImageSpecificationProvider.java:18-19 | values with the same members select the same books |
| BookSpecificationBuilder.ActiveFields | src/main/java/bookrepo/repository/book/BookSpecificationBuilder.java:20-48 | the fields that take part, in the builder's order; `ActiveFieldsAreSupplied` states which they are |
| BookSpecificationBuilder.ComposeOnto | src/main/java/bookrepo/repository/book/BookSpecificationBuilder.java:18-48 | the chain of `spec.and(...)` over the fields; `ComposeOntoMeans` states what it matches |
| BookSpecificationBuilder.Build | src/main/java/bookrepo/repository/book/BookSpecificationBuilder.java:17-51 | succeeds exactly when every supplied field's key is registered; it then looked up exactly the supplied fields' keys, in the builder's order, and the result matches a book exactly when every supplied field's provider matches it; otherwise it stopped at the first unregistered key, which the error names |
| BookSpecificationBuilder.AndField | src/main/java/bookrepo/repository/book/BookSpecificationBuilder.java:20-23 | one guarded step: an absent or empty array changes nothing; a supplied one looks its key up once and ANDs the provider's specification of the caller's array, or fails when the key is not registered |
| BookSpecificationBuilder.ComposeOntoMeans | src/main/java/bookrepo/repository/book/BookSpecificationBuilder.java:18-50 | ANDing field specifications onto a base matches exactly the books the base matches that pass every field |
| BookSpecificationBuilder.ActiveFieldsAreSupplied | src/main/java/bookrepo/repository/book/BookSpecificationBuilder.java:20-48 | a field takes part exactly when its array is non-null and non-empty, under its fixed key (authors to "author" … prices to "price"), with the caller's array unchanged |
| BookSpecificationBuilder.BuildWithoutParameters | src/test/java/bookrepo/repository/BookSpecificationBuilderTest.java:102-115 | with no parameters the registry is not consulted and the result matches every book |
| BookSpecificationBuilder.BuildByAuthors | src/test/java/bookrepo/repository/BookSpecificationBuilderTest.java:33-52 | two authors: only "author" is looked up, and the result is the provider's specification of exactly those two values |
| BookSpecificationBuilder.BuildByAuthorTitleIsbn | src/test/java/bookrepo/repository/BookSpecificationBuilderTest.java:75-100 | author, title and isbn: exactly three lookups, "author", "title", "isbn", and the build succeeds |
| BookSpecificationBuilder.BuildByAuthorsAndCoverImages | src/main/java/bookrepo/repository/book/BookSpecificationBuilder.java:17-51 | with the two providers modelled here, a search by authors and cover images selects exactly the books with one of the authors and one of the cover images |
| BookSpecificationBuilder.BuildByTitlesUnregistered | src/main/java/bookrepo/repository/book/BookSpecificationBuilder.java:25-28 | with no title provider registered, a search by title fails naming "title", after that single lookup |
| UserService.Register | src/main/java/bookrepo/service/impl/UserServiceImpl.java:32-50 | a taken email: RegistrationException "User with this email: <email> already exists" and nothing changes; no USER role: EntityNotFound, nothing saved; otherwise exactly one new user is stored under a fresh id with the encoded password and role set {USER}, exactly one empty cart is made for the user, and the response is the user without the password |
| UserService.RegisterTwice | src/main/java/bookrepo/service/impl/UserServiceImpl.java:34-48 | after a successful registration, registering the same email again fails with the duplicate-email error |

## Left out

- Controllers, the HTTP routes, `@PreAuthorize` role checks and status codes: framework plumbing.
- `AuthenticationService` (JWT and the security context): the current user is a parameter.
- Mappers: the DTOs are projections of the entities. `GetShoppingCart` and the others return the entity, and `Register` returns the user without the password.
- The other order queries (`getAllOrders` with paging, `findByOrderId`, the order `deleteById`): they wrap a repository query and hold no logic. `findByOrderId`'s interface and implementation also disagree on the return type.
- `OrderService.calculateTotal` and `createOrderItem`: only declared in the interface, with no implementation to model.
- The repository query behind `findSpecificOrderItem`: the query is not among the repository's declared queries, so it is an uninterpreted lookup parameter.
- `BookSpecificationProviderManager`: the class is not part of this model. Its behaviour is taken from its test and modelled as a first-match list of providers.
- Title, isbn, description and price providers: not part of this model. `Build` works with any registry.
- JPA criteria: a specification is modelled as the set of books its query selects. SQL collation is not modelled: string comparison is exact, both in the search and in the duplicate-email check (`existsByEmail`), which `Store.EmailRegistered` models as exact equality.
- OrderService.CreateOrder, ShoppingCartService.CreateShoppingCartForUser: the failed insert of a second row under a user's id is the error `DuplicateKey(table, id)`, which leaves the store unchanged. The exception class and message that the JPA provider and the database give are not modelled.
- Transactions and concurrency: each service call is one atomic step, and an error leaves the database unchanged.
- `LocalDateTime.now()`, the password encoder and the database's identity generator: parameters, or counters in the store.
- Entities as values: a loaded cart or order is updated and written back to its map. The aliasing of JPA-managed objects is not modelled.
- The cart's lines are a `HashSet` in the source and a sequence in insertion order here. With one line per book, which the store invariant keeps, the filter in `save` has at most one match, so the order does not decide which line is found.
- OrderItem and cart-item row ids of the order lines: order lines are compared by value. The hash set's unspecified order is covered by `Orders.TotalPermutation`.
- Bean validation on the DTOs, for example `@Positive` quantity: not enforced by the services, so it is no precondition here. `CartItems.AddToCartPositive` states what it gives.
- The width of `int` quantities and `Long` ids: unbounded integers. The sum `quantity + requested` can overflow a Java `int`, which is not modelled.
- UserService.Register: the stored password is `encode(password)`. With the encoder uninterpreted, the model does not state that this differs from the raw password.
- The ADMIN role and category handling: outside the services modelled.
