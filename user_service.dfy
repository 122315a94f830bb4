/** `UserServiceImpl.register`: reject a taken email, store the user with the
    encoded password and the USER role, then give the user an empty cart. The
    password encoder is the parameter `encode`, about which nothing is assumed. */
module UserService {
  import opened Wrappers
  import opened Domain
  import opened Store
  import ShoppingCartService

  /** The registration request, as the client sends it. */
  datatype RegistrationRequest = RegistrationRequest(
    email: string,
    password: string,
    repeatPassword: string,
    firstName: string,
    lastName: string,
    shippingAddress: Option<string>)

  /** The response: the stored user without the password. */
  datatype UserResponse = UserResponse(
    id: int,
    email: string,
    firstName: string,
    lastName: string,
    shippingAddress: Option<string>)

  function ToResponse(user: User): UserResponse {
    UserResponse(user.id, user.email, user.firstName, user.lastName, user.shippingAddress)
  }

  method Register(db: Database, request: RegistrationRequest, encode: string -> string)
    returns (r: Result<UserResponse, Error>)
    requires db.Valid()
    modifies db
    ensures db.Valid()
    ensures EmailRegistered(old(db.users), request.email) ==>
      r == Err(EmailTaken(request.email)) && unchanged(db)
    ensures !EmailRegistered(old(db.users), request.email) && RoleUser !in old(db.roles) ==>
      r == Err(UserRoleNotFound) && unchanged(db)
    ensures !EmailRegistered(old(db.users), request.email) && RoleUser in old(db.roles) ==>
      var id := old(db.nextUserId);
      var user := User(id, request.email, encode(request.password), request.firstName, request.lastName,
                       request.shippingAddress, {old(db.roles)[RoleUser]});
      && id !in old(db.users) && id !in old(db.carts)
      && db.users == old(db.users)[id := user]
      && db.carts == old(db.carts)[id := ShoppingCart(id, [])]
      && r == Ok(ToResponse(user))
      && db.nextUserId == id + 1
      && unchanged(db`books, db`roles, db`orders, db`nextCartItemId, db`itemOwner)
    ensures r.Ok? ==> EmailRegistered(db.users, request.email)
  {
    if EmailRegistered(db.users, request.email) {
      return Err(EmailTaken(request.email));
    }
    var user := User(0, request.email, request.password, request.firstName, request.lastName,
                     request.shippingAddress, {});
    user := user.(password := encode(user.password));
    if RoleUser !in db.roles {
      return Err(UserRoleNotFound);
    }
    var userRole := db.roles[RoleUser];
    user := user.(roles := {userRole});
    user := user.(id := db.nextUserId);
    db.users := db.users[user.id := user];
    db.nextUserId := db.nextUserId + 1;
    var created := ShoppingCartService.CreateShoppingCartForUser(db, user);
    assert created.Ok?;
    r := Ok(ToResponse(user));
  }

  /** Registering an email that has just been registered fails, and the second
      attempt creates nothing. */
  method RegisterTwice(db: Database, request: RegistrationRequest, encode: string -> string)
    returns (first: Result<UserResponse, Error>, second: Result<UserResponse, Error>)
    requires db.Valid()
    modifies db
    ensures first.Ok? ==> second == Err(EmailTaken(request.email))
  {
    first := Register(db, request, encode);
    second := Register(db, request, encode);
  }
}
