/** The second, unmounted copy of the authentication and cart router. Registration and
    cart removal decide exactly as the mounted router does; login ignores the provider tag,
    `/user` creates an account only when none exists, add-to-cart validates nothing, and a
    quantity below 1 removes the line instead of being refused. */
module AuthMiddleware {
  import opened Base
  import opened Strings
  import opened UserModel
  import opened Cart
  import opened Store
  import AuthRoutes

  // ------------------------------------------------------------------ register

  /** POST /register follows the mounted router's decision table (only the messages differ). */
  method HandleRegister(db: Db, b: AuthRoutes.RegisterBody, salt: nat) returns (reply: Reply<User>)
    requires db.Valid()
    modifies db`users, db`nextId
    ensures db.Valid()
    ensures UserStep(reply, db.users) == AuthRoutes.Register(old(db.users), b, old(db.nextId), salt)
    ensures db.nextId == if reply.Done? then old(db.nextId) + 1 else old(db.nextId)
  {
    var name, email, password := b.name, b.email, b.password;
    if !Truthy(name) || !Truthy(email) || !Truthy(password) {
      return Err(BadRequest);
    }
    var key := ToLower(email.value);
    if key in db.users {
      return Err(BadRequest);
    }
    var newUser := User(db.nextId, name.value, key, Some(HashPassword(password.value, salt)), CREDENTIALS, "", []);
    InsertUserKeepsWellFormed(db.users, db.nextId, key, newUser);
    var id := db.FreshId();
    db.SetUsers(db.users[key := newUser]);
    reply := Done(Created, newUser);
  }

  // ------------------------------------------------------------------ login

  /** POST /login: like the mounted router, but any account with a hash may log in,
      whatever its provider; an account without one gets 401. */
  function Login(users: map<string, User>, b: AuthRoutes.LoginBody): (r: Reply<User>)
    ensures !(Truthy(b.email) && Truthy(b.password)) ==> r == Err(BadRequest)
    ensures (Truthy(b.email) && Truthy(b.password) && ToLower(b.email.value) in users &&
             users[ToLower(b.email.value)].password.None?) ==> r == Err(Unauthorized)
    ensures r.Done? <==> && Truthy(b.email) && Truthy(b.password)
                         && ToLower(b.email.value) in users
                         && users[ToLower(b.email.value)].password.Some?
                         && PasswordMatches(b.password.value, users[ToLower(b.email.value)].password.value)
    ensures r.Done? ==> r.status == OK && r.data == users[ToLower(b.email.value)]
    ensures Truthy(b.email) && Truthy(b.password) && !r.Done? ==> r == Err(Unauthorized)
  {
    if !(Truthy(b.email) && Truthy(b.password)) then Err(BadRequest)
    else
      var key := ToLower(b.email.value);
      if key !in users then Err(Unauthorized)
      else if users[key].password.None? then Err(Unauthorized)
      else if !PasswordMatches(b.password.value, users[key].password.value) then Err(Unauthorized)
      else Done(OK, users[key])
  }

  // ------------------------------------------------------------------ create if absent

  datatype UserBody = UserBody(email: Option<string>, name: Option<string>, image: Option<string>,
                               provider: Option<string>)

  /** POST /user: return the account stored under the lower-cased email, or create one
      whose provider defaults to 'google'. */
  function EnsureUser(users: map<string, User>, b: UserBody, freshId: ObjectId): (r: UserStep<User>)
    ensures !Truthy(b.email) ==> r == UserStep(Err(BadRequest), users)
    ensures r.reply.Done? <==> Truthy(b.email)
    ensures Truthy(b.email) && ToLower(b.email.value) in users
            ==> r == UserStep(Done(OK, users[ToLower(b.email.value)]), users)
    ensures Truthy(b.email) && ToLower(b.email.value) !in users ==>
              var u := r.reply.data;
              && r.users == users[ToLower(b.email.value) := u]
              && u.email == ToLower(b.email.value) && u.id == freshId
              && u.provider == OrElse(b.provider, UserModel.GOOGLE)
              && u.name == OrElse(b.name, "") && u.image == OrElse(b.image, "")
              && u.password.None? && u.cart == []
  {
    if !Truthy(b.email) then UserStep(Err(BadRequest), users)
    else
      var key := ToLower(b.email.value);
      if key in users then UserStep(Done(OK, users[key]), users)
      else
        var u := User(freshId, OrElse(b.name, ""), key, None, OrElse(b.provider, UserModel.GOOGLE), OrElse(b.image, ""), []);
        UserStep(Done(OK, u), users[key := u])
  }

  method HandleEnsureUser(db: Db, b: UserBody) returns (reply: Reply<User>)
    requires db.Valid()
    modifies db`users, db`nextId
    ensures db.Valid()
    ensures UserStep(reply, db.users) == EnsureUser(old(db.users), b, old(db.nextId))
    ensures db.nextId == if Truthy(b.email) && ToLower(b.email.value) !in old(db.users)
                         then old(db.nextId) + 1 else old(db.nextId)
  {
    if !Truthy(b.email) {
      return Err(BadRequest);
    }
    var key := ToLower(b.email.value);
    if key !in db.users {
      var user := User(db.nextId, OrElse(b.name, ""), key, None, OrElse(b.provider, UserModel.GOOGLE), OrElse(b.image, ""), []);
      InsertUserKeepsWellFormed(db.users, db.nextId, key, user);
      var id := db.FreshId();
      db.SetUsers(db.users[key := user]);
    }
    reply := Done(OK, db.users[key]);
  }

  /** Asking twice for the same account creates it at most once. */
  lemma EnsureUserIdempotent(users: map<string, User>, b: UserBody, id1: ObjectId, id2: ObjectId)
    ensures var once := EnsureUser(users, b, id1);
            EnsureUser(once.users, b, id2) == UserStep(once.reply, once.users)
  {
  }

  // ------------------------------------------------------------------ cart

  /** The add-to-cart body as this router reads it: only the email can make it fail
      (`toLowerCase` of a missing email throws). */
  datatype LooseAddBody = LooseAddBody(email: Option<string>, productId: ObjectId, quantity: int,
                                       size: string, color: string)

  /** POST /cart: 500 without an email, 404 for an unknown user, otherwise the same
      merge-or-append as the mounted router, for any quantity. */
  function AddToCart(users: map<string, User>, b: LooseAddBody, freshId: ObjectId): (r: UserStep<seq<CartLine>>)
    ensures b.email.None? ==> r == UserStep(Err(ServerError), users)
    ensures b.email.Some? && ToLower(b.email.value) !in users ==> r == UserStep(Err(NotFound), users)
    ensures r.reply.Done? <==> b.email.Some? && ToLower(b.email.value) in users
    ensures r.reply.Done? ==>
              var key := ToLower(b.email.value);
              && r.reply.status == OK
              && r.reply.data == AddLine(users[key].cart, b.productId, b.quantity, b.size, b.color, freshId)
              && r.users == users[key := users[key].(cart := r.reply.data)]
  {
    if b.email.None? then UserStep(Err(ServerError), users)
    else
      var key := ToLower(b.email.value);
      if key !in users then UserStep(Err(NotFound), users)
      else
        var cart := AddLine(users[key].cart, b.productId, b.quantity, b.size, b.color, freshId);
        UserStep(Done(OK, cart), users[key := users[key].(cart := cart)])
  }

  method HandleAddToCart(db: Db, b: LooseAddBody) returns (reply: Reply<seq<CartLine>>)
    requires db.Valid()
    modifies db`users, db`nextId
    ensures db.Valid()
    ensures UserStep(reply, db.users) == AddToCart(old(db.users), b, old(db.nextId))
    ensures db.nextId == if reply.Done? then old(db.nextId) + 1 else old(db.nextId)
  {
    if b.email.None? {
      return Err(ServerError);
    }
    var key := ToLower(b.email.value);
    if key !in db.users {
      return Err(NotFound);
    }
    var user := db.users[key];
    var cart := user.cart;
    AddLineKeepsCartWellFormed(cart, db.nextId, b.productId, b.quantity, b.size, b.color);
    var existing := KeyIndex(cart, b.productId, b.size, b.color);
    var id := db.FreshId();
    if existing > -1 {
      cart := cart[existing := cart[existing].(quantity := cart[existing].quantity + b.quantity)];
    } else {
      cart := cart + [CartLine(id, b.productId, b.quantity, b.size, b.color)];
    }
    db.SetCart(key, cart);
    reply := Done(OK, cart);
  }

  /** PUT /cart/:email/:itemId: 404 for an unknown user or line; a quantity below 1 removes
      the line, any other quantity replaces the line's quantity. */
  function UpdateCart(users: map<string, User>, email: string, itemId: ObjectId, quantity: int): (r: UserStep<seq<CartLine>>)
    ensures ToLower(email) !in users ==> r == UserStep(Err(NotFound), users)
    ensures ToLower(email) in users && LineIndex(users[ToLower(email)].cart, itemId) < 0
            ==> r == UserStep(Err(NotFound), users)
    ensures r.reply.Done? <==> ToLower(email) in users && LineIndex(users[ToLower(email)].cart, itemId) >= 0
    ensures r.reply.Done? ==>
              var key := ToLower(email);
              && r.reply.status == OK
              && r.reply.data == (if quantity < 1 then WithoutLine(users[key].cart, itemId)
                                  else SetQuantity(users[key].cart, itemId, quantity))
              && r.users == users[key := users[key].(cart := r.reply.data)]
  {
    var key := ToLower(email);
    if key !in users then UserStep(Err(NotFound), users)
    else if LineIndex(users[key].cart, itemId) < 0 then UserStep(Err(NotFound), users)
    else
      var cart := if quantity < 1 then WithoutLine(users[key].cart, itemId)
                  else SetQuantity(users[key].cart, itemId, quantity);
      UserStep(Done(OK, cart), users[key := users[key].(cart := cart)])
  }

  method HandleUpdateCart(db: Db, email: string, itemId: ObjectId, quantity: int) returns (reply: Reply<seq<CartLine>>)
    requires db.Valid()
    modifies db`users
    ensures db.Valid()
    ensures UserStep(reply, db.users) == UpdateCart(old(db.users), email, itemId, quantity)
  {
    var key := ToLower(email);
    if key !in db.users {
      return Err(NotFound);
    }
    var user := db.users[key];
    var i := LineIndex(user.cart, itemId);
    if i < 0 {
      return Err(NotFound);
    }
    var cart := user.cart;
    if quantity < 1 {
      cart := WithoutLine(cart, itemId);
      WithoutLineKeepsCartWellFormed(user.cart, db.nextId, itemId);
    } else {
      cart := cart[i := cart[i].(quantity := quantity)];
      SetQuantityKeepsCartWellFormed(user.cart, db.nextId, itemId, quantity);
    }
    db.SetCart(key, cart);
    reply := Done(OK, cart);
  }

  /** A quantity below 1 removes exactly one line of a well-formed cart. */
  lemma UpdateBelowOneShrinksCart(users: map<string, User>, nextId: ObjectId, email: string,
                                  itemId: ObjectId, quantity: int)
    requires UsersWellFormed(users, nextId)
    requires quantity < 1 && UpdateCart(users, email, itemId, quantity).reply.Done?
    ensures |UpdateCart(users, email, itemId, quantity).reply.data| == |users[ToLower(email)].cart| - 1
  {
    WithoutPresentLine(users[ToLower(email)].cart, itemId);
  }

  /** DELETE /cart/:email/:itemId follows the mounted router's filter. */
  method HandleRemoveFromCart(db: Db, email: string, itemId: ObjectId) returns (reply: Reply<seq<CartLine>>)
    requires db.Valid()
    modifies db`users
    ensures db.Valid()
    ensures UserStep(reply, db.users) == AuthRoutes.RemoveFromCart(old(db.users), email, itemId)
  {
    var key := ToLower(email);
    if key !in db.users {
      return Err(NotFound);
    }
    var user := db.users[key];
    user := user.(cart := WithoutLine(user.cart, itemId));
    WithoutLineKeepsCartWellFormed(db.users[key].cart, db.nextId, itemId);
    CartChangeKeepsWellFormed(db.users, db.nextId, key, user.cart);
    db.SetUsers(db.users[key := user]);
    reply := Done(OK, user.cart);
  }
}
