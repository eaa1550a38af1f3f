/** The mounted authentication and cart router: registration, password login, Google
    sign-in, and the cart handlers with their up-front validation. Every lookup is by the
    lower-cased email. */
module AuthRoutes {
  import opened Base
  import opened Strings
  import opened UserModel
  import opened Cart
  import opened Store

  // ------------------------------------------------------------------ register

  datatype RegisterBody = RegisterBody(name: Option<string>, email: Option<string>, password: Option<string>)

  predicate RegisterFieldsGiven(b: RegisterBody)
  {
    Truthy(b.name) && Truthy(b.email) && Truthy(b.password)
  }

  /** POST /register: refuse a missing field, then a taken lower-cased email; otherwise store
      a credentials user with a hashed password and an empty cart. */
  function Register(users: map<string, User>, b: RegisterBody, freshId: ObjectId, salt: nat): (r: UserStep<User>)
    ensures !RegisterFieldsGiven(b) ==> r == UserStep(Err(BadRequest), users)
    ensures RegisterFieldsGiven(b) && ToLower(b.email.value) in users ==> r == UserStep(Err(BadRequest), users)
    ensures r.reply.Done? <==> RegisterFieldsGiven(b) && ToLower(b.email.value) !in users
    ensures r.reply.Done? ==>
              var u := r.reply.data;
              && r.reply.status == Created
              && r.users == users[u.email := u]
              && u.email == ToLower(b.email.value) && IsLowerCase(u.email)
              && u.id == freshId && u.name == b.name.value
              && u.provider == CREDENTIALS && u.cart == []
              && u.password.Some? && PasswordMatches(b.password.value, u.password.value)
  {
    if !RegisterFieldsGiven(b) then UserStep(Err(BadRequest), users)
    else
      var email := ToLower(b.email.value);
      if email in users then UserStep(Err(BadRequest), users)
      else
        var u := User(freshId, b.name.value, email, Some(HashPassword(b.password.value, salt)), CREDENTIALS, "", []);
        UserStep(Done(Created, u), users[email := u])
  }

  method HandleRegister(db: Db, b: RegisterBody, salt: nat) returns (reply: Reply<User>)
    requires db.Valid()
    modifies db`users, db`nextId
    ensures db.Valid()
    ensures UserStep(reply, db.users) == Register(old(db.users), b, old(db.nextId), salt)
    ensures db.nextId == if reply.Done? then old(db.nextId) + 1 else old(db.nextId)
  {
    if !(Truthy(b.name) && Truthy(b.email) && Truthy(b.password)) {
      return Err(BadRequest);
    }
    var email := ToLower(b.email.value);
    if email in db.users {
      return Err(BadRequest);
    }
    var hashed := HashPassword(b.password.value, salt);
    var user := User(db.nextId, b.name.value, email, Some(hashed), CREDENTIALS, "", []);
    InsertUserKeepsWellFormed(db.users, db.nextId, email, user);
    var id := db.FreshId();
    db.SetUsers(db.users[email := user]);
    reply := Done(Created, user);
  }

  // ------------------------------------------------------------------ login

  datatype LoginBody = LoginBody(email: Option<string>, password: Option<string>)

  /** The account takes a password: it is not a Google account and it has a hash. */
  predicate AcceptsPassword(u: User)
  {
    u.provider != GOOGLE && u.password.Some?
  }

  /** POST /login: 400 for a missing field, 401 for an unknown email, a Google or hash-less
      account, or a wrong password; the store is never changed. */
  function Login(users: map<string, User>, b: LoginBody): (r: Reply<User>)
    ensures !(Truthy(b.email) && Truthy(b.password)) ==> r == Err(BadRequest)
    ensures r.Done? <==> && Truthy(b.email) && Truthy(b.password)
                         && ToLower(b.email.value) in users
                         && AcceptsPassword(users[ToLower(b.email.value)])
                         && PasswordMatches(b.password.value, users[ToLower(b.email.value)].password.value)
    ensures r.Done? ==> r.status == OK && r.data == users[ToLower(b.email.value)]
    ensures Truthy(b.email) && Truthy(b.password) && !r.Done? ==> r == Err(Unauthorized)
  {
    if !(Truthy(b.email) && Truthy(b.password)) then Err(BadRequest)
    else
      var email := ToLower(b.email.value);
      if email !in users then Err(Unauthorized)
      else
        var u := users[email];
        if u.provider == GOOGLE || u.password.None? then Err(Unauthorized)
        else if !PasswordMatches(b.password.value, u.password.value) then Err(Unauthorized)
        else Done(OK, u)
  }

  // ------------------------------------------------------------------ Google sign-in

  datatype GoogleBody = GoogleBody(email: Option<string>, name: Option<string>, image: Option<string>)

  /** The user a first Google sign-in creates: the name before '@' when none is given. */
  function NewGoogleUser(b: GoogleBody, freshId: ObjectId): (u: User)
    requires Truthy(b.email)
    ensures u.email == ToLower(b.email.value) && u.id == freshId
    ensures u.name == OrElse(b.name, BeforeFirst(b.email.value, '@')) && '@' !in BeforeFirst(b.email.value, '@')
    ensures u.image == OrElse(b.image, "")
    ensures u.provider == GOOGLE && u.password.None? && u.cart == []
  {
    User(freshId, OrElse(b.name, BeforeFirst(b.email.value, '@')), ToLower(b.email.value),
         None, GOOGLE, OrElse(b.image, ""), [])
  }

  /** The refreshed record of a returning Google user: a given name or image replaces the stored one. */
  function Refreshed(u: User, b: GoogleBody): (r: User)
    ensures r == u.(name := OrElse(b.name, u.name), image := OrElse(b.image, u.image))
    ensures r.id == u.id && r.email == u.email && r.password == u.password
    ensures r.provider == u.provider && r.cart == u.cart
  {
    u.(name := OrElse(b.name, u.name), image := OrElse(b.image, u.image))
  }

  /** POST /oauth/google: 400 without an email or for an email registered with a password
      (that user is left untouched); otherwise refresh or create the Google account. */
  function GoogleSignIn(users: map<string, User>, b: GoogleBody, freshId: ObjectId): (r: UserStep<User>)
    ensures !Truthy(b.email) ==> r == UserStep(Err(BadRequest), users)
    ensures Truthy(b.email) && ToLower(b.email.value) in users && users[ToLower(b.email.value)].provider == CREDENTIALS
            ==> r == UserStep(Err(BadRequest), users)
    ensures Truthy(b.email) && ToLower(b.email.value) in users && users[ToLower(b.email.value)].provider != CREDENTIALS
            ==> var key := ToLower(b.email.value);
                r == UserStep(Done(OK, Refreshed(users[key], b)), users[key := Refreshed(users[key], b)])
    ensures Truthy(b.email) && ToLower(b.email.value) !in users
            ==> r == UserStep(Done(OK, NewGoogleUser(b, freshId)), users[ToLower(b.email.value) := NewGoogleUser(b, freshId)])
  {
    if !Truthy(b.email) then UserStep(Err(BadRequest), users)
    else
      var key := ToLower(b.email.value);
      if key in users then
        if users[key].provider == CREDENTIALS then UserStep(Err(BadRequest), users)
        else UserStep(Done(OK, Refreshed(users[key], b)), users[key := Refreshed(users[key], b)])
      else UserStep(Done(OK, NewGoogleUser(b, freshId)), users[key := NewGoogleUser(b, freshId)])
  }

  method HandleGoogleSignIn(db: Db, b: GoogleBody) returns (reply: Reply<User>)
    requires db.Valid()
    modifies db`users, db`nextId
    ensures db.Valid()
    ensures UserStep(reply, db.users) == GoogleSignIn(old(db.users), b, old(db.nextId))
    ensures db.nextId == if Truthy(b.email) && ToLower(b.email.value) !in old(db.users)
                         then old(db.nextId) + 1 else old(db.nextId)
  {
    if !Truthy(b.email) {
      return Err(BadRequest);
    }
    var key := ToLower(b.email.value);
    if key in db.users {
      var user := db.users[key];
      if user.provider == CREDENTIALS {
        return Err(BadRequest);
      }
      user := user.(name := OrElse(b.name, user.name));
      user := user.(image := OrElse(b.image, user.image));
      ReplaceUserKeepsWellFormed(db.users, db.nextId, key, user);
      db.SetUsers(db.users[key := user]);
      reply := Done(OK, user);
    } else {
      var user := NewGoogleUser(b, db.nextId);
      InsertUserKeepsWellFormed(db.users, db.nextId, key, user);
      var id := db.FreshId();
      db.SetUsers(db.users[key := user]);
      reply := Done(OK, user);
    }
  }

  // ------------------------------------------------------------------ cart

  datatype AddBody = AddBody(email: Option<string>, productId: Option<ObjectId>, quantity: Option<int>,
                             size: Option<string>, color: Option<string>)

  /** Every field is given and truthy; a quantity of 0 is falsy. */
  predicate AddFieldsGiven(b: AddBody)
  {
    Truthy(b.email) && b.productId.Some? && TruthyNumber(b.quantity) && Truthy(b.size) && Truthy(b.color)
  }

  /** POST /cart: 400 for a missing field, 404 for an unknown user, otherwise merge the
      quantity into the line with the same (product, size, color) or append a new line. */
  function AddToCart(users: map<string, User>, b: AddBody, freshId: ObjectId): (r: UserStep<seq<CartLine>>)
    ensures !AddFieldsGiven(b) ==> r == UserStep(Err(BadRequest), users)
    ensures AddFieldsGiven(b) && ToLower(b.email.value) !in users ==> r == UserStep(Err(NotFound), users)
    ensures r.reply.Done? <==> AddFieldsGiven(b) && ToLower(b.email.value) in users
    ensures r.reply.Done? ==>
              var key := ToLower(b.email.value);
              && r.reply.status == OK
              && r.reply.data == AddLine(users[key].cart, b.productId.value, b.quantity.value,
                                         b.size.value, b.color.value, freshId)
              && r.users == users[key := users[key].(cart := r.reply.data)]
  {
    if !AddFieldsGiven(b) then UserStep(Err(BadRequest), users)
    else
      var key := ToLower(b.email.value);
      if key !in users then UserStep(Err(NotFound), users)
      else
        var cart := AddLine(users[key].cart, b.productId.value, b.quantity.value, b.size.value, b.color.value, freshId);
        UserStep(Done(OK, cart), users[key := users[key].(cart := cart)])
  }

  method HandleAddToCart(db: Db, b: AddBody) returns (reply: Reply<seq<CartLine>>)
    requires db.Valid()
    modifies db`users, db`nextId
    ensures db.Valid()
    ensures UserStep(reply, db.users) == AddToCart(old(db.users), b, old(db.nextId))
    ensures db.nextId == if reply.Done? then old(db.nextId) + 1 else old(db.nextId)
  {
    if !(Truthy(b.email) && b.productId.Some? && TruthyNumber(b.quantity) && Truthy(b.size) && Truthy(b.color)) {
      return Err(BadRequest);
    }
    var key := ToLower(b.email.value);
    if key !in db.users {
      return Err(NotFound);
    }
    var user := db.users[key];
    var cart := user.cart;
    var product, quantity, size, color := b.productId.value, b.quantity.value, b.size.value, b.color.value;
    AddLineKeepsCartWellFormed(cart, db.nextId, product, quantity, size, color);
    var i := KeyIndex(cart, product, size, color);
    var id := db.FreshId();
    if i > -1 {
      cart := cart[i := cart[i].(quantity := cart[i].quantity + quantity)];
    } else {
      cart := cart + [CartLine(id, product, quantity, size, color)];
    }
    db.SetCart(key, cart);
    reply := Done(OK, cart);
  }

  /** GET /cart/:email: the stored cart, or 404. */
  function GetCart(users: map<string, User>, email: string): (r: Reply<seq<CartLine>>)
    ensures r.Done? <==> ToLower(email) in users
    ensures r.Done? ==> r.status == OK && r.data == users[ToLower(email)].cart
    ensures !r.Done? ==> r == Err(NotFound)
  {
    var key := ToLower(email);
    if key in users then Done(OK, users[key].cart) else Err(NotFound)
  }

  /** DELETE /cart/:email/:itemId: drop every line with that id; 404 for an unknown user. */
  function RemoveFromCart(users: map<string, User>, email: string, itemId: ObjectId): (r: UserStep<seq<CartLine>>)
    ensures ToLower(email) !in users ==> r == UserStep(Err(NotFound), users)
    ensures r.reply.Done? <==> ToLower(email) in users
    ensures r.reply.Done? ==>
              var key := ToLower(email);
              && r.reply.status == OK
              && r.reply.data == WithoutLine(users[key].cart, itemId)
              && r.users == users[key := users[key].(cart := r.reply.data)]
  {
    var key := ToLower(email);
    if key !in users then UserStep(Err(NotFound), users)
    else
      var cart := WithoutLine(users[key].cart, itemId);
      UserStep(Done(OK, cart), users[key := users[key].(cart := cart)])
  }

  method HandleRemoveFromCart(db: Db, email: string, itemId: ObjectId) returns (reply: Reply<seq<CartLine>>)
    requires db.Valid()
    modifies db`users
    ensures db.Valid()
    ensures UserStep(reply, db.users) == RemoveFromCart(old(db.users), email, itemId)
  {
    var key := ToLower(email);
    if key !in db.users {
      return Err(NotFound);
    }
    var user := db.users[key];
    var cart := WithoutLine(user.cart, itemId);
    WithoutLineKeepsCartWellFormed(user.cart, db.nextId, itemId);
    db.SetCart(key, cart);
    reply := Done(OK, cart);
  }

  /** PUT /cart/:email/:itemId: a quantity below 1 is refused before any lookup; then 404 for
      an unknown user or line; otherwise that line takes the new quantity. */
  function UpdateCart(users: map<string, User>, email: string, itemId: ObjectId, quantity: int): (r: UserStep<seq<CartLine>>)
    ensures quantity < 1 ==> r == UserStep(Err(BadRequest), users)
    ensures quantity >= 1 && ToLower(email) !in users ==> r == UserStep(Err(NotFound), users)
    ensures quantity >= 1 && ToLower(email) in users && LineIndex(users[ToLower(email)].cart, itemId) < 0
            ==> r == UserStep(Err(NotFound), users)
    ensures r.reply.Done? <==> quantity >= 1 && ToLower(email) in users && LineIndex(users[ToLower(email)].cart, itemId) >= 0
    ensures r.reply.Done? ==>
              var key := ToLower(email);
              && r.reply.status == OK
              && r.reply.data == SetQuantity(users[key].cart, itemId, quantity)
              && r.users == users[key := users[key].(cart := r.reply.data)]
  {
    if quantity < 1 then UserStep(Err(BadRequest), users)
    else
      var key := ToLower(email);
      if key !in users then UserStep(Err(NotFound), users)
      else if LineIndex(users[key].cart, itemId) < 0 then UserStep(Err(NotFound), users)
      else
        var cart := SetQuantity(users[key].cart, itemId, quantity);
        UserStep(Done(OK, cart), users[key := users[key].(cart := cart)])
  }

  method HandleUpdateCart(db: Db, email: string, itemId: ObjectId, quantity: int) returns (reply: Reply<seq<CartLine>>)
    requires db.Valid()
    modifies db`users
    ensures db.Valid()
    ensures UserStep(reply, db.users) == UpdateCart(old(db.users), email, itemId, quantity)
  {
    if quantity < 1 {
      return Err(BadRequest);
    }
    var key := ToLower(email);
    if key !in db.users {
      return Err(NotFound);
    }
    var user := db.users[key];
    var i := LineIndex(user.cart, itemId);
    if i < 0 {
      return Err(NotFound);
    }
    var cart := user.cart[i := user.cart[i].(quantity := quantity)];
    SetQuantityKeepsCartWellFormed(user.cart, db.nextId, itemId, quantity);
    db.SetCart(key, cart);
    reply := Done(OK, cart);
  }

  // ------------------------------------------------------------------ properties

  /** A registered account logs in with its password under any casing of its email. */
  lemma RegisterThenLogin(users: map<string, User>, b: RegisterBody, freshId: ObjectId, salt: nat, email: string)
    requires Register(users, b, freshId, salt).reply.Done?
    requires Truthy(Some(email)) && ToLower(email) == ToLower(b.email.value)
    ensures Login(Register(users, b, freshId, salt).users, LoginBody(Some(email), b.password))
            == Done(OK, Register(users, b, freshId, salt).reply.data)
  {
  }

  /** Once an email is registered, registering it again in any casing is refused and
      changes nothing. */
  lemma RegisterTwiceRefused(users: map<string, User>, b1: RegisterBody, b2: RegisterBody,
                             id1: ObjectId, id2: ObjectId, s1: nat, s2: nat)
    requires Register(users, b1, id1, s1).reply.Done?
    requires RegisterFieldsGiven(b2) && ToLower(b2.email.value) == ToLower(b1.email.value)
    ensures var after := Register(users, b1, id1, s1).users;
            Register(after, b2, id2, s2) == UserStep(Err(BadRequest), after)
  {
  }

  /** An account created by Google sign-in cannot log in with a password. */
  lemma GoogleAccountRefusesPassword(users: map<string, User>, g: GoogleBody, freshId: ObjectId, l: LoginBody)
    requires Truthy(g.email) && ToLower(g.email.value) !in users
    requires Truthy(l.email) && Truthy(l.password) && ToLower(l.email.value) == ToLower(g.email.value)
    ensures Login(GoogleSignIn(users, g, freshId).users, l) == Err(Unauthorized)
  {
  }

  /** Signing in with Google twice with the same body leaves the store as once does. */
  lemma GoogleSignInIdempotent(users: map<string, User>, b: GoogleBody, id1: ObjectId, id2: ObjectId)
    ensures var once := GoogleSignIn(users, b, id1).users;
            GoogleSignIn(once, b, id2).users == once
  {
    if Truthy(b.email) {
      var key := ToLower(b.email.value);
      var once := GoogleSignIn(users, b, id1).users;
      if key in users && users[key].provider != CREDENTIALS {
        var u := Refreshed(users[key], b);
        assert Refreshed(u, b) == u;
      } else if key !in users {
        var u := NewGoogleUser(b, id1);
        assert once[key] == u;
        assert Refreshed(u, b) == u;
      }
    }
  }

  /** Every handler of this router keeps the user store well-formed: lower-case keys equal
      to the stored emails, distinct ids, one cart line per key and distinct line ids. */
  lemma RegisterKeepsWellFormed(users: map<string, User>, nextId: ObjectId, b: RegisterBody, salt: nat)
    requires UsersWellFormed(users, nextId)
    ensures UsersWellFormed(Register(users, b, nextId, salt).users, nextId + 1)
  {
    var r := Register(users, b, nextId, salt);
    if r.reply.Done? {
      InsertUserKeepsWellFormed(users, nextId, r.reply.data.email, r.reply.data);
    }
  }
}
