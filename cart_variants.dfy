/** Where the mounted router (routes/auth.js) and its unmounted copy (middleware/auth.js)
    agree and where they part ways. */
module CartVariants {
  import opened Base
  import opened Strings
  import opened UserModel
  import opened Cart
  import AuthRoutes
  import AuthMiddleware

  /** The body the copy reads out of a body the mounted router accepts. */
  function Loosened(b: AuthRoutes.AddBody): (l: AuthMiddleware.LooseAddBody)
    requires AuthRoutes.AddFieldsGiven(b)
    ensures l.email == b.email && l.productId == b.productId.value && l.quantity == b.quantity.value
    ensures l.size == b.size.value && l.color == b.color.value
  {
    AuthMiddleware.LooseAddBody(b.email, b.productId.value, b.quantity.value, b.size.value, b.color.value)
  }

  /** On a body with every field given, both routers add to the cart identically. */
  lemma AddAgreesOnCompleteBodies(users: map<string, User>, b: AuthRoutes.AddBody, freshId: ObjectId)
    requires AuthRoutes.AddFieldsGiven(b)
    ensures AuthRoutes.AddToCart(users, b, freshId) == AuthMiddleware.AddToCart(users, Loosened(b), freshId)
  {
  }

  /** A quantity of 0 is refused by the mounted router but accepted by the copy, where it
      leaves every key's total where it was. */
  lemma ZeroQuantityDiverges(users: map<string, User>, b: AuthMiddleware.LooseAddBody, freshId: ObjectId,
                             p: ObjectId, s: string, c: string)
    requires b.email.Some? && ToLower(b.email.value) in users && b.quantity == 0
    ensures var strict := AuthRoutes.AddBody(b.email, Some(b.productId), Some(0), Some(b.size), Some(b.color));
            AuthRoutes.AddToCart(users, strict, freshId) == UserStep(Err(BadRequest), users)
    ensures var r := AuthMiddleware.AddToCart(users, b, freshId);
            r.reply.Done? && QuantityOf(r.reply.data, p, s, c) == QuantityOf(users[ToLower(b.email.value)].cart, p, s, c)
  {
    AddRaisesOnlyItsKey(users[ToLower(b.email.value)].cart, b.productId, 0, b.size, b.color, freshId, p, s, c);
  }

  /** From a quantity of 1 upwards both routers update a line identically. */
  lemma UpdateAgreesFromOne(users: map<string, User>, email: string, itemId: ObjectId, quantity: int)
    requires quantity >= 1
    ensures AuthRoutes.UpdateCart(users, email, itemId, quantity)
            == AuthMiddleware.UpdateCart(users, email, itemId, quantity)
  {
  }

  /** Below 1 the mounted router refuses with 400 and changes nothing, while the copy
      removes the line (or answers 404 when the user or the line is unknown). */
  lemma UpdateBelowOneDiverges(users: map<string, User>, email: string, itemId: ObjectId, quantity: int)
    requires quantity < 1
    ensures AuthRoutes.UpdateCart(users, email, itemId, quantity) == UserStep(Err(BadRequest), users)
    ensures var r := AuthMiddleware.UpdateCart(users, email, itemId, quantity);
            if ToLower(email) in users && LineIndex(users[ToLower(email)].cart, itemId) >= 0
            then r.reply == Done(OK, WithoutLine(users[ToLower(email)].cart, itemId))
            else r == UserStep(Err(NotFound), users)
  {
  }

  /** Both copies of the login agree on every account that is not tagged 'google'. */
  lemma LoginAgreesOffGoogle(users: map<string, User>, b: AuthRoutes.LoginBody)
    requires Truthy(b.email) ==> ToLower(b.email.value) in users ==> users[ToLower(b.email.value)].provider != GOOGLE
    ensures AuthRoutes.Login(users, b) == AuthMiddleware.Login(users, b)
  {
  }

  /** A 'google' account that nevertheless holds a password hash is refused by the mounted
      router and let in by the copy when the password matches. */
  lemma LoginDivergesOnGoogleWithHash(users: map<string, User>, b: AuthRoutes.LoginBody)
    requires Truthy(b.email) && Truthy(b.password) && ToLower(b.email.value) in users
    requires var u := users[ToLower(b.email.value)];
             u.provider == GOOGLE && u.password.Some? && PasswordMatches(b.password.value, u.password.value)
    ensures AuthRoutes.Login(users, b) == Err(Unauthorized)
    ensures AuthMiddleware.Login(users, b) == Done(OK, users[ToLower(b.email.value)])
  {
  }
}
