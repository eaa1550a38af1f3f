/** The user record. Its schema file, models/User.js, is not part of this model: the
    fields are the ones the handlers read and write. */
module UserModel {
  import opened Base

  const CREDENTIALS := "credentials"
  const GOOGLE := "google"

  /** One line of the cart embedded in a user document; `id` is the sub-document's own _id. */
  datatype CartLine = CartLine(id: ObjectId, product: ObjectId, quantity: int, size: string, color: string)

  /** A user document; `password` is null for accounts made by Google sign-in.
      An absent name or image is represented by "". */
  datatype User = User(
    id: ObjectId,
    name: string,
    email: string,
    password: Option<PasswordHash>,
    provider: string,
    image: string,
    cart: seq<CartLine>)

  /** What a handler of the user store yields: its reply and the users afterwards. */
  datatype UserStep<+T> = UserStep(reply: Reply<T>, users: map<string, User>)

  /** The claims of the token minted for a user: `{ userId, email }`. */
  datatype Session = Session(userId: ObjectId, email: string)

  /** The payload `jwt.sign` gets when a user registers or logs in; the signature and the
      seven-day expiry are not part of this model. */
  function SessionOf(u: User): (s: Session)
    ensures s.userId == u.id && s.email == u.email
  {
    Session(u.id, u.email)
  }
}
