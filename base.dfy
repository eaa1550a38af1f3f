/** Types shared by every handler of the shop backend: optional request fields,
    JavaScript truthiness, HTTP outcomes and the idealised password hash. */
module Base {

  /** Mongo ObjectIds are opaque and unique; the model draws them from a counter. */
  type ObjectId = nat

  datatype Option<+T> = None | Some(value: T)

  /** The HTTP status a handler answers with. */
  datatype Status = OK | Created | BadRequest | Unauthorized | Forbidden | NotFound | ServerError
  {
    function Code(): (c: int)
      ensures 200 <= c < 600
      ensures c < 300 <==> this in {OK, Created}
    {
      match this
      case OK => 200
      case Created => 201
      case BadRequest => 400
      case Unauthorized => 401
      case Forbidden => 403
      case NotFound => 404
      case ServerError => 500
    }
  }

  /** What a handler sends back: an error status, or a success status with its data. */
  datatype Reply<+T> = Err(status: Status) | Done(status: Status, data: T)

  /** `findById` on a collection: the index of the first document whose id (as `idOf`
      reads it) is `id`, or -1 when there is none. */
  function FindById<T>(docs: seq<T>, id: ObjectId, idOf: T -> ObjectId): (i: int)
    ensures -1 <= i < |docs|
    ensures i >= 0 ==> idOf(docs[i]) == id && forall j :: 0 <= j < i ==> idOf(docs[j]) != id
    ensures i < 0 ==> forall j :: 0 <= j < |docs| ==> idOf(docs[j]) != id
  {
    if docs == [] then -1
    else if idOf(docs[0]) == id then 0
    else
      var k := FindById(docs[1..], id, idOf);
      if k < 0 then -1 else k + 1
  }

  /** `!!x` for a string field of a JSON body: an absent field and "" are falsy. */
  predicate Truthy(s: Option<string>)
  {
    s.Some? && s.value != ""
  }

  /** `!!x` for a numeric field: absent and 0 are falsy (NaN is not modelled). */
  predicate TruthyNumber(n: Option<int>)
  {
    n.Some? && n.value != 0
  }

  /** `given || fallback` on strings. */
  function OrElse(given: Option<string>, fallback: string): (r: string)
    ensures Truthy(given) ==> r == given.value
    ensures !Truthy(given) ==> r == fallback
  {
    if Truthy(given) then given.value else fallback
  }

  /** bcrypt, idealised: a salted digest that matches exactly the password it was made
      from. It is a type of its own, so a stored hash can never be a plaintext string. */
  datatype PasswordHash = Bcrypt(digestOf: string, salt: nat)

  function HashPassword(password: string, salt: nat): (h: PasswordHash)
    ensures PasswordMatches(password, h)
    ensures forall other :: other != password ==> !PasswordMatches(other, h)
  {
    Bcrypt(password, salt)
  }

  /** `bcrypt.compare(password, hash)` */
  predicate PasswordMatches(password: string, h: PasswordHash)
  {
    h.digestOf == password
  }
}
