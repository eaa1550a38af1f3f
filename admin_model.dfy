/** The admin record and the claims of an admin token. The schema file, models/Admin.js, is
    not part of this model: the fields are the ones the handlers read and write. */
module AdminModel {
  import opened Base

  const ADMIN_EMAIL := "admin@banglabaari.com"
  const SUPERADMIN := "superadmin"

  /** An admin document; `lastLogin` is None until the first login. */
  datatype Admin = Admin(
    id: ObjectId,
    username: string,
    password: PasswordHash,
    email: string,
    role: string,
    lastLogin: Option<nat>)

  /** The decoded payload of a token. Admin tokens carry `{ id, username, isAdmin: true }`;
      a payload without the flag decodes with `isAdmin` false. */
  datatype Claims = Claims(id: ObjectId, username: string, isAdmin: bool)

  /** The payload `jwt.sign` gets when an admin logs in; the signature and the 24-hour
      expiry are not part of this model. */
  function AdminClaims(a: Admin): (c: Claims)
    ensures c.isAdmin && c.id == a.id && c.username == a.username
  {
    Claims(a.id, a.username, true)
  }
}
