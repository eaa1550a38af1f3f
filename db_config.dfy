/** `createInitialAdmin`: at start-up, insert the configured admin unless one with that
    username exists. Every failure inside it is caught and logged, so it never propagates. */
module DbConfig {
  import opened Base
  import opened AdminModel
  import opened Store

  /** The admins after the bootstrap. `password` is ADMIN_PASSWORD; when it is unset,
      hashing it throws, the error is caught, and nothing is inserted. */
  function BootstrapAdmins(admins: map<string, Admin>, username: string, password: Option<string>,
                           freshId: ObjectId, salt: nat): (r: map<string, Admin>)
    ensures username in admins ==> r == admins
    ensures password.None? ==> r == admins
    ensures username !in admins && password.Some? ==>
              && r.Keys == admins.Keys + {username}
              && (forall n :: n in admins ==> r[n] == admins[n])
              && r[username].username == username && r[username].id == freshId
              && r[username].email == ADMIN_EMAIL && r[username].role == SUPERADMIN
              && r[username].lastLogin.None?
              && PasswordMatches(password.value, r[username].password)
  {
    if username in admins || password.None? then admins
    else admins[username := Admin(freshId, username, HashPassword(password.value, salt), ADMIN_EMAIL, SUPERADMIN, None)]
  }

  /** Running the bootstrap a second time changes nothing. */
  lemma BootstrapIdempotent(admins: map<string, Admin>, username: string, password: Option<string>,
                            id1: ObjectId, s1: nat, id2: ObjectId, s2: nat)
    ensures var once := BootstrapAdmins(admins, username, password, id1, s1);
            BootstrapAdmins(once, username, password, id2, s2) == once
  {
  }

  /** After the bootstrap the configured admin exists, unless the password was unset. */
  lemma BootstrapEstablishesAdmin(admins: map<string, Admin>, username: string, password: Option<string>,
                                  freshId: ObjectId, salt: nat)
    requires password.Some?
    ensures username in BootstrapAdmins(admins, username, password, freshId, salt)
  {
  }

  method CreateInitialAdmin(db: Db, username: string, password: Option<string>, salt: nat)
    requires db.Valid()
    modifies db`admins, db`nextId
    ensures db.Valid()
    ensures db.admins == BootstrapAdmins(old(db.admins), username, password, old(db.nextId), salt)
    ensures db.nextId == if |db.admins| > |old(db.admins)| then old(db.nextId) + 1 else old(db.nextId)
  {
    var existingAdmin := username in db.admins;
    if !existingAdmin {
      if password.None? {
        return;
      }
      var hashedPassword := HashPassword(password.value, salt);
      var id := db.FreshId();
      db.SetAdmins(db.admins[username := Admin(id, username, hashedPassword, ADMIN_EMAIL, SUPERADMIN, None)]);
    }
  }
}
