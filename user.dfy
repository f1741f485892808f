/**
 * The `User` table: its columns, which of them may be null, and the defaults the schema supplies.
 * Timestamps in milliseconds since the epoch are integers.
 */
module UserModel {
  import opened Wrappers
  import opened Crypto

  /** The auto-increment primary key Sequelize adds; the first row gets 1. */
  type UserId = nat

  /** The schema default for `image`. */
  const SchemaDefaultImage: string := "default.png"

  /**
   * One row. `name`, `email`, `password`, `image` and `isTwoFactorEnabled` are NOT NULL; the three
   * two-factor columns are nullable, each on its own.
   */
  datatype User = User(
    id: UserId,
    name: string,
    email: string,
    password: Digest,
    image: string,
    twoFactorSecret: Option<string>,
    twoFactorToken: Option<string>,
    twoFactorExpiry: Option<int>,
    isTwoFactorEnabled: bool)

  /** `User.create(...)` with the given columns: the others take their schema defaults. */
  function Create(id: UserId, name: string, email: string, password: Digest, image: Option<string>): (u: User)
    ensures u.id == id && u.name == name && u.email == email && u.password == password
    ensures u.image == (if image.Some? then image.value else SchemaDefaultImage)
    ensures !u.isTwoFactorEnabled
    ensures u.twoFactorSecret == None && u.twoFactorToken == None && u.twoFactorExpiry == None
  {
    User(id, name, email, password, if image.Some? then image.value else SchemaDefaultImage,
         None, None, None, false)
  }

  /** The `unique: true` constraint on `email`, over a table keyed by id. */
  ghost predicate EmailsUnique(rows: map<UserId, User>)
    ensures EmailsUnique(rows) ==>
              forall a, b :: a in rows && b in rows && rows[a].email == rows[b].email ==> a == b
  {
    forall a, b :: a in rows && b in rows && a != b ==> rows[a].email != rows[b].email
  }

  /** Whether some row other than `self` already uses `email`. */
  predicate EmailTaken(rows: map<UserId, User>, email: string, self: Option<UserId>)
    ensures !EmailTaken(rows, email, self) ==>
              forall k :: k in rows && Some(k) != self ==> rows[k].email != email
  {
    exists k :: k in rows && rows[k].email == email && Some(k) != self
  }
}
