/** The user record (models/User.ts): roles, saved addresses, credentials
    and the password-reset fields, with the schema's defaults and the
    invariants the user collection keeps. */
module UserModel {
  import opened Common

  datatype Role = Customer | Vendor | Rider | Admin

  /** A bcrypt hash, abstracted as an injective function of the password
      and the salt: the stored credential is never the plain text itself. */
  datatype PasswordHash = Bcrypt(plain: string, salt: string)

  /** bcrypt.compare: the candidate matches exactly the password the hash
      was made from, whatever the salt. */
  predicate PasswordMatches(candidate: string, hash: PasswordHash) {
    hash.plain == candidate
  }

  /** The SHA-256 digest of a reset token, abstracted as injective. */
  datatype TokenHash = Sha256(token: string)

  datatype Address = Address(
    id: Id, addressLabel: string, street: string, city: string, state: string,
    zipCode: string, coordinates: Coordinates, isDefault: bool)

  datatype User = User(
    id: Id,
    email: string,
    password: PasswordHash,
    firstName: string,
    lastName: string,
    phone: string,
    role: Role,
    avatar: Option<string>,
    isActive: bool,
    isVerified: bool,
    restaurantId: Option<Id>,          // vendors: the restaurant they own
    vehicleType: Option<string>,       // riders
    vehicleNumber: Option<string>,
    isAvailable: bool,
    addresses: seq<Address>,           // customers
    resetPasswordToken: Option<TokenHash>,
    resetPasswordExpires: Option<int>) // milliseconds since the epoch

  /** A user document as created from registration input: the email is
      normalised by the schema, every optional field takes its default. */
  function NewUser(id: Id, email: string, password: PasswordHash, firstName: string,
                   lastName: string, phone: string, role: Role): (u: User)
    ensures u.id == id && u.role == role && u.password == password
    ensures u.email == NormalizeEmail(email)
    ensures u.isActive && !u.isVerified && !u.isAvailable
    ensures u.addresses == [] && u.restaurantId.None? && u.avatar.None?
    ensures u.resetPasswordToken.None? && u.resetPasswordExpires.None?
  {
    User(id, NormalizeEmail(email), password, firstName, lastName, phone, role,
         None, true, false, None, None, None, false, [], None, None)
  }

  /** At most one saved address is marked default. */
  ghost predicate AtMostOneDefault(addresses: seq<Address>) {
    forall i, j | 0 <= i < j < |addresses| :: !(addresses[i].isDefault && addresses[j].isDefault)
  }

  function UserKey(u: User): Id { u.id }
  function EmailKey(u: User): string { u.email }

  /** The invariant of the user collection: unique ids, unique normalised
      emails (the schema's unique index), at most one default address each. */
  ghost predicate UsersValid(users: seq<User>) {
    && UniqueKeys(users, UserKey)
    && UniqueKeys(users, EmailKey)
    && (forall i | 0 <= i < |users| :: IsStoredEmail(users[i].email))
    && (forall i | 0 <= i < |users| :: AtMostOneDefault(users[i].addresses))
  }

  /** Model.findById on the user collection. */
  function UserIndex(users: seq<User>, id: Id): (i: int)
    ensures -1 <= i < |users|
    ensures i == -1 <==> forall k :: 0 <= k < |users| ==> users[k].id != id
    ensures 0 <= i ==> users[i].id == id
  {
    FirstIndex(users, (u: User) => u.id == id)
  }

  /** Model.findOne({ email }), with the filter value cast by the schema. */
  function EmailIndex(users: seq<User>, email: string): (i: int)
    ensures -1 <= i < |users|
    ensures i == -1 <==> forall k :: 0 <= k < |users| ==> users[k].email != NormalizeEmail(email)
    ensures 0 <= i ==> users[i].email == NormalizeEmail(email)
  {
    FirstIndex(users, (u: User) => u.email == NormalizeEmail(email))
  }

  /** In a valid collection a stored user is found again by its own email. */
  lemma {:induction false} EmailIndexFindsStored(users: seq<User>, i: nat)
    requires UsersValid(users) && i < |users|
    ensures EmailIndex(users, users[i].email) == i
  {
    StoredIsNormalized(users[i].email);
  }

  /** Replacing a user by one with the same id and email, whose addresses
      still have at most one default, keeps the collection valid. */
  lemma UpdateKeepsUsersValid(users: seq<User>, i: nat, u: User)
    requires UsersValid(users) && i < |users|
    requires u.id == users[i].id && u.email == users[i].email
    requires AtMostOneDefault(u.addresses)
    ensures UsersValid(users[i := u])
  {
    UpdateSameKey(users, i, u, UserKey);
    UpdateSameKey(users, i, u, EmailKey);
  }

  /** Appending a user with a fresh id, a fresh normalised email and at
      most one default address keeps the collection valid. */
  lemma AppendKeepsUsersValid(users: seq<User>, u: User)
    requires UsersValid(users)
    requires forall k :: 0 <= k < |users| ==> users[k].id != u.id && users[k].email != u.email
    requires u.email == NormalizeEmail(u.email) && AtMostOneDefault(u.addresses)
    ensures UsersValid(users + [u])
  {
    AppendFreshKey(users, u, UserKey);
    AppendFreshKey(users, u, EmailKey);
    var t := users + [u];
    NormalizedIsStored(u.email);
    forall i | 0 <= i < |t| ensures IsStoredEmail(t[i].email) && AtMostOneDefault(t[i].addresses) {
      if i < |users| {
        assert t[i] == users[i];
      }
    }
  }
}
