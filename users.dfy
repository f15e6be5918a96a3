/** The user resolvers (resolvers/userResolvers.ts): the admin listing, a
    lookup by id, profile edits, saved addresses and a rider's
    availability. */
module Users {
  import opened Common
  import opened UserModel
  import opened AuthGuard
  import opened Store

  /** The `users` query filter: a role, or none for every user. */
  function HasRole(role: Option<Role>): User -> bool {
    (u: User) => role.None? || u.role == role.value
  }

  /** users: ADMIN only; the users with the given role, or all of them. */
  function UserListing(users: seq<User>, ctx: Context, role: Option<Role>): (r: Result<seq<User>>)
    ensures r.Ok? <==> RequireRole(ctx, [Admin]).Ok?
    ensures r.Err? ==> r.error == RequireRole(ctx, [Admin]).error
    ensures r.Ok? ==> forall k :: 0 <= k < |r.value| ==>
      r.value[k] in users && (role.Some? ==> r.value[k].role == role.value)
    ensures r.Ok? ==> forall k :: 0 <= k < |users| && (role.None? || users[k].role == role.value) ==>
      users[k] in r.value
  {
    match RequireRole(ctx, [Admin])
    case Err(e) => Err(e)
    case Ok(_) => Ok(Filter(users, HasRole(role)))
  }

  /** With no role given, the listing is every user, in stored order. */
  lemma ListingWithoutRoleIsAll(users: seq<User>, ctx: Context)
    requires RequireRole(ctx, [Admin]).Ok?
    ensures UserListing(users, ctx, None) == Ok(users)
  {
    FilterKeepsAll(users, HasRole(None));
  }

  /** user: any signed-in caller; the user with that id, or null. */
  function UserById(users: seq<User>, ctx: Context, id: Id): (r: Result<Option<User>>)
    ensures r.Ok? <==> ctx.user.Some?
    ensures r.Err? ==> r.error == AuthenticationRequired
    ensures r.Ok? ==> (r.value.None? <==> forall k :: 0 <= k < |users| ==> users[k].id != id)
    ensures r.Ok? && r.value.Some? ==> r.value.value in users && r.value.value.id == id
  {
    match RequireAuth(ctx)
    case Err(e) => Err(e)
    case Ok(_) =>
      var i := UserIndex(users, id);
      if i < 0 then Ok(None) else Ok(Some(users[i]))
  }

  /** The profile after an edit: each truthy argument replaces its field,
      every other argument is ignored. */
  function ProfileEdited(u: User, firstName: Option<string>, lastName: Option<string>,
                         phone: Option<string>, avatar: Option<string>): User
  {
    u.(firstName := if Truthy(firstName) then firstName.value else u.firstName,
       lastName := if Truthy(lastName) then lastName.value else u.lastName,
       phone := if Truthy(phone) then phone.value else u.phone,
       avatar := if Truthy(avatar) then avatar else u.avatar)
  }

  /** An edit changes exactly the fields whose argument is truthy and
      nothing else about the user. */
  lemma ProfileEditedFields(u: User, firstName: Option<string>, lastName: Option<string>,
                            phone: Option<string>, avatar: Option<string>)
    ensures var e := ProfileEdited(u, firstName, lastName, phone, avatar);
      && (e.firstName == if Truthy(firstName) then firstName.value else u.firstName)
      && (e.lastName == if Truthy(lastName) then lastName.value else u.lastName)
      && (e.phone == if Truthy(phone) then phone.value else u.phone)
      && (e.avatar == if Truthy(avatar) then avatar else u.avatar)
      && e.(firstName := u.firstName, lastName := u.lastName, phone := u.phone, avatar := u.avatar) == u
  {
  }

  /** Empty strings and missing arguments leave the profile as it was. */
  lemma EmptyEditIsIdentity(u: User)
    ensures ProfileEdited(u, None, Some(""), None, Some("")) == u
    ensures ProfileEdited(u, None, None, None, None) == u
  {
  }

  /** Editing twice with the same arguments is the same as editing once. */
  lemma ProfileEditIdempotent(u: User, firstName: Option<string>, lastName: Option<string>,
                              phone: Option<string>, avatar: Option<string>)
    ensures var e := ProfileEdited(u, firstName, lastName, phone, avatar);
      ProfileEdited(e, firstName, lastName, phone, avatar) == e
  {
  }

  /** updateProfile: the signed-in user's own record after the edit, or
      null when the record is gone. */
  function ProfileUpdate(users: seq<User>, ctx: Context, firstName: Option<string>,
                         lastName: Option<string>, phone: Option<string>,
                         avatar: Option<string>): (r: Result<Option<User>>)
    ensures r.Ok? <==> ctx.user.Some?
    ensures r.Err? ==> r.error == AuthenticationRequired
    ensures r.Ok? ==> (r.value.Some? <==> 0 <= UserIndex(users, ctx.user.value.userId))
    ensures r.Ok? && r.value.Some? ==> r.value.value.id == ctx.user.value.userId
    ensures r.Ok? && r.value.Some? ==>
      r.value.value == ProfileEdited(users[UserIndex(users, ctx.user.value.userId)], firstName, lastName, phone, avatar)
  {
    match RequireAuth(ctx)
    case Err(e) => Err(e)
    case Ok(user) =>
      var i := UserIndex(users, user.userId);
      if i < 0 then Ok(None) else Ok(Some(ProfileEdited(users[i], firstName, lastName, phone, avatar)))
  }

  /** Writes an edited user back at position `i`, where the stored user
      with its id is. */
  method StoreUserAt(db: Database, i: nat, u: User)
    requires db.Valid() && i < |db.users| && db.users[i].id == u.id
    requires u.email == db.users[i].email && AtMostOneDefault(u.addresses)
    modifies db
    ensures db.Valid()
    ensures db.users == old(db.users)[i := u]
    ensures db.restaurants == old(db.restaurants) && db.menuItems == old(db.menuItems)
    ensures db.orders == old(db.orders) && db.reviews == old(db.reviews)
  {
    UpdateKeepsUsersValid(db.users, i, u);
    db.users := db.users[i := u];
  }

  /** Writes an edited user back in place of the stored one with its id. */
  method StoreUser(db: Database, u: User)
    requires db.Valid() && 0 <= UserIndex(db.users, u.id)
    requires u.email == db.users[UserIndex(db.users, u.id)].email
    requires AtMostOneDefault(u.addresses)
    modifies db
    ensures db.Valid()
    ensures db.users == old(db.users)[UserIndex(old(db.users), u.id) := u]
    ensures db.restaurants == old(db.restaurants) && db.menuItems == old(db.menuItems)
    ensures db.orders == old(db.orders) && db.reviews == old(db.reviews)
  {
    StoreUserAt(db, UserIndex(db.users, u.id), u);
  }

  /** updateProfile. */
  method UpdateProfile(db: Database, ctx: Context, firstName: Option<string>,
                       lastName: Option<string>, phone: Option<string>, avatar: Option<string>)
    returns (r: Result<Option<User>>)
    requires db.Valid()
    modifies db
    ensures db.Valid()
    ensures r == ProfileUpdate(old(db.users), ctx, firstName, lastName, phone, avatar)
    ensures r.Ok? && r.value.Some? ==>
      db.users == old(db.users)[UserIndex(old(db.users), ctx.user.value.userId) := r.value.value]
    ensures !(r.Ok? && r.value.Some?) ==> db.users == old(db.users)
    ensures db.restaurants == old(db.restaurants) && db.menuItems == old(db.menuItems)
    ensures db.orders == old(db.orders) && db.reviews == old(db.reviews)
  {
    r := ProfileUpdate(db.users, ctx, firstName, lastName, phone, avatar);
    if r.Ok? && r.value.Some? {
      StoreUser(db, r.value.value);
    }
  }

  /** The addAddress input; `isDefault` may be omitted. */
  datatype AddressInput = AddressInput(
    addressLabel: string, street: string, city: string, state: string, zipCode: string,
    latitude: real, longitude: real, isDefault: Option<bool>)

  /** The address built from the input; an omitted isDefault is false.
      `id` is the subdocument id the store assigns. */
  function NewAddress(input: AddressInput, id: Id): (a: Address)
    ensures a.isDefault <==> input.isDefault == Some(true)
    ensures a.coordinates == Coordinates(input.latitude, input.longitude)
    ensures a.id == id && a.addressLabel == input.addressLabel && a.street == input.street
    ensures a.city == input.city && a.state == input.state && a.zipCode == input.zipCode
  {
    Address(id, input.addressLabel, input.street, input.city, input.state, input.zipCode,
            Coordinates(input.latitude, input.longitude), input.isDefault.Some? && input.isDefault.value)
  }

  /** The $set of 'addresses.$[].isDefault' to false. */
  function ClearedDefaults(addresses: seq<Address>): (r: seq<Address>)
    ensures |r| == |addresses|
    ensures forall k :: 0 <= k < |r| ==> !r[k].isDefault
    ensures forall k :: 0 <= k < |r| ==> r[k].(isDefault := addresses[k].isDefault) == addresses[k]
  {
    seq(|addresses|, k requires 0 <= k < |addresses| => addresses[k].(isDefault := false))
  }

  /** The saved addresses after adding `a`: a default address first
      unsets every other default, then it is pushed. */
  function WithAddress(addresses: seq<Address>, a: Address): seq<Address> {
    (if a.isDefault then ClearedDefaults(addresses) else addresses) + [a]
  }

  /** Pushing an address keeps at most one default when the pushed address
      is not a default or no other address is. */
  lemma PushKeepsOneDefault(addresses: seq<Address>, a: Address)
    requires AtMostOneDefault(addresses)
    requires a.isDefault ==> forall k :: 0 <= k < |addresses| ==> !addresses[k].isDefault
    ensures AtMostOneDefault(addresses + [a])
  {
    var r := addresses + [a];
    forall i, j | 0 <= i < j < |r| ensures !(r[i].isDefault && r[j].isDefault) {
      if j < |addresses| {
        assert r[i] == addresses[i] && r[j] == addresses[j];
      } else {
        assert r[i] == addresses[i];
      }
    }
  }

  /** What adding an address does to the list: it ends with the new
      address, the earlier ones keep their place and everything but their
      default flag, a new default becomes the only default, and at most one
      address stays marked default. */
  lemma WithAddressSpec(addresses: seq<Address>, a: Address)
    requires AtMostOneDefault(addresses)
    ensures var r := WithAddress(addresses, a);
      && |r| == |addresses| + 1 && r[|addresses|] == a
      && (forall k :: 0 <= k < |addresses| ==> r[k].(isDefault := addresses[k].isDefault) == addresses[k])
      && (!a.isDefault ==> r[..|addresses|] == addresses)
      && (a.isDefault ==> forall k :: 0 <= k < |addresses| ==> !r[k].isDefault)
      && AtMostOneDefault(r)
  {
    var kept := if a.isDefault then ClearedDefaults(addresses) else addresses;
    assert AtMostOneDefault(kept);
    PushKeepsOneDefault(kept, a);
    assert (kept + [a])[..|addresses|] == kept;
  }

  /** addAddress: the signed-in user's record with the address added, or
      null when the record is gone. */
  function AddressAddition(users: seq<User>, ctx: Context, input: AddressInput, addressId: Id)
    : (r: Result<Option<User>>)
    ensures r.Ok? <==> ctx.user.Some?
    ensures r.Err? ==> r.error == AuthenticationRequired
    ensures r.Ok? ==> (r.value.Some? <==> 0 <= UserIndex(users, ctx.user.value.userId))
    ensures r.Ok? && r.value.Some? ==>
      var u := users[UserIndex(users, ctx.user.value.userId)];
      r.value.value == u.(addresses := WithAddress(u.addresses, NewAddress(input, addressId)))
  {
    match RequireAuth(ctx)
    case Err(e) => Err(e)
    case Ok(user) =>
      var i := UserIndex(users, user.userId);
      if i < 0 then Ok(None)
      else Ok(Some(users[i].(addresses := WithAddress(users[i].addresses, NewAddress(input, addressId)))))
  }

  /** addAddress, as the two writes the resolver issues: unset the other
      defaults (for a default address), then push the new one. */
  method AddAddress(db: Database, ctx: Context, input: AddressInput, addressId: Id)
    returns (r: Result<Option<User>>)
    requires db.Valid()
    modifies db
    ensures db.Valid()
    ensures r == AddressAddition(old(db.users), ctx, input, addressId)
    ensures r.Ok? && r.value.Some? ==>
      db.users == old(db.users)[UserIndex(old(db.users), ctx.user.value.userId) := r.value.value]
    ensures !(r.Ok? && r.value.Some?) ==> db.users == old(db.users)
    ensures db.restaurants == old(db.restaurants) && db.menuItems == old(db.menuItems)
    ensures db.orders == old(db.orders) && db.reviews == old(db.reviews)
  {
    var auth := RequireAuth(ctx);
    if auth.Err? {
      return Err(auth.error);
    }
    var address := NewAddress(input, addressId);
    var i := UserIndex(db.users, auth.value.userId);
    if i < 0 {
      return Ok(None);
    }
    ghost var u := db.users[i];
    ghost var before := db.users;
    if address.isDefault {
      var cleared := ClearedDefaults(db.users[i].addresses);
      assert AtMostOneDefault(cleared);
      StoreUserAt(db, i, db.users[i].(addresses := cleared));
    }
    assert db.users[i] == u.(addresses := if address.isDefault then ClearedDefaults(u.addresses) else u.addresses);
    WithAddressSpec(u.addresses, address);
    var pushed := db.users[i].(addresses := db.users[i].addresses + [address]);
    assert pushed == u.(addresses := WithAddress(u.addresses, address));
    StoreUserAt(db, i, pushed);
    assert db.users == before[i := pushed];
    r := Ok(Some(pushed));
  }

  /** updateRiderAvailability: RIDER only; sets exactly the availability
      flag of the rider's own record (null when the record is gone). */
  function RiderAvailability(users: seq<User>, ctx: Context, isAvailable: bool): (r: Result<Option<User>>)
    ensures r.Ok? <==> RequireRole(ctx, [Rider]).Ok?
    ensures r.Err? ==> r.error == RequireRole(ctx, [Rider]).error
    ensures r.Ok? ==> (r.value.Some? <==> 0 <= UserIndex(users, ctx.user.value.userId))
    ensures r.Ok? && r.value.Some? ==>
      r.value.value.isAvailable == isAvailable &&
      r.value.value.(isAvailable := users[UserIndex(users, ctx.user.value.userId)].isAvailable)
        == users[UserIndex(users, ctx.user.value.userId)]
  {
    match RequireRole(ctx, [Rider])
    case Err(e) => Err(e)
    case Ok(user) =>
      var i := UserIndex(users, user.userId);
      if i < 0 then Ok(None) else Ok(Some(users[i].(isAvailable := isAvailable)))
  }

  /** updateRiderAvailability. */
  method UpdateRiderAvailability(db: Database, ctx: Context, isAvailable: bool)
    returns (r: Result<Option<User>>)
    requires db.Valid()
    modifies db
    ensures db.Valid()
    ensures r == RiderAvailability(old(db.users), ctx, isAvailable)
    ensures r.Ok? && r.value.Some? ==>
      db.users == old(db.users)[UserIndex(old(db.users), ctx.user.value.userId) := r.value.value]
    ensures !(r.Ok? && r.value.Some?) ==> db.users == old(db.users)
    ensures db.restaurants == old(db.restaurants) && db.menuItems == old(db.menuItems)
    ensures db.orders == old(db.orders) && db.reviews == old(db.reviews)
  {
    r := RiderAvailability(db.users, ctx, isAvailable);
    if r.Ok? && r.value.Some? {
      StoreUser(db, r.value.value);
    }
  }
}
