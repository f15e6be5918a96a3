/** The restaurant resolvers (resolvers/restaurantResolvers.ts): the public
    listing and lookup, and the mutations of vendors and admins. */
module Restaurants {
  import opened Common
  import opened UserModel
  import opened RestaurantModel
  import opened AuthGuard
  import opened Store

  /** The `restaurants` query filter: a status and an owner, each applied
      only when given (an empty owner id is no filter). */
  function Matches(status: Option<RestaurantStatus>, ownerId: Option<Id>): Restaurant -> bool {
    (r: Restaurant) =>
      && (status.None? || r.status == status.value)
      && (!Truthy(ownerId) || r.ownerId == ownerId.value)
  }

  /** restaurants: public; the restaurants matching the filter, in stored
      order. */
  function RestaurantListing(rs: seq<Restaurant>, status: Option<RestaurantStatus>,
                             ownerId: Option<Id>): (r: seq<Restaurant>)
    ensures forall k :: 0 <= k < |r| ==> r[k] in rs
    ensures forall k :: 0 <= k < |r| ==> status.Some? ==> r[k].status == status.value
    ensures forall k :: 0 <= k < |r| ==> Truthy(ownerId) ==> r[k].ownerId == ownerId.value
    ensures forall k :: (0 <= k < |rs| && (status.None? || rs[k].status == status.value)
      && (!Truthy(ownerId) || rs[k].ownerId == ownerId.value)) ==> rs[k] in r
  {
    Filter(rs, Matches(status, ownerId))
  }

  /** Without a filter the listing is the whole collection. */
  lemma ListingWithoutFilterIsAll(rs: seq<Restaurant>)
    ensures RestaurantListing(rs, None, None) == rs
    ensures RestaurantListing(rs, None, Some("")) == rs
  {
    FilterKeepsAll(rs, Matches(None, None));
    FilterKeepsAll(rs, Matches(None, Some("")));
  }

  /** restaurant: public; the restaurant with that id, or null. */
  function RestaurantById(rs: seq<Restaurant>, id: Id): (r: Option<Restaurant>)
    ensures r.None? <==> forall k :: 0 <= k < |rs| ==> rs[k].id != id
    ensures r.Some? ==> r.value in rs && r.value.id == id
  {
    var i := RestaurantIndex(rs, id);
    if i < 0 then None else Some(rs[i])
  }

  /** createRestaurant: a VENDOR without a restaurant; the new document must
      pass the schema validators and take a fresh id. */
  function RestaurantCreation(rs: seq<Restaurant>, ctx: Context, input: RestaurantInput, id: Id)
    : (r: Result<Restaurant>)
    ensures r.Ok? <==> (RequireRole(ctx, [Vendor]).Ok? && OwnedIndex(rs, ctx.user.value.userId) < 0
      && SchemaValid(NewRestaurant(id, ctx.user.value.userId, input)) && RestaurantIndex(rs, id) < 0)
    ensures RequireRole(ctx, [Vendor]).Err? ==> r == Err(RequireRole(ctx, [Vendor]).error)
    ensures RequireRole(ctx, [Vendor]).Ok? && 0 <= OwnedIndex(rs, ctx.user.value.userId) ==>
      r == Err(AlreadyHasRestaurant)
    ensures r.Ok? ==> r.value == NewRestaurant(id, ctx.user.value.userId, input)
  {
    match RequireRole(ctx, [Vendor])
    case Err(e) => Err(e)
    case Ok(user) =>
      if 0 <= OwnedIndex(rs, user.userId) then Err(AlreadyHasRestaurant)
      else
        var restaurant := NewRestaurant(id, user.userId, input);
        if !SchemaValid(restaurant) then Err(ValidationFailed)
        else if 0 <= RestaurantIndex(rs, id) then Err(DuplicateKey)
        else Ok(restaurant)
  }

  /** The users after the owner's record points at restaurant `id`; an
      owner without a record leaves the users as they are. */
  function LinkedOwner(users: seq<User>, ownerId: Id, id: Id): seq<User> {
    var i := UserIndex(users, ownerId);
    if i < 0 then users else users[i := users[i].(restaurantId := Some(id))]
  }

  /** A created restaurant keeps the restaurant collection valid. */
  lemma CreationKeepsValid(rs: seq<Restaurant>, ctx: Context, input: RestaurantInput, id: Id)
    requires RestaurantsValid(rs) && RestaurantCreation(rs, ctx, input, id).Ok?
    ensures RestaurantsValid(rs + [RestaurantCreation(rs, ctx, input, id).value])
  {
    var r := RestaurantCreation(rs, ctx, input, id).value;
    AppendFreshKey(rs, r, RestaurantKey);
    AppendFreshKey(rs, r, OwnerKey);
    var t := rs + [r];
    forall i | 0 <= i < |t| ensures 0.0 <= t[i].rating <= 5.0 && t[i].totalReviews >= 0 {
      if i < |rs| {
        assert t[i] == rs[i];
      }
    }
  }

  /** A vendor gets one restaurant: once theirs is stored, a second
      creation is refused whatever its input. */
  lemma SecondRestaurantRefused(rs: seq<Restaurant>, ctx: Context, input: RestaurantInput, id: Id,
                                input2: RestaurantInput, id2: Id)
    requires RestaurantCreation(rs, ctx, input, id).Ok?
    ensures RestaurantCreation(rs + [RestaurantCreation(rs, ctx, input, id).value], ctx, input2, id2)
            == Err(AlreadyHasRestaurant)
  {
    var r := RestaurantCreation(rs, ctx, input, id).value;
    assert (rs + [r])[|rs|].ownerId == ctx.user.value.userId;
  }

  /** createRestaurant: stores the restaurant, then points the owner's
      record at it. */
  method CreateRestaurant(db: Database, ctx: Context, input: RestaurantInput, id: Id)
    returns (r: Result<Restaurant>)
    requires db.Valid()
    modifies db
    ensures db.Valid()
    ensures r == RestaurantCreation(old(db.restaurants), ctx, input, id)
    ensures r.Ok? ==> db.restaurants == old(db.restaurants) + [r.value]
    ensures r.Ok? ==> db.users == LinkedOwner(old(db.users), r.value.ownerId, id)
    ensures r.Err? ==> db.restaurants == old(db.restaurants) && db.users == old(db.users)
    ensures db.menuItems == old(db.menuItems) && db.orders == old(db.orders) && db.reviews == old(db.reviews)
  {
    r := RestaurantCreation(db.restaurants, ctx, input, id);
    if r.Err? {
      return;
    }
    CreationKeepsValid(db.restaurants, ctx, input, id);
    db.restaurants := db.restaurants + [r.value];
    var i := UserIndex(db.users, r.value.ownerId);
    if 0 <= i {
      var linked := db.users[i].(restaurantId := Some(id));
      UpdateKeepsUsersValid(db.users, i, linked);
      db.users := db.users[i := linked];
    }
  }

  /** The restaurant after an update: the input replaces its listing,
      address and pricing fields. */
  function Updated(r: Restaurant, input: RestaurantInput): Restaurant {
    r.(name := input.name, description := input.description, cuisine := input.cuisine,
       address := input.address, phone := input.phone, email := input.email,
       deliveryFee := input.deliveryFee, minimumOrder := input.minimumOrder,
       estimatedDeliveryTime := input.estimatedDeliveryTime)
  }

  /** An update never touches identity, ownership, approval, rating, the
      open flag, opening hours or images, and applying the same input again
      changes nothing more. */
  lemma UpdatedKeeps(r: Restaurant, input: RestaurantInput)
    ensures var u := Updated(r, input);
      && u.id == r.id && u.ownerId == r.ownerId && u.status == r.status
      && u.rating == r.rating && u.totalReviews == r.totalReviews && u.isOpen == r.isOpen
      && u.openingHours == r.openingHours && u.logo == r.logo && u.coverImage == r.coverImage
      && u.deliveryFee == input.deliveryFee && u.minimumOrder == input.minimumOrder
      && u.estimatedDeliveryTime == input.estimatedDeliveryTime && u.address == input.address
      && Updated(u, input) == u
  {
  }

  /** updateRestaurant: a VENDOR for their own restaurant, or any ADMIN. */
  function RestaurantUpdate(rs: seq<Restaurant>, ctx: Context, id: Id, input: RestaurantInput)
    : (r: Result<Restaurant>)
    ensures r.Ok? <==> (RequireRole(ctx, [Vendor, Admin]).Ok? && 0 <= RestaurantIndex(rs, id)
      && (ctx.user.value.role == Vendor ==> rs[RestaurantIndex(rs, id)].ownerId == ctx.user.value.userId))
    ensures RequireRole(ctx, [Vendor, Admin]).Err? ==> r == Err(RequireRole(ctx, [Vendor, Admin]).error)
    ensures RequireRole(ctx, [Vendor, Admin]).Ok? && RestaurantIndex(rs, id) < 0 ==>
      r == Err(RestaurantNotFound)
    ensures r.Err? && RequireRole(ctx, [Vendor, Admin]).Ok? && 0 <= RestaurantIndex(rs, id) ==>
      r == Err(NotAuthorized)
    ensures r.Ok? ==> r.value == Updated(rs[RestaurantIndex(rs, id)], input)
  {
    match RequireRole(ctx, [Vendor, Admin])
    case Err(e) => Err(e)
    case Ok(user) =>
      var i := RestaurantIndex(rs, id);
      if i < 0 then Err(RestaurantNotFound)
      else if user.role == Vendor && rs[i].ownerId != user.userId then Err(NotAuthorized)
      else Ok(Updated(rs[i], input))
  }

  /** Writes a restaurant back at position `i`, keeping its id, its owner
      and its rating figures. */
  method StoreRestaurantAt(db: Database, i: nat, r: Restaurant)
    requires db.Valid() && i < |db.restaurants|
    requires r.id == db.restaurants[i].id && r.ownerId == db.restaurants[i].ownerId
    requires r.rating == db.restaurants[i].rating && r.totalReviews == db.restaurants[i].totalReviews
    modifies db
    ensures db.Valid()
    ensures db.restaurants == old(db.restaurants)[i := r]
    ensures db.users == old(db.users) && db.menuItems == old(db.menuItems)
    ensures db.orders == old(db.orders) && db.reviews == old(db.reviews)
  {
    UpdateSameKey(db.restaurants, i, r, RestaurantKey);
    UpdateSameKey(db.restaurants, i, r, OwnerKey);
    db.restaurants := db.restaurants[i := r];
  }

  /** updateRestaurant. */
  method UpdateRestaurant(db: Database, ctx: Context, id: Id, input: RestaurantInput)
    returns (r: Result<Restaurant>)
    requires db.Valid()
    modifies db
    ensures db.Valid()
    ensures r == RestaurantUpdate(old(db.restaurants), ctx, id, input)
    ensures r.Ok? ==> db.restaurants == old(db.restaurants)[RestaurantIndex(old(db.restaurants), id) := r.value]
    ensures r.Err? ==> db.restaurants == old(db.restaurants)
    ensures db.users == old(db.users) && db.menuItems == old(db.menuItems)
    ensures db.orders == old(db.orders) && db.reviews == old(db.reviews)
  {
    r := RestaurantUpdate(db.restaurants, ctx, id, input);
    if r.Ok? {
      StoreRestaurantAt(db, RestaurantIndex(db.restaurants, id), r.value);
    }
  }

  /** updateRestaurantStatus: ADMIN only; the restaurant with only its
      status changed, or null for an unknown id. */
  function StatusChange(rs: seq<Restaurant>, ctx: Context, id: Id, status: RestaurantStatus)
    : (r: Result<Option<Restaurant>>)
    ensures r.Ok? <==> RequireRole(ctx, [Admin]).Ok?
    ensures r.Err? ==> r.error == RequireRole(ctx, [Admin]).error
    ensures r.Ok? ==> (r.value.None? <==> RestaurantIndex(rs, id) < 0)
    ensures r.Ok? && r.value.Some? ==> (r.value.value.status == status &&
      r.value.value.(status := rs[RestaurantIndex(rs, id)].status) == rs[RestaurantIndex(rs, id)])
  {
    match RequireRole(ctx, [Admin])
    case Err(e) => Err(e)
    case Ok(_) =>
      var i := RestaurantIndex(rs, id);
      if i < 0 then Ok(None) else Ok(Some(rs[i].(status := status)))
  }

  /** updateRestaurantStatus. */
  method UpdateRestaurantStatus(db: Database, ctx: Context, id: Id, status: RestaurantStatus)
    returns (r: Result<Option<Restaurant>>)
    requires db.Valid()
    modifies db
    ensures db.Valid()
    ensures r == StatusChange(old(db.restaurants), ctx, id, status)
    ensures r.Ok? && r.value.Some? ==>
      db.restaurants == old(db.restaurants)[RestaurantIndex(old(db.restaurants), id) := r.value.value]
    ensures !(r.Ok? && r.value.Some?) ==> db.restaurants == old(db.restaurants)
    ensures db.users == old(db.users) && db.menuItems == old(db.menuItems)
    ensures db.orders == old(db.orders) && db.reviews == old(db.reviews)
  {
    r := StatusChange(db.restaurants, ctx, id, status);
    if r.Ok? && r.value.Some? {
      StoreRestaurantAt(db, RestaurantIndex(db.restaurants, id), r.value.value);
    }
  }

  /** toggleRestaurantOpen: a VENDOR for their own restaurant only; flips
      the open flag. */
  function OpenToggle(rs: seq<Restaurant>, ctx: Context, id: Id): (r: Result<Restaurant>)
    ensures r.Ok? <==> (RequireRole(ctx, [Vendor]).Ok? && 0 <= RestaurantIndex(rs, id)
      && rs[RestaurantIndex(rs, id)].ownerId == ctx.user.value.userId)
    ensures RequireRole(ctx, [Vendor]).Err? ==> r == Err(RequireRole(ctx, [Vendor]).error)
    ensures RequireRole(ctx, [Vendor]).Ok? && RestaurantIndex(rs, id) < 0 ==> r == Err(RestaurantNotFound)
    ensures r.Err? && RequireRole(ctx, [Vendor]).Ok? && 0 <= RestaurantIndex(rs, id) ==> r == Err(NotAuthorized)
    ensures r.Ok? ==> (r.value.isOpen == !rs[RestaurantIndex(rs, id)].isOpen &&
      r.value.(isOpen := rs[RestaurantIndex(rs, id)].isOpen) == rs[RestaurantIndex(rs, id)])
  {
    match RequireRole(ctx, [Vendor])
    case Err(e) => Err(e)
    case Ok(user) =>
      var i := RestaurantIndex(rs, id);
      if i < 0 then Err(RestaurantNotFound)
      else if rs[i].ownerId != user.userId then Err(NotAuthorized)
      else Ok(rs[i].(isOpen := !rs[i].isOpen))
  }

  /** Toggling twice restores the restaurant as it was. */
  lemma ToggleTwiceRestores(rs: seq<Restaurant>, ctx: Context, id: Id)
    requires OpenToggle(rs, ctx, id).Ok?
    ensures var i := RestaurantIndex(rs, id);
      var once := rs[i := OpenToggle(rs, ctx, id).value];
      OpenToggle(once, ctx, id) == Ok(rs[i])
  {
    var i := RestaurantIndex(rs, id);
    var once := rs[i := OpenToggle(rs, ctx, id).value];
    assert forall k :: 0 <= k < i ==> once[k].id != id by {
      forall k | 0 <= k < i ensures once[k].id != id {
        assert once[k] == rs[k];
      }
    }
    assert once[i].id == id;
    var j := RestaurantIndex(once, id);
    assert j == i;
  }

  /** toggleRestaurantOpen. */
  method ToggleRestaurantOpen(db: Database, ctx: Context, id: Id) returns (r: Result<Restaurant>)
    requires db.Valid()
    modifies db
    ensures db.Valid()
    ensures r == OpenToggle(old(db.restaurants), ctx, id)
    ensures r.Ok? ==> db.restaurants == old(db.restaurants)[RestaurantIndex(old(db.restaurants), id) := r.value]
    ensures r.Err? ==> db.restaurants == old(db.restaurants)
    ensures db.users == old(db.users) && db.menuItems == old(db.menuItems)
    ensures db.orders == old(db.orders) && db.reviews == old(db.reviews)
  {
    r := OpenToggle(db.restaurants, ctx, id);
    if r.Ok? {
      StoreRestaurantAt(db, RestaurantIndex(db.restaurants, id), r.value);
    }
  }
}
