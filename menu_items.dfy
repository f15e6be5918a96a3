/** The menu item resolvers (resolvers/menuItemResolvers.ts): the public
    menu queries and a vendor's edits to the menu of the restaurant they
    own. */
module MenuItems {
  import opened Common
  import opened UserModel
  import opened RestaurantModel
  import opened MenuItemModel
  import opened AuthGuard
  import opened Store

  function OnMenuOf(restaurantId: Id): MenuItem -> bool {
    (m: MenuItem) => m.restaurantId == restaurantId
  }

  /** menuItems: public; every item of the restaurant, available or not,
      in stored order. */
  function Menu(items: seq<MenuItem>, restaurantId: Id): (r: seq<MenuItem>)
    ensures forall k :: 0 <= k < |r| ==> r[k] in items && r[k].restaurantId == restaurantId
    ensures forall k :: 0 <= k < |items| && items[k].restaurantId == restaurantId ==> items[k] in r
  {
    Filter(items, OnMenuOf(restaurantId))
  }

  /** menuItem: public; the item with that id, or null. */
  function MenuItemById(items: seq<MenuItem>, id: Id): (r: Option<MenuItem>)
    ensures r.None? <==> forall k :: 0 <= k < |items| ==> items[k].id != id
    ensures r.Some? ==> r.value in items && r.value.id == id
  {
    var i := MenuItemIndex(items, id);
    if i < 0 then None else Some(items[i])
  }

  /** createMenuItem: a VENDOR adding to the restaurant they own; the new
      document must pass the schema validators and take a fresh id. */
  function MenuItemCreation(rs: seq<Restaurant>, items: seq<MenuItem>, ctx: Context,
                            restaurantId: Id, input: MenuItemInput, id: Id): (r: Result<MenuItem>)
    ensures r.Ok? <==> (RequireRole(ctx, [Vendor]).Ok? && OwnedBy(rs, restaurantId, ctx.user.value.userId)
      && MenuItemModel.SchemaValid(NewMenuItem(id, restaurantId, input)) && MenuItemIndex(items, id) < 0)
    ensures RequireRole(ctx, [Vendor]).Err? ==> r == Err(RequireRole(ctx, [Vendor]).error)
    ensures RequireRole(ctx, [Vendor]).Ok? && RestaurantIndex(rs, restaurantId) < 0 ==>
      r == Err(RestaurantNotFound)
    ensures (RequireRole(ctx, [Vendor]).Ok? && 0 <= RestaurantIndex(rs, restaurantId)
      && !OwnedBy(rs, restaurantId, ctx.user.value.userId)) ==> r == Err(NotAuthorized)
    ensures r.Ok? ==> r.value == NewMenuItem(id, restaurantId, input)
  {
    match RequireRole(ctx, [Vendor])
    case Err(e) => Err(e)
    case Ok(user) =>
      var i := RestaurantIndex(rs, restaurantId);
      if i < 0 then Err(RestaurantNotFound)
      else if rs[i].ownerId != user.userId then Err(NotAuthorized)
      else
        var m := NewMenuItem(id, restaurantId, input);
        if !MenuItemModel.SchemaValid(m) then Err(ValidationFailed)
        else if 0 <= MenuItemIndex(items, id) then Err(DuplicateKey)
        else Ok(m)
  }

  /** A created item is on its restaurant's menu from then on. */
  lemma CreatedIsOnMenu(rs: seq<Restaurant>, items: seq<MenuItem>, ctx: Context,
                        restaurantId: Id, input: MenuItemInput, id: Id)
    requires MenuItemCreation(rs, items, ctx, restaurantId, input, id).Ok?
    ensures var m := MenuItemCreation(rs, items, ctx, restaurantId, input, id).value;
      && m in Menu(items + [m], restaurantId)
      && MenuItemById(items + [m], id) == Some(m)
  {
    var m := MenuItemCreation(rs, items, ctx, restaurantId, input, id).value;
    assert (items + [m])[|items|] == m;
    forall k | 0 <= k < |items| ensures (items + [m])[k].id != id {
      assert (items + [m])[k] == items[k];
    }
  }

  /** The guard shared by update, delete and toggle: a VENDOR, an existing
      item, and a restaurant of that item which the vendor owns (a missing
      restaurant is reported as not authorised). On success, the item's
      position. */
  function ItemOwnership(rs: seq<Restaurant>, items: seq<MenuItem>, ctx: Context, id: Id): (r: Result<nat>)
    ensures r.Ok? <==> (RequireRole(ctx, [Vendor]).Ok? && 0 <= MenuItemIndex(items, id)
      && OwnedBy(rs, items[MenuItemIndex(items, id)].restaurantId, ctx.user.value.userId))
    ensures RequireRole(ctx, [Vendor]).Err? ==> r == Err(RequireRole(ctx, [Vendor]).error)
    ensures RequireRole(ctx, [Vendor]).Ok? && MenuItemIndex(items, id) < 0 ==> r == Err(MenuItemNotFound)
    ensures RequireRole(ctx, [Vendor]).Ok? && 0 <= MenuItemIndex(items, id) && r.Err? ==> r == Err(NotAuthorized)
    ensures r.Ok? ==> r.value == MenuItemIndex(items, id)
  {
    match RequireRole(ctx, [Vendor])
    case Err(e) => Err(e)
    case Ok(user) =>
      var i := MenuItemIndex(items, id);
      if i < 0 then Err(MenuItemNotFound)
      else if !OwnedBy(rs, items[i].restaurantId, user.userId) then Err(NotAuthorized)
      else Ok(i)
  }

  /** updateMenuItem: the item with the input applied. */
  function MenuItemUpdate(rs: seq<Restaurant>, items: seq<MenuItem>, ctx: Context, id: Id,
                          input: MenuItemInput): (r: Result<MenuItem>)
    ensures r.Ok? <==> ItemOwnership(rs, items, ctx, id).Ok?
    ensures r.Err? ==> r.error == ItemOwnership(rs, items, ctx, id).error
    ensures r.Ok? ==> r.value == Updated(items[MenuItemIndex(items, id)], input)
  {
    match ItemOwnership(rs, items, ctx, id)
    case Err(e) => Err(e)
    case Ok(i) => Ok(Updated(items[i], input))
  }

  /** toggleMenuItemAvailability: the item with its availability flipped. */
  function AvailabilityToggle(rs: seq<Restaurant>, items: seq<MenuItem>, ctx: Context, id: Id)
    : (r: Result<MenuItem>)
    ensures r.Ok? <==> ItemOwnership(rs, items, ctx, id).Ok?
    ensures r.Err? ==> r.error == ItemOwnership(rs, items, ctx, id).error
    ensures r.Ok? ==> (r.value.isAvailable == !items[MenuItemIndex(items, id)].isAvailable
      && r.value.(isAvailable := items[MenuItemIndex(items, id)].isAvailable) == items[MenuItemIndex(items, id)])
  {
    match ItemOwnership(rs, items, ctx, id)
    case Err(e) => Err(e)
    case Ok(i) => Ok(items[i].(isAvailable := !items[i].isAvailable))
  }

  /** Toggling twice restores the item as it was. */
  lemma ToggleTwiceRestores(rs: seq<Restaurant>, items: seq<MenuItem>, ctx: Context, id: Id)
    requires AvailabilityToggle(rs, items, ctx, id).Ok?
    ensures var i := MenuItemIndex(items, id);
      var once := items[i := AvailabilityToggle(rs, items, ctx, id).value];
      AvailabilityToggle(rs, once, ctx, id) == Ok(items[i])
  {
    var i := MenuItemIndex(items, id);
    var once := items[i := AvailabilityToggle(rs, items, ctx, id).value];
    assert forall k :: 0 <= k < i ==> once[k].id != id by {
      forall k | 0 <= k < i ensures once[k].id != id {
        assert once[k] == items[k];
      }
    }
    assert once[i].id == id;
    var j := MenuItemIndex(once, id);
    assert j == i;
  }

  /** deleteMenuItem: true once the caller may delete the item. */
  function MenuItemDeletion(rs: seq<Restaurant>, items: seq<MenuItem>, ctx: Context, id: Id)
    : (r: Result<bool>)
    ensures r.Ok? <==> ItemOwnership(rs, items, ctx, id).Ok?
    ensures r.Err? ==> r.error == ItemOwnership(rs, items, ctx, id).error
    ensures r.Ok? ==> r.value
  {
    match ItemOwnership(rs, items, ctx, id)
    case Err(e) => Err(e)
    case Ok(_) => Ok(true)
  }

  /** In a valid collection, deleting the item found by id leaves no item
      with that id and every other item in place. */
  lemma DeletedIsGone(items: seq<MenuItem>, i: nat)
    requires MenuItemsValid(items) && i < |items|
    ensures var rest := items[..i] + items[i + 1..];
      && MenuItemById(rest, items[i].id).None?
      && |rest| == |items| - 1
      && (forall k :: 0 <= k < |items| && k != i ==> items[k] in rest)
  {
    var rest := items[..i] + items[i + 1..];
    forall k | 0 <= k < |rest| ensures rest[k].id != items[i].id {
      if k < i {
        assert rest[k] == items[k];
      } else {
        assert rest[k] == items[k + 1];
      }
    }
    forall k | 0 <= k < |items| && k != i ensures items[k] in rest {
      if k < i {
        assert rest[k] == items[k];
      } else {
        assert rest[k - 1] == items[k];
      }
    }
  }

  /** Writes a menu item back at position `i`, keeping its id. */
  method StoreMenuItemAt(db: Database, i: nat, m: MenuItem)
    requires db.Valid() && i < |db.menuItems| && m.id == db.menuItems[i].id
    modifies db
    ensures db.Valid()
    ensures db.menuItems == old(db.menuItems)[i := m]
    ensures db.users == old(db.users) && db.restaurants == old(db.restaurants)
    ensures db.orders == old(db.orders) && db.reviews == old(db.reviews)
  {
    UpdateSameKey(db.menuItems, i, m, MenuItemKey);
    db.menuItems := db.menuItems[i := m];
  }

  /** createMenuItem. */
  method CreateMenuItem(db: Database, ctx: Context, restaurantId: Id, input: MenuItemInput, id: Id)
    returns (r: Result<MenuItem>)
    requires db.Valid()
    modifies db
    ensures db.Valid()
    ensures r == MenuItemCreation(old(db.restaurants), old(db.menuItems), ctx, restaurantId, input, id)
    ensures r.Ok? ==> db.menuItems == old(db.menuItems) + [r.value]
    ensures r.Err? ==> db.menuItems == old(db.menuItems)
    ensures db.users == old(db.users) && db.restaurants == old(db.restaurants)
    ensures db.orders == old(db.orders) && db.reviews == old(db.reviews)
  {
    r := MenuItemCreation(db.restaurants, db.menuItems, ctx, restaurantId, input, id);
    if r.Ok? {
      AppendFreshKey(db.menuItems, r.value, MenuItemKey);
      db.menuItems := db.menuItems + [r.value];
    }
  }

  /** updateMenuItem. */
  method UpdateMenuItem(db: Database, ctx: Context, id: Id, input: MenuItemInput)
    returns (r: Result<MenuItem>)
    requires db.Valid()
    modifies db
    ensures db.Valid()
    ensures r == MenuItemUpdate(old(db.restaurants), old(db.menuItems), ctx, id, input)
    ensures r.Ok? ==> db.menuItems == old(db.menuItems)[MenuItemIndex(old(db.menuItems), id) := r.value]
    ensures r.Err? ==> db.menuItems == old(db.menuItems)
    ensures db.users == old(db.users) && db.restaurants == old(db.restaurants)
    ensures db.orders == old(db.orders) && db.reviews == old(db.reviews)
  {
    r := MenuItemUpdate(db.restaurants, db.menuItems, ctx, id, input);
    if r.Ok? {
      StoreMenuItemAt(db, MenuItemIndex(db.menuItems, id), r.value);
    }
  }

  /** toggleMenuItemAvailability. */
  method ToggleMenuItemAvailability(db: Database, ctx: Context, id: Id) returns (r: Result<MenuItem>)
    requires db.Valid()
    modifies db
    ensures db.Valid()
    ensures r == AvailabilityToggle(old(db.restaurants), old(db.menuItems), ctx, id)
    ensures r.Ok? ==> db.menuItems == old(db.menuItems)[MenuItemIndex(old(db.menuItems), id) := r.value]
    ensures r.Err? ==> db.menuItems == old(db.menuItems)
    ensures db.users == old(db.users) && db.restaurants == old(db.restaurants)
    ensures db.orders == old(db.orders) && db.reviews == old(db.reviews)
  {
    r := AvailabilityToggle(db.restaurants, db.menuItems, ctx, id);
    if r.Ok? {
      StoreMenuItemAt(db, MenuItemIndex(db.menuItems, id), r.value);
    }
  }

  /** deleteMenuItem: removes the item and answers true. */
  method DeleteMenuItem(db: Database, ctx: Context, id: Id) returns (r: Result<bool>)
    requires db.Valid()
    modifies db
    ensures db.Valid()
    ensures r == MenuItemDeletion(old(db.restaurants), old(db.menuItems), ctx, id)
    ensures r.Ok? ==> var i := MenuItemIndex(old(db.menuItems), id);
      db.menuItems == old(db.menuItems)[..i] + old(db.menuItems)[i + 1..]
    ensures r.Err? ==> db.menuItems == old(db.menuItems)
    ensures db.users == old(db.users) && db.restaurants == old(db.restaurants)
    ensures db.orders == old(db.orders) && db.reviews == old(db.reviews)
  {
    r := MenuItemDeletion(db.restaurants, db.menuItems, ctx, id);
    if r.Ok? {
      var i := MenuItemIndex(db.menuItems, id);
      RemoveAtKeepsKeys(db.menuItems, i, MenuItemKey);
      db.menuItems := db.menuItems[..i] + db.menuItems[i + 1..];
    }
  }
}
