/** The order engine (resolvers/orderResolvers.ts): checkout with its
    snapshot and pricing, the order queries, role-gated status updates,
    rider assignment and acceptance, and cancellation. Each mutation is a
    pure decision over the collections (which error, or which new document)
    and a method that performs the write on the store. */
module Orders {
  import opened Common
  import opened UserModel
  import opened RestaurantModel
  import opened MenuItemModel
  import opened OrderModel
  import opened AuthGuard
  import opened Store

  datatype OrderItemInput = OrderItemInput(
    menuItemId: Id, quantity: int, specialInstructions: Option<string>)

  datatype CreateOrderInput = CreateOrderInput(
    restaurantId: Id, items: seq<OrderItemInput>, paymentMethod: PaymentMethod,
    addressId: Id, specialInstructions: Option<string>)

  /** The fixed tax rate: 10% of the subtotal. */
  function Tax(subtotal: real): real {
    subtotal * 0.1
  }

  const MillisPerMinute: int := 60000

  // ---------------------------------------------------------------------
  // Checkout

  /** Array.find over a customer's saved addresses. */
  function AddressIndex(addresses: seq<Address>, id: Id): (i: int)
    ensures -1 <= i < |addresses|
    ensures i == -1 <==> forall k :: 0 <= k < |addresses| ==> addresses[k].id != id
    ensures 0 <= i ==> addresses[i].id == id
  {
    FirstIndex(addresses, (a: Address) => a.id == id)
  }

  /** The check checkout applies to one requested item: it must exist and
      be available. Which restaurant it belongs to is not looked at. */
  function ItemCheck(menu: seq<MenuItem>, item: OrderItemInput): (r: Result<MenuItem>)
    ensures r.Ok? ==> r.value.id == item.menuItemId && r.value.isAvailable
    ensures r.Err? ==> r.error == MenuItemMissing(item.menuItemId) || r.error.ItemNotAvailable?
  {
    var i := MenuItemIndex(menu, item.menuItemId);
    if i < 0 then Err(MenuItemMissing(item.menuItemId))
    else if !menu[i].isAvailable then Err(ItemNotAvailable(menu[i].name))
    else Ok(menu[i])
  }

  /** The position of the first requested item, in input order, that fails
      its check, or -1. */
  function FirstBadItem(menu: seq<MenuItem>, items: seq<OrderItemInput>): int {
    FirstIndex(items, (it: OrderItemInput) => ItemCheck(menu, it).Err?)
  }

  /** The first failing item is the one after a run of passing items. */
  lemma FirstBadItemAt(menu: seq<MenuItem>, items: seq<OrderItemInput>, i: nat)
    requires i < |items| && ItemCheck(menu, items[i]).Err?
    requires forall k :: 0 <= k < i ==> ItemCheck(menu, items[k]).Ok?
    ensures FirstBadItem(menu, items) == i
  {
    assert ((it: OrderItemInput) => ItemCheck(menu, it).Err?)(items[i]);
  }

  /** With every item passing, there is no first failing item. */
  lemma NoBadItem(menu: seq<MenuItem>, items: seq<OrderItemInput>)
    requires forall k :: 0 <= k < |items| ==> ItemCheck(menu, items[k]).Ok?
    ensures FirstBadItem(menu, items) == -1
  {
    forall k | 0 <= k < |items|
      ensures !((it: OrderItemInput) => ItemCheck(menu, it).Err?)(items[k])
    {
      assert ItemCheck(menu, items[k]).Ok?;
    }
  }

  /** The line recorded for a requested item: the menu item's current
      name and price, the requested quantity and note. */
  function LineFor(m: MenuItem, item: OrderItemInput): OrderLine {
    OrderLine(m.id, m.name, m.price, item.quantity, item.specialInstructions)
  }

  /** The lines of an order whose items all pass their check, in input order. */
  function Lines(menu: seq<MenuItem>, items: seq<OrderItemInput>): (lines: seq<OrderLine>)
    requires forall k :: 0 <= k < |items| ==> ItemCheck(menu, items[k]).Ok?
    ensures |lines| == |items|
  {
    seq(|items|, k requires 0 <= k < |items| => LineFor(ItemCheck(menu, items[k]).value, items[k]))
  }

  /** A sequence agreeing with Lines item by item is Lines. */
  lemma LinesPointwise(menu: seq<MenuItem>, items: seq<OrderItemInput>, lines: seq<OrderLine>)
    requires forall k :: 0 <= k < |items| ==> ItemCheck(menu, items[k]).Ok?
    requires |lines| == |items|
    requires forall k :: 0 <= k < |items| ==> lines[k] == LineFor(ItemCheck(menu, items[k]).value, items[k])
    ensures lines == Lines(menu, items)
  {
  }

  datatype Priced = Priced(lines: seq<OrderLine>, subtotal: real)

  /** The lines of the first `i` items, all of which pass their check. */
  ghost predicate LinesSoFar(menu: seq<MenuItem>, items: seq<OrderItemInput>, lines: seq<OrderLine>, i: nat) {
    && i <= |items| && |lines| == i
    && (forall k :: 0 <= k < i ==> ItemCheck(menu, items[k]).Ok?)
    && (forall k :: 0 <= k < i ==> lines[k] == LineFor(ItemCheck(menu, items[k]).value, items[k]))
  }

  /** One more passing item extends the lines by its snapshot. */
  lemma LinesSoFarStep(menu: seq<MenuItem>, items: seq<OrderItemInput>, lines: seq<OrderLine>, i: nat)
    requires LinesSoFar(menu, items, lines, i) && i < |items| && ItemCheck(menu, items[i]).Ok?
    ensures LinesSoFar(menu, items, lines + [LineFor(ItemCheck(menu, items[i]).value, items[i])], i + 1)
  {
  }

  /** The checkout loop: walks the requested items in order, stops at the
      first one that is missing or unavailable, and otherwise snapshots
      every item while accumulating the subtotal. */
  method PriceItems(menu: seq<MenuItem>, items: seq<OrderItemInput>) returns (r: Result<Priced>)
    ensures r.Err? <==> FirstBadItem(menu, items) >= 0
    ensures r.Err? ==> r.error == ItemCheck(menu, items[FirstBadItem(menu, items)]).error
    ensures r.Ok? ==> r.value.lines == Lines(menu, items)
    ensures r.Ok? ==> r.value.subtotal == Subtotal(r.value.lines)
  {
    var subtotal := 0.0;
    var lines: seq<OrderLine> := [];
    var i := 0;
    while i < |items|
      invariant LinesSoFar(menu, items, lines, i)
      invariant subtotal == Subtotal(lines)
    {
      var check := ItemCheck(menu, items[i]);
      if check.Err? {
        FirstBadItemAt(menu, items, i);
        return Err(check.error);
      }
      var line := LineFor(check.value, items[i]);
      LinesSoFarStep(menu, items, lines, i);
      SubtotalSnoc(lines, line);
      subtotal := subtotal + LineTotal(line);
      lines := lines + [line];
      i := i + 1;
    }
    NoBadItem(menu, items);
    LinesPointwise(menu, items, lines);
    return Ok(Priced(lines, subtotal));
  }

  /** What the checkout loop computes: the first failing item's error, or
      the snapshot lines and their subtotal. */
  function Pricing(menu: seq<MenuItem>, items: seq<OrderItemInput>): (r: Result<Priced>)
    ensures r.Ok? <==> forall k :: 0 <= k < |items| ==> ItemCheck(menu, items[k]).Ok?
    ensures r.Err? ==> exists k :: 0 <= k < |items| && ItemCheck(menu, items[k]) == Err(r.error)
    ensures r.Err? ==> 0 <= FirstBadItem(menu, items)
                       && r.error == ItemCheck(menu, items[FirstBadItem(menu, items)]).error
    ensures r.Ok? ==> |r.value.lines| == |items|
  {
    var bad := FirstBadItem(menu, items);
    if bad >= 0 then Err(ItemCheck(menu, items[bad]).error)
    else
      var lines := Lines(menu, items);
      Ok(Priced(lines, Subtotal(lines)))
  }

  /** The order document checkout builds once the minimum is met: the
      restaurant's fee, the tax, their total, the chosen address copied in,
      and the estimated delivery time in milliseconds. */
  function Placement(user: Identity, a: Address, r: Restaurant, input: CreateOrderInput, p: Priced,
                     orderId: Id, orderNumber: string, now: int): Order {
    NewOrder(orderId, orderNumber, user.userId, input.restaurantId, p.lines, p.subtotal,
             r.deliveryFee, Tax(p.subtotal), p.subtotal + r.deliveryFee + Tax(p.subtotal),
             input.paymentMethod, Location(a.street, a.city, a.state, a.zipCode, a.coordinates),
             input.specialInstructions, now + r.estimatedDeliveryTime * MillisPerMinute)
  }

  /** Model.create for an order: the schema validators run first, then the
      unique index on the order number. */
  function Insertion(orders: seq<Order>, order: Order): (r: Result<Order>)
    ensures r.Ok? <==> OrderModel.SchemaValid(order)
                       && forall k :: 0 <= k < |orders| ==> orders[k].orderNumber != order.orderNumber
    ensures r.Ok? ==> r.value == order
    ensures !OrderModel.SchemaValid(order) ==> r == Err(ValidationFailed)
    ensures OrderModel.SchemaValid(order) && r.Err? ==> r == Err(DuplicateKey)
  {
    if !OrderModel.SchemaValid(order) then Err(ValidationFailed)
    else if exists k | 0 <= k < |orders| :: orders[k].orderNumber == order.orderNumber then
      Err(DuplicateKey)
    else Ok(order)
  }

  /** The saved address an order is delivered to: the customer must have
      at least one, and the id must be one of theirs. */
  function DeliveryAddress(users: seq<User>, customerId: Id, addressId: Id): (r: Result<Address>)
    ensures var ci := UserIndex(users, customerId);
      && (ci < 0 || users[ci].addresses == [] ==> r == Err(NoDeliveryAddress))
      && (0 <= ci && users[ci].addresses != [] && AddressIndex(users[ci].addresses, addressId) < 0
          ==> r == Err(AddressNotFound))
      && (r.Ok? <==> 0 <= ci && 0 <= AddressIndex(users[ci].addresses, addressId))
      && (r.Ok? ==> r.value == users[ci].addresses[AddressIndex(users[ci].addresses, addressId)])
  {
    var ci := UserIndex(users, customerId);
    if ci < 0 || |users[ci].addresses| == 0 then Err(NoDeliveryAddress)
    else
      var ai := AddressIndex(users[ci].addresses, addressId);
      if ai < 0 then Err(AddressNotFound) else Ok(users[ci].addresses[ai])
  }

  /** The restaurant an order goes to: it must exist, be approved and be
      open. */
  function OpenRestaurant(restaurants: seq<Restaurant>, id: Id): (r: Result<Restaurant>)
    ensures var ri := RestaurantIndex(restaurants, id);
      && (ri < 0 ==> r == Err(RestaurantNotFound))
      && (0 <= ri && (restaurants[ri].status != Approved || !restaurants[ri].isOpen)
          ==> r == Err(RestaurantNotAvailable))
      && (r.Ok? <==> 0 <= ri && restaurants[ri].status == Approved && restaurants[ri].isOpen)
      && (r.Ok? ==> r.value == restaurants[ri])
  {
    var ri := RestaurantIndex(restaurants, id);
    if ri < 0 then Err(RestaurantNotFound)
    else if restaurants[ri].status != Approved || !restaurants[ri].isOpen then Err(RestaurantNotAvailable)
    else Ok(restaurants[ri])
  }

  /** The last steps of checkout once address and restaurant are settled:
      the items, the minimum, the insert. */
  function Placed(menu: seq<MenuItem>, orders: seq<Order>, user: Identity, a: Address, r: Restaurant,
                  input: CreateOrderInput, orderId: Id, orderNumber: string, now: int): Result<Order>
  {
    match Pricing(menu, input.items)
    case Err(e) => Err(e)
    case Ok(p) =>
      if p.subtotal < r.minimumOrder then Err(BelowMinimum(r.minimumOrder, p.subtotal))
      else Insertion(orders, Placement(user, a, r, input, p, orderId, orderNumber, now))
  }

  /** createOrder as a decision over the collections: the new order, or the
      first check that fails. The order id and order number are generated
      outside; `now` is the current time in milliseconds. */
  function Checkout(users: seq<User>, restaurants: seq<Restaurant>, menu: seq<MenuItem>,
                    orders: seq<Order>, ctx: Context, input: CreateOrderInput,
                    orderId: Id, orderNumber: string, now: int): Result<Order>
  {
    match RequireRole(ctx, [Customer])
    case Err(e) => Err(e)
    case Ok(user) =>
      match DeliveryAddress(users, user.userId, input.addressId)
      case Err(e) => Err(e)
      case Ok(a) =>
        match OpenRestaurant(restaurants, input.restaurantId)
        case Err(e) => Err(e)
        case Ok(r) => Placed(menu, orders, user, a, r, input, orderId, orderNumber, now)
  }

  /** Checkout refuses, before looking at any item, a customer with no
      saved address, an address id that is not theirs, and a restaurant
      that is missing, not approved or closed. */
  lemma CheckoutEarlyRefusals(users: seq<User>, restaurants: seq<Restaurant>, menu: seq<MenuItem>,
                              orders: seq<Order>, ctx: Context, input: CreateOrderInput,
                              orderId: Id, orderNumber: string, now: int)
    requires ctx.user.Some? && ctx.user.value.role == Customer
    ensures var ci := UserIndex(users, ctx.user.value.userId);
      var r := Checkout(users, restaurants, menu, orders, ctx, input, orderId, orderNumber, now);
      && (ci < 0 || users[ci].addresses == [] ==> r == Err(NoDeliveryAddress))
      && (0 <= ci && users[ci].addresses != [] && AddressIndex(users[ci].addresses, input.addressId) < 0
          ==> r == Err(AddressNotFound))
      && (0 <= ci && 0 <= AddressIndex(users[ci].addresses, input.addressId) ==>
          var ri := RestaurantIndex(restaurants, input.restaurantId);
          && (ri < 0 ==> r == Err(RestaurantNotFound))
          && (0 <= ri && (restaurants[ri].status != Approved || !restaurants[ri].isOpen)
              ==> r == Err(RestaurantNotAvailable)))
  {
  }

  /** What a successful checkout records: one line per requested item, in
      input order, snapshotting the item's name and price; the subtotal is
      their sum and reaches the minimum; the fee is the restaurant's, the
      tax a tenth of the subtotal, the total their sum; the order starts
      PENDING and unpaid with no rider, due the restaurant's delivery time
      after `now`. */
  lemma {:induction false} CheckoutSuccess(users: seq<User>, restaurants: seq<Restaurant>,
                                           menu: seq<MenuItem>, orders: seq<Order>, ctx: Context,
                                           input: CreateOrderInput, orderId: Id,
                                           orderNumber: string, now: int)
    requires Checkout(users, restaurants, menu, orders, ctx, input, orderId, orderNumber, now).Ok?
    ensures var o := Checkout(users, restaurants, menu, orders, ctx, input, orderId, orderNumber, now).value;
      var ri := RestaurantIndex(restaurants, input.restaurantId);
      && ctx.user.Some? && ctx.user.value.role == Customer && o.customerId == ctx.user.value.userId
      && (var ci := UserIndex(users, ctx.user.value.userId);
          && 0 <= ci && 0 <= AddressIndex(users[ci].addresses, input.addressId)
          && (var a := users[ci].addresses[AddressIndex(users[ci].addresses, input.addressId)];
              o.deliveryAddress == Location(a.street, a.city, a.state, a.zipCode, a.coordinates)))
      && o.paymentMethod == input.paymentMethod && o.specialInstructions == input.specialInstructions
      && o.actualDeliveryTime.None?
      && 0 <= ri && restaurants[ri].status == Approved && restaurants[ri].isOpen
      && |o.items| == |input.items|
      && (forall k :: 0 <= k < |input.items| ==>
            var mi := MenuItemIndex(menu, input.items[k].menuItemId);
            && 0 <= mi && menu[mi].isAvailable
            && o.items[k] == OrderLine(menu[mi].id, menu[mi].name, menu[mi].price,
                                       input.items[k].quantity, input.items[k].specialInstructions))
      && o.subtotal == Subtotal(o.items) && o.subtotal >= restaurants[ri].minimumOrder
      && o.deliveryFee == restaurants[ri].deliveryFee
      && o.tax == o.subtotal / 10.0
      && o.total == o.subtotal + o.deliveryFee + o.tax
      && o.status == OrderStatus.Pending && o.paymentStatus == Unpaid && o.riderId.None?
      && o.id == orderId && o.orderNumber == orderNumber && OrderModel.SchemaValid(o)
      && o.restaurantId == input.restaurantId
      && o.estimatedDeliveryTime == Some(now + restaurants[ri].estimatedDeliveryTime * MillisPerMinute)
  {
    assert FirstBadItem(menu, input.items) == -1;
    forall k | 0 <= k < |input.items|
      ensures ItemCheck(menu, input.items[k]).Ok?
    {
      assert !(ItemCheck(menu, input.items[k]).Err?);
    }
    LinesSnapshot(menu, input.items);
  }

  /** Each line snapshots the available menu item its request names. */
  lemma LinesSnapshot(menu: seq<MenuItem>, items: seq<OrderItemInput>)
    requires forall k :: 0 <= k < |items| ==> ItemCheck(menu, items[k]).Ok?
    ensures forall k :: 0 <= k < |items| ==>
      var mi := MenuItemIndex(menu, items[k].menuItemId);
      && 0 <= mi && menu[mi].isAvailable
      && Lines(menu, items)[k] == OrderLine(menu[mi].id, menu[mi].name, menu[mi].price,
                                            items[k].quantity, items[k].specialInstructions)
  {
  }

  /** An item that fails its check aborts checkout with that item's error
      unless an earlier item already failed; no later item is looked at. */
  lemma CheckoutStopsAtFirstBadItem(users: seq<User>, restaurants: seq<Restaurant>,
                                    menu: seq<MenuItem>, orders: seq<Order>, ctx: Context,
                                    input: CreateOrderInput, orderId: Id, orderNumber: string,
                                    now: int, k: nat)
    requires k < |input.items| && ItemCheck(menu, input.items[k]).Err?
    requires forall j :: 0 <= j < k ==> ItemCheck(menu, input.items[j]).Ok?
    ensures var r := Checkout(users, restaurants, menu, orders, ctx, input, orderId, orderNumber, now);
      r.Err? && (r.error.MenuItemMissing? || r.error.ItemNotAvailable? ==>
                 r.error == ItemCheck(menu, input.items[k]).error)
  {
    FirstBadItemAt(menu, input.items, k);
    var bad := ItemCheck(menu, input.items[k]).error;
    assert Pricing(menu, input.items) == Err(bad);
    match RequireRole(ctx, [Customer])
    case Err(e) =>
    case Ok(user) =>
      match DeliveryAddress(users, user.userId, input.addressId)
      case Err(e) =>
      case Ok(a) =>
        match OpenRestaurant(restaurants, input.restaurantId)
        case Err(e) =>
        case Ok(rr) =>
          assert Placed(menu, orders, user, a, rr, input, orderId, orderNumber, now) == Err(bad);
  }

  /** The minimum is inclusive: a subtotal strictly below it is refused,
      one equal to it passes that check. */
  lemma {:induction false} CheckoutMinimum(users: seq<User>, restaurants: seq<Restaurant>,
                                           menu: seq<MenuItem>, orders: seq<Order>, ctx: Context,
                                           input: CreateOrderInput, orderId: Id,
                                           orderNumber: string, now: int)
    requires forall k :: 0 <= k < |input.items| ==> ItemCheck(menu, input.items[k]).Ok?
    ensures var r := Checkout(users, restaurants, menu, orders, ctx, input, orderId, orderNumber, now);
      var ri := RestaurantIndex(restaurants, input.restaurantId);
      var subtotal := Subtotal(Lines(menu, input.items));
      && (r.Err? && r.error.BelowMinimum? ==>
            0 <= ri && r.error == BelowMinimum(restaurants[ri].minimumOrder, subtotal)
            && subtotal < restaurants[ri].minimumOrder)
      && (r.Ok? ==> 0 <= ri && subtotal >= restaurants[ri].minimumOrder)
      && (RequireRole(ctx, [Customer]).Ok?
          && DeliveryAddress(users, ctx.user.value.userId, input.addressId).Ok?
          && OpenRestaurant(restaurants, input.restaurantId).Ok?
          && subtotal < restaurants[ri].minimumOrder
          ==> r == Err(BelowMinimum(restaurants[ri].minimumOrder, subtotal)))
  {
    NoBadItem(menu, input.items);
    var lines := Lines(menu, input.items);
    assert Pricing(menu, input.items) == Ok(Priced(lines, Subtotal(lines)));
    match RequireRole(ctx, [Customer])
    case Err(e) =>
    case Ok(user) =>
      match DeliveryAddress(users, user.userId, input.addressId)
      case Err(e) =>
      case Ok(a) =>
        match OpenRestaurant(restaurants, input.restaurantId)
        case Err(e) =>
        case Ok(rr) =>
          PlacedMinimum(menu, orders, user, a, rr, input, orderId, orderNumber, now);
  }

  /** The minimum check of the last checkout steps, for an order whose items
      all pass. */
  lemma PlacedMinimum(menu: seq<MenuItem>, orders: seq<Order>, user: Identity, a: Address,
                      rr: Restaurant, input: CreateOrderInput, orderId: Id, orderNumber: string,
                      now: int)
    requires Pricing(menu, input.items).Ok?
    ensures var r := Placed(menu, orders, user, a, rr, input, orderId, orderNumber, now);
      var subtotal := Pricing(menu, input.items).value.subtotal;
      && (r.Err? && r.error.BelowMinimum? ==>
            r.error == BelowMinimum(rr.minimumOrder, subtotal) && subtotal < rr.minimumOrder)
      && (r.Ok? ==> subtotal >= rr.minimumOrder)
  {
  }

  /** A successful checkout appended to a valid order collection, under an
      id not yet used, leaves it valid. */
  lemma CheckoutKeepsOrdersValid(users: seq<User>, restaurants: seq<Restaurant>,
                                 menu: seq<MenuItem>, orders: seq<Order>, ctx: Context,
                                 input: CreateOrderInput, orderId: Id, orderNumber: string, now: int)
    requires OrdersValid(orders)
    requires forall k :: 0 <= k < |orders| ==> orders[k].id != orderId
    requires Checkout(users, restaurants, menu, orders, ctx, input, orderId, orderNumber, now).Ok?
    ensures OrdersValid(orders + [Checkout(users, restaurants, menu, orders, ctx, input,
                                           orderId, orderNumber, now).value])
  {
    var o := Checkout(users, restaurants, menu, orders, ctx, input, orderId, orderNumber, now).value;
    AppendKeepsOrdersValid(orders, o);
  }

  /** The checks of createOrder in the order the resolver makes them, ending
      in the document to insert. */
  method PrepareOrder(users: seq<User>, restaurants: seq<Restaurant>, menu: seq<MenuItem>,
                      orders: seq<Order>, ctx: Context, input: CreateOrderInput, orderId: Id,
                      orderNumber: string, now: int) returns (r: Result<Order>)
    ensures r == Checkout(users, restaurants, menu, orders, ctx, input, orderId, orderNumber, now)
  {
    var auth := RequireRole(ctx, [Customer]);
    if auth.Err? {
      return Err(auth.error);
    }
    var user := auth.value;
    var ci := UserIndex(users, user.userId);
    if ci < 0 || |users[ci].addresses| == 0 {
      return Err(NoDeliveryAddress);
    }
    var ai := AddressIndex(users[ci].addresses, input.addressId);
    if ai < 0 {
      return Err(AddressNotFound);
    }
    var address := users[ci].addresses[ai];
    assert DeliveryAddress(users, user.userId, input.addressId) == Ok(address);
    var ri := RestaurantIndex(restaurants, input.restaurantId);
    if ri < 0 {
      return Err(RestaurantNotFound);
    }
    var restaurant := restaurants[ri];
    if restaurant.status != Approved || !restaurant.isOpen {
      return Err(RestaurantNotAvailable);
    }
    assert OpenRestaurant(restaurants, input.restaurantId) == Ok(restaurant);
    r := PlaceOrder(menu, orders, user, address, restaurant, input, orderId, orderNumber, now);
  }

  /** The rest of createOrder: the loop over the items (PriceItems), the
      minimum, then the document checked by the schema and the unique index. */
  method PlaceOrder(menu: seq<MenuItem>, orders: seq<Order>, user: Identity, address: Address,
                    restaurant: Restaurant, input: CreateOrderInput, orderId: Id,
                    orderNumber: string, now: int) returns (r: Result<Order>)
    ensures r == Placed(menu, orders, user, address, restaurant, input, orderId, orderNumber, now)
  {
    var priced := PriceItems(menu, input.items);
    if priced.Err? {
      return Err(priced.error);
    }
    var subtotal := priced.value.subtotal;
    if subtotal < restaurant.minimumOrder {
      return Err(BelowMinimum(restaurant.minimumOrder, subtotal));
    }
    var order := Placement(user, address, restaurant, input, priced.value, orderId, orderNumber, now);
    if !OrderModel.SchemaValid(order) {
      return Err(ValidationFailed);
    }
    if exists k | 0 <= k < |orders| :: orders[k].orderNumber == orderNumber {
      return Err(DuplicateKey);
    }
    return Ok(order);
  }

  /** createOrder: every check happens before the single insert, so a
      refused checkout writes nothing. */
  method CreateOrder(db: Database, ctx: Context, input: CreateOrderInput, orderId: Id,
                     orderNumber: string, now: int) returns (r: Result<Order>)
    requires db.Valid()
    requires forall k :: 0 <= k < |db.orders| ==> db.orders[k].id != orderId
    modifies db
    ensures db.Valid()
    ensures r == Checkout(old(db.users), old(db.restaurants), old(db.menuItems), old(db.orders),
                          ctx, input, orderId, orderNumber, now)
    ensures db.orders == if r.Ok? then old(db.orders) + [r.value] else old(db.orders)
    ensures db.users == old(db.users) && db.restaurants == old(db.restaurants)
    ensures db.menuItems == old(db.menuItems) && db.reviews == old(db.reviews)
  {
    r := PrepareOrder(db.users, db.restaurants, db.menuItems, db.orders, ctx, input,
                      orderId, orderNumber, now);
    if r.Ok? {
      CheckoutKeepsOrdersValid(db.users, db.restaurants, db.menuItems, db.orders, ctx, input,
                               orderId, orderNumber, now);
      db.orders := db.orders + [r.value];
    }
  }

  // ---------------------------------------------------------------------
  // Queries

  /** orders: ADMIN only, optionally narrowed to one status. */
  function AllOrders(ctx: Context, orders: seq<Order>, status: Option<OrderStatus>): (r: Result<seq<Order>>)
    ensures r.Ok? <==> RequireRole(ctx, [Admin]).Ok?
    ensures r.Err? ==> r.error == RequireRole(ctx, [Admin]).error
    ensures r.Ok? ==> forall o :: o in r.value <==> o in orders && (status.Some? ==> o.status == status.value)
  {
    match RequireRole(ctx, [Admin])
    case Err(e) => Err(e)
    case Ok(_) =>
      if status.None? then
        FilterKeepsAll(orders, (o: Order) => true);
        Ok(Filter(orders, (o: Order) => true))
      else Ok(Filter(orders, (o: Order) => o.status == status.value))
  }

  /** myOrders: the caller's own orders as customer. */
  function MyOrders(ctx: Context, orders: seq<Order>): (r: Result<seq<Order>>)
    ensures r.Ok? <==> ctx.user.Some?
    ensures r.Err? ==> r.error == AuthenticationRequired
    ensures r.Ok? ==> forall o :: o in r.value <==> o in orders && o.customerId == ctx.user.value.userId
  {
    match RequireAuth(ctx)
    case Err(e) => Err(e)
    case Ok(user) => Ok(Filter(orders, (o: Order) => o.customerId == user.userId))
  }

  /** restaurantOrders: a VENDOR's view of the orders of a restaurant they
      own, optionally narrowed to one status. */
  function RestaurantOrders(ctx: Context, restaurants: seq<Restaurant>, orders: seq<Order>,
                            restaurantId: Id, status: Option<OrderStatus>): (r: Result<seq<Order>>)
    ensures r.Ok? <==> RequireRole(ctx, [Vendor]).Ok? && OwnedBy(restaurants, restaurantId, ctx.user.value.userId)
    ensures RequireRole(ctx, [Vendor]).Ok? && r.Err? ==> r.error == NotAuthorized
    ensures r.Ok? ==> forall o :: o in r.value <==>
      o in orders && o.restaurantId == restaurantId && (status.Some? ==> o.status == status.value)
  {
    match RequireRole(ctx, [Vendor])
    case Err(e) => Err(e)
    case Ok(user) =>
      if !OwnedBy(restaurants, restaurantId, user.userId) then Err(NotAuthorized)
      else Ok(Filter(orders, (o: Order) =>
                o.restaurantId == restaurantId && (status.Some? ==> o.status == status.value)))
  }

  /** availableDeliveries: for riders, the orders ready for pickup that no
      rider has taken. */
  function AvailableDeliveries(ctx: Context, orders: seq<Order>): (r: Result<seq<Order>>)
    ensures r.Ok? <==> RequireRole(ctx, [Rider]).Ok?
    ensures r.Ok? ==> forall o :: o in r.value <==>
      o in orders && o.status == ReadyForPickup && o.riderId.None?
  {
    match RequireRole(ctx, [Rider])
    case Err(e) => Err(e)
    case Ok(_) => Ok(Filter(orders, (o: Order) => o.status == ReadyForPickup && o.riderId.None?))
  }

  /** myDeliveries: for riders, the orders assigned to them. */
  function MyDeliveries(ctx: Context, orders: seq<Order>): (r: Result<seq<Order>>)
    ensures r.Ok? <==> RequireRole(ctx, [Rider]).Ok?
    ensures r.Ok? ==> forall o :: o in r.value <==> o in orders && o.riderId == Some(ctx.user.value.userId)
  {
    match RequireRole(ctx, [Rider])
    case Err(e) => Err(e)
    case Ok(user) => Ok(Filter(orders, (o: Order) => o.riderId == Some(user.userId)))
  }

  // ---------------------------------------------------------------------
  // Status changes

  /** Who may set an order's status: the vendor owning its restaurant, the
      rider assigned to it, or an admin. Customers never. */
  predicate MayUpdateStatus(restaurants: seq<Restaurant>, user: Identity, o: Order) {
    match user.role
    case Vendor => OwnedBy(restaurants, o.restaurantId, user.userId)
    case Rider => o.riderId == Some(user.userId)
    case Admin => true
    case Customer => false
  }

  /** The order after its status is set: entering DELIVERED also records
      the delivery time and marks it paid. */
  function WithStatus(o: Order, status: OrderStatus, now: int): (u: Order)
    ensures u.status == status
    ensures status == Delivered ==> u.paymentStatus == Paid && u.actualDeliveryTime == Some(now)
    ensures status == Delivered ==> u.(paymentStatus := o.paymentStatus, actualDeliveryTime := o.actualDeliveryTime) == o.(status := status)
    ensures status != Delivered ==> u == o.(status := status)
  {
    if status == Delivered then o.(status := status, actualDeliveryTime := Some(now), paymentStatus := Paid)
    else o.(status := status)
  }

  /** updateOrderStatus as a decision: which error, or the updated order.
      Any status may be set from any status. */
  function StatusUpdate(restaurants: seq<Restaurant>, orders: seq<Order>, ctx: Context, id: Id,
                        status: OrderStatus, now: int): (r: Result<Order>)
    ensures r.Ok? <==> ctx.user.Some? && 0 <= OrderIndex(orders, id)
                       && MayUpdateStatus(restaurants, ctx.user.value, orders[OrderIndex(orders, id)])
    ensures ctx.user.None? ==> r == Err(AuthenticationRequired)
    ensures ctx.user.Some? && OrderIndex(orders, id) < 0 ==> r == Err(OrderNotFound)
    ensures ctx.user.Some? && 0 <= OrderIndex(orders, id) && r.Err? ==> r.error == NotAuthorized
    ensures r.Ok? ==> r.value == WithStatus(orders[OrderIndex(orders, id)], status, now)
  {
    match RequireAuth(ctx)
    case Err(e) => Err(e)
    case Ok(user) =>
      var i := OrderIndex(orders, id);
      if i < 0 then Err(OrderNotFound)
      else if !MayUpdateStatus(restaurants, user, orders[i]) then Err(NotAuthorized)
      else Ok(WithStatus(orders[i], status, now))
  }

  /** A customer's status update is refused whatever the order. */
  lemma CustomerCannotUpdateStatus(restaurants: seq<Restaurant>, orders: seq<Order>, ctx: Context,
                                   id: Id, status: OrderStatus, now: int)
    requires ctx.user.Some? && ctx.user.value.role == Customer
    ensures StatusUpdate(restaurants, orders, ctx, id, status, now).Err?
  {
  }

  /** Writes a decided order back in place of the stored one with its id. */
  method StoreOrder(db: Database, o: Order)
    requires db.Valid() && 0 <= OrderIndex(db.orders, o.id)
    requires var s := db.orders[OrderIndex(db.orders, o.id)];
      o.orderNumber == s.orderNumber && o.items == s.items && o.subtotal == s.subtotal
      && o.deliveryFee == s.deliveryFee && o.tax == s.tax && o.total == s.total
    modifies db
    ensures db.Valid()
    ensures db.orders == old(db.orders)[OrderIndex(old(db.orders), o.id) := o]
    ensures db.users == old(db.users) && db.restaurants == old(db.restaurants)
    ensures db.menuItems == old(db.menuItems) && db.reviews == old(db.reviews)
  {
    var i := OrderIndex(db.orders, o.id);
    UpdateKeepsOrdersValid(db.orders, i, o);
    db.orders := db.orders[i := o];
  }

  /** updateOrderStatus. */
  method UpdateOrderStatus(db: Database, ctx: Context, id: Id, status: OrderStatus, now: int)
    returns (r: Result<Order>)
    requires db.Valid()
    modifies db
    ensures db.Valid()
    ensures r == StatusUpdate(old(db.restaurants), old(db.orders), ctx, id, status, now)
    ensures r.Ok? ==> db.orders == old(db.orders)[OrderIndex(old(db.orders), id) := r.value]
    ensures r.Err? ==> db.orders == old(db.orders)
    ensures db.users == old(db.users) && db.restaurants == old(db.restaurants)
    ensures db.menuItems == old(db.menuItems) && db.reviews == old(db.reviews)
  {
    r := StatusUpdate(db.restaurants, db.orders, ctx, id, status, now);
    if r.Ok? {
      StoreOrder(db, r.value);
    }
  }

  /** assignRider as a decision: ADMIN only, the rider must be a RIDER; no
      check is made on the order's status. A missing order is no error:
      the update finds nothing and the result is null (None). */
  function RiderAssignment(users: seq<User>, orders: seq<Order>, ctx: Context, orderId: Id,
                           riderId: Id): (r: Result<Option<Order>>)
    ensures r.Ok? <==> RequireRole(ctx, [Admin]).Ok? && 0 <= UserIndex(users, riderId)
                       && users[UserIndex(users, riderId)].role == Rider
    ensures RequireRole(ctx, [Admin]).Ok? && r.Err? ==> r.error == InvalidRider
    ensures r.Ok? ==> (r.value.Some? <==> 0 <= OrderIndex(orders, orderId))
    ensures r.Ok? && r.value.Some? ==>
      r.value.value == orders[OrderIndex(orders, orderId)].(riderId := Some(riderId), status := OutForDelivery)
  {
    match RequireRole(ctx, [Admin])
    case Err(e) => Err(e)
    case Ok(_) =>
      var ui := UserIndex(users, riderId);
      if ui < 0 || users[ui].role != Rider then Err(InvalidRider)
      else
        var i := OrderIndex(orders, orderId);
        if i < 0 then Ok(None)
        else Ok(Some(orders[i].(riderId := Some(riderId), status := OutForDelivery)))
  }

  /** assignRider. */
  method AssignRider(db: Database, ctx: Context, orderId: Id, riderId: Id) returns (r: Result<Option<Order>>)
    requires db.Valid()
    modifies db
    ensures db.Valid()
    ensures r == RiderAssignment(old(db.users), old(db.orders), ctx, orderId, riderId)
    ensures r.Ok? && r.value.Some? ==> db.orders == old(db.orders)[OrderIndex(old(db.orders), orderId) := r.value.value]
    ensures r.Err? || r.value.None? ==> db.orders == old(db.orders)
    ensures db.users == old(db.users) && db.restaurants == old(db.restaurants)
    ensures db.menuItems == old(db.menuItems) && db.reviews == old(db.reviews)
  {
    r := RiderAssignment(db.users, db.orders, ctx, orderId, riderId);
    if r.Ok? && r.value.Some? {
      StoreOrder(db, r.value.value);
    }
  }

  /** acceptDelivery as a decision: a RIDER takes an order that is ready
      for pickup and has no rider yet. */
  function Acceptance(orders: seq<Order>, ctx: Context, orderId: Id): (r: Result<Order>)
    ensures r.Ok? <==> RequireRole(ctx, [Rider]).Ok? && 0 <= OrderIndex(orders, orderId)
                       && orders[OrderIndex(orders, orderId)].status == ReadyForPickup
                       && orders[OrderIndex(orders, orderId)].riderId.None?
    ensures RequireRole(ctx, [Rider]).Ok? && 0 <= OrderIndex(orders, orderId) ==>
      var o := orders[OrderIndex(orders, orderId)];
      && (o.status != ReadyForPickup ==> r == Err(NotReadyForPickup))
      && (o.status == ReadyForPickup && o.riderId.Some? ==> r == Err(AlreadyAssigned))
    ensures RequireRole(ctx, [Rider]).Ok? && OrderIndex(orders, orderId) < 0 ==> r == Err(OrderNotFound)
    ensures r.Ok? ==> r.value == orders[OrderIndex(orders, orderId)].(
      riderId := Some(ctx.user.value.userId), status := OutForDelivery)
  {
    match RequireRole(ctx, [Rider])
    case Err(e) => Err(e)
    case Ok(user) =>
      var i := OrderIndex(orders, orderId);
      if i < 0 then Err(OrderNotFound)
      else if orders[i].status != ReadyForPickup then Err(NotReadyForPickup)
      else if orders[i].riderId.Some? then Err(AlreadyAssigned)
      else Ok(orders[i].(riderId := Some(user.userId), status := OutForDelivery))
  }

  /** Run one after the other, two acceptances of the same order cannot
      both succeed: the second finds it out for delivery. */
  lemma {:induction false} SecondAcceptanceFails(orders: seq<Order>, ctx: Context, ctx': Context, orderId: Id)
    requires Acceptance(orders, ctx, orderId).Ok?
    ensures var i := OrderIndex(orders, orderId);
      Acceptance(orders[i := Acceptance(orders, ctx, orderId).value], ctx', orderId).Err?
  {
    var i := OrderIndex(orders, orderId);
    var after := orders[i := Acceptance(orders, ctx, orderId).value];
    assert OrderIndex(after, orderId) == i by {
      assert after[i].id == orderId;
      assert forall k :: 0 <= k < i ==> after[k] == orders[k];
      var j := OrderIndex(after, orderId);
      assert j != -1;
      assert !(j < i) && !(j > i);
    }
  }

  /** acceptDelivery. */
  method AcceptDelivery(db: Database, ctx: Context, orderId: Id) returns (r: Result<Order>)
    requires db.Valid()
    modifies db
    ensures db.Valid()
    ensures r == Acceptance(old(db.orders), ctx, orderId)
    ensures r.Ok? ==> db.orders == old(db.orders)[OrderIndex(old(db.orders), orderId) := r.value]
    ensures r.Err? ==> db.orders == old(db.orders)
    ensures db.users == old(db.users) && db.restaurants == old(db.restaurants)
    ensures db.menuItems == old(db.menuItems) && db.reviews == old(db.reviews)
  {
    r := Acceptance(db.orders, ctx, orderId);
    if r.Ok? {
      StoreOrder(db, r.value);
    }
  }

  /** cancelOrder as a decision: a customer may cancel only their own order
      and only while it is PENDING or CONFIRMED; any other role may cancel
      any order at any stage. A cancelled order is always marked refunded. */
  function Cancellation(orders: seq<Order>, ctx: Context, id: Id): (r: Result<Order>)
    ensures r.Ok? <==> (ctx.user.Some? && 0 <= OrderIndex(orders, id) &&
      (ctx.user.value.role == Customer ==>
        var o := orders[OrderIndex(orders, id)];
        o.customerId == ctx.user.value.userId && o.status in {OrderStatus.Pending, Confirmed}))
    ensures ctx.user.None? ==> r == Err(AuthenticationRequired)
    ensures ctx.user.Some? && OrderIndex(orders, id) < 0 ==> r == Err(OrderNotFound)
    ensures ctx.user.Some? && ctx.user.value.role == Customer && 0 <= OrderIndex(orders, id) ==>
      var o := orders[OrderIndex(orders, id)];
      && (o.customerId != ctx.user.value.userId ==> r == Err(NotAuthorized))
      && (o.customerId == ctx.user.value.userId && o.status !in {OrderStatus.Pending, Confirmed}
          ==> r == Err(CannotCancelAtThisStage))
    ensures r.Ok? ==> r.value == orders[OrderIndex(orders, id)].(status := Cancelled, paymentStatus := Refunded)
  {
    match RequireAuth(ctx)
    case Err(e) => Err(e)
    case Ok(user) =>
      var i := OrderIndex(orders, id);
      if i < 0 then Err(OrderNotFound)
      else if user.role == Customer && orders[i].customerId != user.userId then Err(NotAuthorized)
      else if user.role == Customer && orders[i].status != OrderStatus.Pending && orders[i].status != Confirmed then
        Err(CannotCancelAtThisStage)
      else Ok(orders[i].(status := Cancelled, paymentStatus := Refunded))
  }

  /** cancelOrder; the reason argument is not stored. */
  method CancelOrder(db: Database, ctx: Context, id: Id, reason: Option<string>) returns (r: Result<Order>)
    requires db.Valid()
    modifies db
    ensures db.Valid()
    ensures r == Cancellation(old(db.orders), ctx, id)
    ensures r.Ok? ==> db.orders == old(db.orders)[OrderIndex(old(db.orders), id) := r.value]
    ensures r.Err? ==> db.orders == old(db.orders)
    ensures db.users == old(db.users) && db.restaurants == old(db.restaurants)
    ensures db.menuItems == old(db.menuItems) && db.reviews == old(db.reviews)
  {
    r := Cancellation(db.orders, ctx, id);
    if r.Ok? {
      StoreOrder(db, r.value);
    }
  }
}
