/** Dashboard statistics (resolvers/statsResolvers.ts): counts and sums
    over delivered orders, for the whole platform or one restaurant. */
module Stats {
  import opened Common
  import opened UserModel
  import opened RestaurantModel
  import opened OrderModel
  import opened AuthGuard

  datatype Stats = Stats(
    totalOrders: int, totalRevenue: real, averageOrderValue: real, totalCustomers: int)

  function IsDelivered(o: Order): bool { o.status == Delivered }

  /** The filter { restaurantId, status: 'DELIVERED' }. */
  function DeliveredFor(restaurantId: Id): Order -> bool {
    (o: Order) => o.restaurantId == restaurantId && o.status == Delivered
  }

  function IsCustomer(u: User): bool { u.role == Customer }

  /** The sum of the order totals. */
  function SumTotals(orders: seq<Order>): real {
    if |orders| == 0 then 0.0 else SumTotals(orders[..|orders| - 1]) + orders[|orders| - 1].total
  }

  /** The sum of the order subtotals. */
  function SumSubtotals(orders: seq<Order>): real {
    if |orders| == 0 then 0.0 else SumSubtotals(orders[..|orders| - 1]) + orders[|orders| - 1].subtotal
  }

  /** revenue / count, or 0 when there is nothing to average. */
  function Average(revenue: real, count: int): (a: real)
    ensures count > 0 ==> a * (count as real) == revenue
    ensures count <= 0 ==> a == 0.0
  {
    if count > 0 then revenue / (count as real) else 0.0
  }

  /** The distinct customer ids of a list of orders (the Set in
      restaurantStats): exactly the ids that occur, never more of them than
      there are orders. */
  function CustomerIds(orders: seq<Order>): (ids: set<Id>)
    ensures |ids| <= |orders|
  {
    if |orders| == 0 then {}
    else CustomerIds(orders[..|orders| - 1]) + {orders[|orders| - 1].customerId}
  }

  /** CustomerIds holds exactly the customers that placed one of the
      orders. */
  lemma {:induction false} CustomerIdsMembers(orders: seq<Order>, id: Id)
    ensures id in CustomerIds(orders) <==> exists k :: 0 <= k < |orders| && orders[k].customerId == id
  {
    if |orders| > 0 {
      var init := orders[..|orders| - 1];
      CustomerIdsMembers(init, id);
      if id in CustomerIds(init) {
        var k :| 0 <= k < |init| && init[k].customerId == id;
        assert orders[k] == init[k];
      }
      if k :| 0 <= k < |orders| - 1 && orders[k].customerId == id {
        assert init[k] == orders[k];
      }
    }
  }

  /** The platform-wide figures: delivered orders, their summed totals and
      mean, and the number of CUSTOMER accounts. */
  function AdminReport(users: seq<User>, orders: seq<Order>): Stats {
    var delivered := Filter(orders, IsDelivered);
    var revenue := SumTotals(delivered);
    Stats(|delivered|, revenue, Average(revenue, |delivered|), |Filter(users, IsCustomer)|)
  }

  /** One restaurant's figures: its delivered orders, their summed
      subtotals and mean, and their distinct customers. */
  function RestaurantReport(orders: seq<Order>, restaurantId: Id): Stats {
    var delivered := Filter(orders, DeliveredFor(restaurantId));
    var revenue := SumSubtotals(delivered);
    Stats(|delivered|, revenue, Average(revenue, |delivered|), |CustomerIds(delivered)|)
  }

  /** adminStats: ADMIN only. */
  function AdminStats(ctx: Context, users: seq<User>, orders: seq<Order>): (r: Result<Stats>)
    ensures r.Ok? <==> RequireRole(ctx, [Admin]).Ok?
    ensures r.Err? ==> r.error == RequireRole(ctx, [Admin]).error
    ensures r.Ok? ==> r.value == AdminReport(users, orders)
  {
    match RequireRole(ctx, [Admin])
    case Err(e) => Err(e)
    case Ok(_) => Ok(AdminReport(users, orders))
  }

  /** restaurantStats: a VENDOR for a restaurant they own, or any ADMIN. */
  function RestaurantStats(ctx: Context, restaurants: seq<Restaurant>, orders: seq<Order>,
                           restaurantId: Id): (r: Result<Stats>)
    ensures r.Ok? <==> (RequireRole(ctx, [Vendor, Admin]).Ok? &&
      (ctx.user.value.role == Vendor ==> OwnedBy(restaurants, restaurantId, ctx.user.value.userId)))
    ensures RequireRole(ctx, [Vendor, Admin]).Err? ==> r.Err? && r.error == RequireRole(ctx, [Vendor, Admin]).error
    ensures RequireRole(ctx, [Vendor, Admin]).Ok? && r.Err? ==> r.error == NotAuthorized
    ensures r.Ok? ==> r.value == RestaurantReport(orders, restaurantId)
  {
    match RequireRole(ctx, [Vendor, Admin])
    case Err(e) => Err(e)
    case Ok(user) =>
      if user.role == Vendor && !OwnedBy(restaurants, restaurantId, user.userId) then Err(NotAuthorized)
      else Ok(RestaurantReport(orders, restaurantId))
  }

  /** An order that is not delivered counts for nothing in the platform
      report. */
  lemma UndeliveredIgnored(users: seq<User>, orders: seq<Order>, o: Order)
    requires o.status != Delivered
    ensures AdminReport(users, orders + [o]) == AdminReport(users, orders)
  {
    FilterAppend(orders, [o], IsDelivered);
    assert Filter([o], IsDelivered) == [] by {
      assert [o][1..] == [];
    }
    assert Filter(orders, IsDelivered) + [] == Filter(orders, IsDelivered);
  }

  /** An order that is not a delivered order of the restaurant counts for
      nothing in that restaurant's report. */
  lemma OtherOrderIgnored(orders: seq<Order>, o: Order, restaurantId: Id)
    requires o.status != Delivered || o.restaurantId != restaurantId
    ensures RestaurantReport(orders + [o], restaurantId) == RestaurantReport(orders, restaurantId)
  {
    var p := DeliveredFor(restaurantId);
    FilterAppend(orders, [o], p);
    assert Filter([o], p) == [] by {
      assert [o][1..] == [];
    }
    assert Filter(orders, p) + [] == Filter(orders, p);
  }

  /** A delivered order adds one to the platform's order count and its
      total to the platform's revenue. */
  lemma DeliveredCounted(users: seq<User>, orders: seq<Order>, o: Order)
    requires o.status == Delivered
    ensures AdminReport(users, orders + [o]).totalOrders == AdminReport(users, orders).totalOrders + 1
    ensures AdminReport(users, orders + [o]).totalRevenue == AdminReport(users, orders).totalRevenue + o.total
  {
    var before := Filter(orders, IsDelivered);
    FilterAppend(orders, [o], IsDelivered);
    assert Filter([o], IsDelivered) == [o] by {
      assert [o][1..] == [];
    }
    assert (before + [o])[..|before|] == before;
  }

  /** A delivered order of the restaurant adds one to its order count and
      its subtotal to its revenue; its customer is then counted. */
  lemma RestaurantDeliveredCounted(orders: seq<Order>, o: Order)
    requires o.status == Delivered
    ensures RestaurantReport(orders + [o], o.restaurantId).totalOrders
            == RestaurantReport(orders, o.restaurantId).totalOrders + 1
    ensures RestaurantReport(orders + [o], o.restaurantId).totalRevenue
            == RestaurantReport(orders, o.restaurantId).totalRevenue + o.subtotal
    ensures o.customerId in CustomerIds(Filter(orders + [o], DeliveredFor(o.restaurantId)))
  {
    var p := DeliveredFor(o.restaurantId);
    var before := Filter(orders, p);
    FilterAppend(orders, [o], p);
    assert Filter([o], p) == [o] by {
      assert [o][1..] == [];
    }
    var after := before + [o];
    assert after[..|before|] == before;
    assert after[|before|].customerId == o.customerId;
  }

  /** With nothing to sum, a sum is zero. */
  lemma EmptySums(orders: seq<Order>)
    requires |orders| == 0
    ensures SumTotals(orders) == 0.0 && SumSubtotals(orders) == 0.0
  {
  }

  /** The platform report hangs together: the average times the count
      gives back the revenue, and there is no revenue without an order. */
  lemma AdminReportConsistent(users: seq<User>, orders: seq<Order>)
    ensures var s := AdminReport(users, orders);
      && (s.totalOrders > 0 ==> s.averageOrderValue * (s.totalOrders as real) == s.totalRevenue)
      && (s.totalOrders == 0 ==> s.averageOrderValue == 0.0 && s.totalRevenue == 0.0)
  {
    var delivered := Filter(orders, IsDelivered);
    if |delivered| == 0 {
      EmptySums(delivered);
    }
  }

  /** A restaurant report hangs together likewise, and never counts more
      distinct customers than delivered orders. */
  lemma RestaurantReportConsistent(orders: seq<Order>, restaurantId: Id)
    ensures var s := RestaurantReport(orders, restaurantId);
      && (s.totalOrders > 0 ==> s.averageOrderValue * (s.totalOrders as real) == s.totalRevenue)
      && (s.totalOrders == 0 ==> s.averageOrderValue == 0.0 && s.totalRevenue == 0.0)
      && s.totalCustomers <= s.totalOrders
  {
    var delivered := Filter(orders, DeliveredFor(restaurantId));
    var revenue := SumSubtotals(delivered);
    var s := RestaurantReport(orders, restaurantId);
    assert s == Stats(|delivered|, revenue, Average(revenue, |delivered|), |CustomerIds(delivered)|);
    if |delivered| == 0 {
      EmptySums(delivered);
    }
  }
}
