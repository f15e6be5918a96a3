/** The order record (models/Order.ts): status, payment, the line items
    snapshotted at checkout and the amounts, with the schema's defaults and
    bounds and the invariants of the order collection. */
module OrderModel {
  import opened Common

  datatype OrderStatus =
    Pending | Confirmed | Preparing | ReadyForPickup | OutForDelivery | Delivered | Cancelled

  datatype PaymentMethod = Cash | Card | Wallet

  datatype PaymentStatus = Unpaid | Paid | Failed | Refunded  // Unpaid is the enum's PENDING

  /** One line of an order: the menu item's name and price as they were at
      checkout, and the quantity asked for. */
  datatype OrderLine = OrderLine(
    menuItemId: Id, name: string, price: real, quantity: int,
    specialInstructions: Option<string>)

  datatype Order = Order(
    id: Id,
    orderNumber: string,
    customerId: Id,
    restaurantId: Id,
    riderId: Option<Id>,               // absent until a rider is assigned
    items: seq<OrderLine>,
    subtotal: real,
    deliveryFee: real,
    tax: real,
    total: real,
    status: OrderStatus,
    paymentMethod: PaymentMethod,
    paymentStatus: PaymentStatus,
    deliveryAddress: Location,
    specialInstructions: Option<string>,
    estimatedDeliveryTime: Option<int>, // milliseconds since the epoch
    actualDeliveryTime: Option<int>)

  /** The amount one line contributes to the subtotal. */
  function LineTotal(l: OrderLine): real {
    l.price * (l.quantity as real)
  }

  /** The sum of price times quantity over the lines. */
  function Subtotal(lines: seq<OrderLine>): real {
    if |lines| == 0 then 0.0 else Subtotal(lines[..|lines| - 1]) + LineTotal(lines[|lines| - 1])
  }

  /** Adding a line adds its amount. */
  lemma SubtotalSnoc(lines: seq<OrderLine>, l: OrderLine)
    ensures Subtotal(lines + [l]) == Subtotal(lines) + LineTotal(l)
  {
    assert (lines + [l])[..|lines|] == lines;
  }

  /** The subtotal of two runs of lines is the sum of their subtotals. */
  lemma {:induction false} SubtotalAppend(a: seq<OrderLine>, b: seq<OrderLine>)
    ensures Subtotal(a + b) == Subtotal(a) + Subtotal(b)
    decreases |b|
  {
    if |b| > 0 {
      var b' := b[..|b| - 1];
      assert (a + b)[..|a + b| - 1] == a + b';
      SubtotalAppend(a, b');
    } else {
      assert a + b == a;
    }
  }

  /** The schema's validators, run when the order document is created:
      every quantity at least 1 and no negative amount. */
  predicate SchemaValid(o: Order) {
    && (forall k | 0 <= k < |o.items| :: o.items[k].quantity >= 1)
    && o.subtotal >= 0.0 && o.deliveryFee >= 0.0 && o.tax >= 0.0 && o.total >= 0.0
  }

  /** An order document as checkout creates it: the status and payment
      status take their defaults, no rider, not yet delivered. */
  function NewOrder(id: Id, orderNumber: string, customerId: Id, restaurantId: Id,
                    items: seq<OrderLine>, subtotal: real, deliveryFee: real, tax: real,
                    total: real, paymentMethod: PaymentMethod, deliveryAddress: Location,
                    specialInstructions: Option<string>, eta: int): (o: Order)
    ensures o.status == Pending && o.paymentStatus == Unpaid
    ensures o.riderId.None? && o.actualDeliveryTime.None? && o.estimatedDeliveryTime == Some(eta)
    ensures o.id == id && o.orderNumber == orderNumber && o.items == items
  {
    Order(id, orderNumber, customerId, restaurantId, None, items, subtotal, deliveryFee, tax,
          total, Pending, paymentMethod, Unpaid, deliveryAddress, specialInstructions,
          Some(eta), None)
  }

  function OrderKey(o: Order): Id { o.id }
  function OrderNumberKey(o: Order): string { o.orderNumber }

  /** The invariant of the order collection: unique ids, unique order
      numbers (the schema's unique index), every document schema-valid. */
  ghost predicate OrdersValid(orders: seq<Order>) {
    && UniqueKeys(orders, OrderKey)
    && UniqueKeys(orders, OrderNumberKey)
    && (forall i | 0 <= i < |orders| :: SchemaValid(orders[i]))
  }

  /** Model.findById on the order collection. */
  function OrderIndex(orders: seq<Order>, id: Id): (i: int)
    ensures -1 <= i < |orders|
    ensures i == -1 <==> forall k :: 0 <= k < |orders| ==> orders[k].id != id
    ensures 0 <= i ==> orders[i].id == id
  {
    FirstIndex(orders, (o: Order) => o.id == id)
  }

  /** Inserting a schema-valid order whose id and order number are both
      new keeps the collection valid. */
  lemma AppendKeepsOrdersValid(orders: seq<Order>, o: Order)
    requires OrdersValid(orders) && SchemaValid(o)
    requires forall k :: 0 <= k < |orders| ==> orders[k].id != o.id
    requires forall k :: 0 <= k < |orders| ==> orders[k].orderNumber != o.orderNumber
    ensures OrdersValid(orders + [o])
  {
    AppendFreshKey(orders, o, OrderKey);
    AppendFreshKey(orders, o, OrderNumberKey);
  }

  /** Replacing an order by one with the same id, order number and amounts
      keeps the collection valid: what every status change does. */
  lemma UpdateKeepsOrdersValid(orders: seq<Order>, i: nat, o: Order)
    requires OrdersValid(orders) && i < |orders|
    requires o.id == orders[i].id && o.orderNumber == orders[i].orderNumber
    requires o.items == orders[i].items && o.subtotal == orders[i].subtotal
    requires o.deliveryFee == orders[i].deliveryFee && o.tax == orders[i].tax
    requires o.total == orders[i].total
    ensures OrdersValid(orders[i := o])
  {
    UpdateSameKey(orders, i, o, OrderKey);
    UpdateSameKey(orders, i, o, OrderNumberKey);
  }
}
