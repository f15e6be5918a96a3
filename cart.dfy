/** The shopping cart of the web client (context/CartContext.tsx): a list
    of entries kept in component state. Each operation replaces the list by
    a function of the previous one; the cart holds items of one restaurant,
    one entry per menu item. */
module Cart {
  import opened Common

  datatype CartItem = CartItem(
    menuItemId: Id, name: string, price: real, quantity: int,
    restaurantId: Id, restaurantName: string)

  function CartKey(c: CartItem): Id { c.menuItemId }

  /** What one entry contributes to the total. */
  function Amount(c: CartItem): real {
    c.price * (c.quantity as real)
  }

  /** getTotal: the sum of price times quantity, 0 for an empty cart. */
  function Total(items: seq<CartItem>): real {
    if |items| == 0 then 0.0 else Total(items[..|items| - 1]) + Amount(items[|items| - 1])
  }

  /** getItemCount: the sum of the quantities, 0 for an empty cart. */
  function ItemCount(items: seq<CartItem>): int {
    if |items| == 0 then 0 else ItemCount(items[..|items| - 1]) + items[|items| - 1].quantity
  }

  /** The two invariants of the cart: every entry comes from the restaurant
      of the first one, and no menu item has two entries. */
  ghost predicate CartInvariant(items: seq<CartItem>) {
    && (forall k :: 0 <= k < |items| ==> items[k].restaurantId == items[0].restaurantId)
    && UniqueKeys(items, CartKey)
  }

  /** Array.find by menu item id. */
  function IndexOf(items: seq<CartItem>, id: Id): (i: int)
    ensures -1 <= i < |items|
    ensures i == -1 <==> forall k :: 0 <= k < |items| ==> items[k].menuItemId != id
    ensures 0 <= i ==> items[i].menuItemId == id
  {
    FirstIndex(items, (c: CartItem) => c.menuItemId == id)
  }

  /** The merge branch of addItem: every entry for the item's menu item
      gains the added quantity. */
  function Bumped(items: seq<CartItem>, item: CartItem): seq<CartItem> {
    seq(|items|, k requires 0 <= k < |items| =>
      if items[k].menuItemId == item.menuItemId
      then items[k].(quantity := items[k].quantity + item.quantity)
      else items[k])
  }

  /** addItem's state update. `confirmed` is the user's answer to the
      prompt shown when the item comes from another restaurant than the
      cart's first entry. */
  function Added(items: seq<CartItem>, item: CartItem, confirmed: bool): seq<CartItem> {
    if |items| > 0 && items[0].restaurantId != item.restaurantId then
      if !confirmed then items else [item]
    else if IndexOf(items, item.menuItemId) >= 0 then Bumped(items, item)
    else items + [item]
  }

  /** The filter removeItem applies: entries of other menu items. */
  function OtherThan(id: Id): CartItem -> bool {
    (c: CartItem) => c.menuItemId != id
  }

  /** removeItem's state update. */
  function Removed(items: seq<CartItem>, id: Id): seq<CartItem> {
    Filter(items, OtherThan(id))
  }

  /** The set branch of updateQuantity. */
  function Requantified(items: seq<CartItem>, id: Id, quantity: int): seq<CartItem> {
    seq(|items|, k requires 0 <= k < |items| =>
      if items[k].menuItemId == id then items[k].(quantity := quantity) else items[k])
  }

  /** updateQuantity's state update: a quantity of zero or less removes. */
  function QuantityUpdated(items: seq<CartItem>, id: Id, quantity: int): seq<CartItem> {
    if quantity <= 0 then Removed(items, id) else Requantified(items, id, quantity)
  }

  class Cart {
    var items: seq<CartItem>

    ghost predicate Valid()
      reads this
    {
      CartInvariant(items)
    }

    /** A fresh cart is empty (the saved copy in browser storage is not
        part of this model). */
    constructor ()
      ensures items == [] && Valid()
    {
      items := [];
    }

    method AddItem(item: CartItem, confirmed: bool)
      modifies this
      ensures items == Added(old(items), item, confirmed)
      ensures old(Valid()) ==> Valid()
    {
      if old(Valid()) {
        AddedKeepsInvariant(items, item, confirmed);
      }
      items := Added(items, item, confirmed);
    }

    method RemoveItem(id: Id)
      modifies this
      ensures items == Removed(old(items), id)
      ensures old(Valid()) ==> Valid()
    {
      if old(Valid()) {
        RemovedKeepsInvariant(items, id);
      }
      items := Removed(items, id);
    }

    method UpdateQuantity(id: Id, quantity: int)
      modifies this
      ensures items == QuantityUpdated(old(items), id, quantity)
      ensures old(Valid()) ==> Valid()
    {
      if quantity <= 0 {
        RemoveItem(id);
        return;
      }
      if old(Valid()) {
        RequantifiedKeepsInvariant(items, id, quantity);
      }
      items := Requantified(items, id, quantity);
    }

    method ClearCart()
      modifies this
      ensures items == [] && Valid()
    {
      items := [];
    }
  }

  // ---------------------------------------------------------------------
  // Sums

  lemma {:induction false} TotalAppend(a: seq<CartItem>, b: seq<CartItem>)
    ensures Total(a + b) == Total(a) + Total(b)
    decreases |b|
  {
    if |b| == 0 {
      assert a + b == a;
    } else {
      assert (a + b)[..|a + b| - 1] == a + b[..|b| - 1];
      TotalAppend(a, b[..|b| - 1]);
    }
  }

  lemma {:induction false} ItemCountAppend(a: seq<CartItem>, b: seq<CartItem>)
    ensures ItemCount(a + b) == ItemCount(a) + ItemCount(b)
    decreases |b|
  {
    if |b| == 0 {
      assert a + b == a;
    } else {
      assert (a + b)[..|a + b| - 1] == a + b[..|b| - 1];
      ItemCountAppend(a, b[..|b| - 1]);
    }
  }

  /** Splitting around entry `i` splits each sum. */
  lemma SumsAround(s: seq<CartItem>, i: nat)
    requires i < |s|
    ensures Total(s) == Total(s[..i]) + Amount(s[i]) + Total(s[i + 1..])
    ensures ItemCount(s) == ItemCount(s[..i]) + s[i].quantity + ItemCount(s[i + 1..])
  {
    var p, q := s[..i], s[i + 1..];
    assert s == (p + [s[i]]) + q;
    TotalAppend(p + [s[i]], q);
    TotalAppend(p, [s[i]]);
    ItemCountAppend(p + [s[i]], q);
    ItemCountAppend(p, [s[i]]);
  }

  /** Replacing one entry changes each sum by the difference. */
  lemma SumsUpdateAt(s: seq<CartItem>, i: nat, x: CartItem)
    requires i < |s|
    ensures Total(s[i := x]) == Total(s) - Amount(s[i]) + Amount(x)
    ensures ItemCount(s[i := x]) == ItemCount(s) - s[i].quantity + x.quantity
  {
    var t := s[i := x];
    assert t[..i] == s[..i] && t[i + 1..] == s[i + 1..];
    SumsAround(s, i);
    SumsAround(t, i);
  }

  /** Removing one entry takes its share out of each sum. */
  lemma SumsRemoveAt(s: seq<CartItem>, i: nat)
    requires i < |s|
    ensures Total(s[..i] + s[i + 1..]) == Total(s) - Amount(s[i])
    ensures ItemCount(s[..i] + s[i + 1..]) == ItemCount(s) - s[i].quantity
  {
    SumsAround(s, i);
    TotalAppend(s[..i], s[i + 1..]);
    ItemCountAppend(s[..i], s[i + 1..]);
  }

  /** An empty cart totals 0 and counts 0 items. */
  lemma EmptyCartSums()
    ensures Total([]) == 0.0 && ItemCount([]) == 0
  {
  }

  // ---------------------------------------------------------------------
  // addItem

  /** With unique menu items, the merge touches exactly one entry. */
  lemma BumpedIsUpdateAt(items: seq<CartItem>, item: CartItem, i: nat)
    requires UniqueKeys(items, CartKey) && i < |items| && items[i].menuItemId == item.menuItemId
    ensures Bumped(items, item) == items[i := items[i].(quantity := items[i].quantity + item.quantity)]
  {
    forall k | 0 <= k < |items| && k != i
      ensures items[k].menuItemId != item.menuItemId
    {
      if k < i {
        assert CartKey(items[k]) != CartKey(items[i]);
      } else {
        assert CartKey(items[i]) != CartKey(items[k]);
      }
    }
  }

  /** An item from another restaurant than the cart's: declined, the cart
      is unchanged; confirmed, the cart becomes exactly that item. */
  lemma AddFromOtherRestaurant(items: seq<CartItem>, item: CartItem, confirmed: bool)
    requires |items| > 0 && items[0].restaurantId != item.restaurantId
    ensures Added(items, item, confirmed) == if confirmed then [item] else items
  {
  }

  /** An item already in the cart (same restaurant) adds its quantity to
      that entry; no entry is added, no other entry changes. */
  lemma AddExistingMerges(items: seq<CartItem>, item: CartItem, confirmed: bool)
    requires UniqueKeys(items, CartKey)
    requires 0 <= IndexOf(items, item.menuItemId)
    requires items[0].restaurantId == item.restaurantId
    ensures var i := IndexOf(items, item.menuItemId);
      Added(items, item, confirmed) == items[i := items[i].(quantity := items[i].quantity + item.quantity)]
  {
    BumpedIsUpdateAt(items, item, IndexOf(items, item.menuItemId));
  }

  /** Merging adds the item's quantity to the count and, at the price of
      the entry already in the cart, to the total. */
  lemma MergeSums(items: seq<CartItem>, i: nat, more: int)
    requires i < |items|
    ensures var after := items[i := items[i].(quantity := items[i].quantity + more)];
      && ItemCount(after) == ItemCount(items) + more
      && Total(after) == Total(items) + items[i].price * (more as real)
  {
    SumsUpdateAt(items, i, items[i].(quantity := items[i].quantity + more));
    AmountOfMore(items[i], more);
  }

  /** Adding to an entry's quantity adds price times the addition. */
  lemma AmountOfMore(c: CartItem, more: int)
    ensures Amount(c.(quantity := c.quantity + more)) == Amount(c) + c.price * (more as real)
  {
    assert (c.quantity + more) as real == c.quantity as real + more as real;
  }

  /** A new menu item of the cart's restaurant, or any item into an empty
      cart, is appended at the end. */
  lemma AddNewAppends(items: seq<CartItem>, item: CartItem, confirmed: bool)
    requires |items| == 0 || items[0].restaurantId == item.restaurantId
    requires IndexOf(items, item.menuItemId) < 0
    ensures var after := Added(items, item, confirmed);
      && after == items + [item]
      && ItemCount(after) == ItemCount(items) + item.quantity
      && Total(after) == Total(items) + Amount(item)
  {
    TotalAppend(items, [item]);
    ItemCountAppend(items, [item]);
  }

  /** addItem keeps both invariants. */
  lemma AddedKeepsInvariant(items: seq<CartItem>, item: CartItem, confirmed: bool)
    requires CartInvariant(items)
    ensures CartInvariant(Added(items, item, confirmed))
  {
    if |items| > 0 && items[0].restaurantId != item.restaurantId {
    } else if IndexOf(items, item.menuItemId) >= 0 {
      var i := IndexOf(items, item.menuItemId);
      BumpedIsUpdateAt(items, item, i);
      UpdateSameKey(items, i, items[i].(quantity := items[i].quantity + item.quantity), CartKey);
    } else {
      AppendFreshKey(items, item, CartKey);
    }
  }

  // ---------------------------------------------------------------------
  // removeItem, updateQuantity

  /** removeItem drops every entry of that menu item and keeps the others
      in their order: what stands before any cut point of the list stays
      before what stands after it, and one entry is kept exactly when it
      belongs to another menu item. */
  lemma RemovedContents(items: seq<CartItem>, id: Id)
    ensures forall c :: c in Removed(items, id) <==> c in items && c.menuItemId != id
    ensures forall k :: 0 <= k <= |items| ==>
      Removed(items, id) == Removed(items[..k], id) + Removed(items[k..], id)
    ensures forall c: CartItem :: Removed([c], id) == if c.menuItemId != id then [c] else []
    ensures IndexOf(items, id) < 0 ==> Removed(items, id) == items
  {
    forall k | 0 <= k <= |items|
      ensures Removed(items, id) == Removed(items[..k], id) + Removed(items[k..], id)
    {
      assert items == items[..k] + items[k..];
      FilterAppend(items[..k], items[k..], OtherThan(id));
    }
    if IndexOf(items, id) < 0 {
      FilterKeepsAll(items, OtherThan(id));
    }
  }

  /** With unique menu items, removing a present one is removing its entry. */
  lemma RemovedIsRemoveAt(items: seq<CartItem>, id: Id)
    requires UniqueKeys(items, CartKey) && 0 <= IndexOf(items, id)
    ensures var i := IndexOf(items, id);
      Removed(items, id) == items[..i] + items[i + 1..]
  {
    var i := IndexOf(items, id);
    var p := OtherThan(id);
    OthersDiffer(items, i);
    FilterDropsAt(items, i, p);
  }

  /** With unique menu items, no other entry has the id of entry i. */
  lemma OthersDiffer(items: seq<CartItem>, i: nat)
    requires UniqueKeys(items, CartKey) && i < |items|
    ensures forall k :: 0 <= k < |items| && k != i ==> items[k].menuItemId != items[i].menuItemId
  {
    forall k | 0 <= k < |items| && k != i
      ensures items[k].menuItemId != items[i].menuItemId
    {
      if k < i {
        assert CartKey(items[k]) != CartKey(items[i]);
      } else {
        assert CartKey(items[i]) != CartKey(items[k]);
      }
    }
  }

  /** Removing a present menu item takes exactly its share out of the sums. */
  lemma RemoveExisting(items: seq<CartItem>, id: Id)
    requires UniqueKeys(items, CartKey) && 0 <= IndexOf(items, id)
    ensures var i := IndexOf(items, id);
      && ItemCount(Removed(items, id)) == ItemCount(items) - items[i].quantity
      && Total(Removed(items, id)) == Total(items) - Amount(items[i])
  {
    RemovedIsRemoveAt(items, id);
    SumsRemoveAt(items, IndexOf(items, id));
  }

  /** removeItem keeps both invariants. */
  lemma RemovedKeepsInvariant(items: seq<CartItem>, id: Id)
    requires CartInvariant(items)
    ensures CartInvariant(Removed(items, id))
  {
    var i := IndexOf(items, id);
    if i < 0 {
      RemovedContents(items, id);
    } else {
      RemovedIsRemoveAt(items, id);
      RemoveAtKeepsKeys(items, i, CartKey);
      var r := items[..i] + items[i + 1..];
      forall k | 0 <= k < |r|
        ensures r[k].restaurantId == r[0].restaurantId
      {
        var k' := if k < i then k else k + 1;
        var z := if 0 < i then 0 else 1;
        assert r[k] == items[k'] && r[0] == items[z];
      }
    }
  }

  /** updateQuantity with a positive quantity sets that entry's quantity
      and nothing else. */
  lemma UpdateQuantityExisting(items: seq<CartItem>, id: Id, quantity: int)
    requires UniqueKeys(items, CartKey) && 0 <= IndexOf(items, id) && quantity > 0
    ensures var i := IndexOf(items, id);
      var after := QuantityUpdated(items, id, quantity);
      && after == items[i := items[i].(quantity := quantity)]
      && ItemCount(after) == ItemCount(items) - items[i].quantity + quantity
      && Total(after) == Total(items) - Amount(items[i]) + items[i].price * (quantity as real)
  {
    var i := IndexOf(items, id);
    OthersDiffer(items, i);
    var x := items[i].(quantity := quantity);
    assert Requantified(items, id, quantity) == items[i := x];
    SumsUpdateAt(items, i, x);
  }

  /** updateQuantity with zero or less is removeItem. */
  lemma UpdateQuantityNonPositive(items: seq<CartItem>, id: Id, quantity: int)
    requires quantity <= 0
    ensures QuantityUpdated(items, id, quantity) == Removed(items, id)
  {
  }

  /** Setting a quantity keeps both invariants. */
  lemma RequantifiedKeepsInvariant(items: seq<CartItem>, id: Id, quantity: int)
    requires CartInvariant(items)
    ensures CartInvariant(Requantified(items, id, quantity))
  {
    var r := Requantified(items, id, quantity);
    assert forall k :: 0 <= k < |r| ==> CartKey(r[k]) == CartKey(items[k]);
  }
}
