/**
 * The checkout page: its price calculation, the address it preselects, and the order placement that
 * writes the order, then its items, then clears the cart, as three separate calls with no rollback.
 */
module Checkout {
  import opened Common
  import opened Seqs
  import opened Tables

  /** A cart row as the checkout page fetched it, joined with its product's price. */
  datatype CheckoutLine = CheckoutLine(
    id: nat, productId: string, quantity: int, size: Option<string>, color: Option<string>, price: int)

  datatype Address = Address(
    id: string, fullName: string, phone: string, addressLine1: string, addressLine2: Option<string>,
    city: string, state: string, postalCode: string, isDefault: bool)

  /** The checkout charges shipping unless the subtotal is above this amount. */
  const FreeShippingAbove := 1999
  const ShippingFee := 99

  function LineAmount(line: CheckoutLine): int {
    line.price * line.quantity
  }

  /** `calculateSubtotal`: price times quantity, summed over the cart. */
  function Subtotal(lines: seq<CheckoutLine>): int {
    Sum(lines, LineAmount)
  }

  /** `calculateShipping`. */
  function Shipping(lines: seq<CheckoutLine>): (fee: int)
    ensures fee == 0 || fee == ShippingFee
    ensures fee == 0 <==> Subtotal(lines) > FreeShippingAbove
    ensures Subtotal(lines) == FreeShippingAbove ==> fee == ShippingFee
  {
    if Subtotal(lines) > FreeShippingAbove then 0 else ShippingFee
  }

  /** `calculateTotal`. */
  function Total(lines: seq<CheckoutLine>): (total: int)
    ensures total - Subtotal(lines) in {0, ShippingFee}
    ensures total == Subtotal(lines) <==> Subtotal(lines) > FreeShippingAbove
  {
    Subtotal(lines) + Shipping(lines)
  }

  /** The subtotal of a cart is the subtotal of its first part plus that of the rest; the empty cart's is 0. */
  lemma SubtotalSplit(a: seq<CheckoutLine>, b: seq<CheckoutLine>)
    ensures Subtotal([]) == 0
    ensures Subtotal(a + b) == Subtotal(a) + Subtotal(b)
  {
    SumAppend(a, b, LineAmount);
  }

  /** `userAddresses?.find((addr) => addr.is_default)?.id`: the first address marked default. */
  function FindDefault(addresses: seq<Address>): (r: Option<string>)
    ensures r.None? <==> forall i :: 0 <= i < |addresses| ==> !addresses[i].isDefault
    ensures r.Some? ==>
      exists i :: 0 <= i < |addresses| && addresses[i].isDefault && addresses[i].id == r.value &&
        forall j :: 0 <= j < i ==> !addresses[j].isDefault
    decreases |addresses|
  {
    if addresses == [] then None
    else if addresses[0].isDefault then Some(addresses[0].id)
    else
      var r := FindDefault(addresses[1..]);
      assert r.Some? ==>
        exists i :: 1 <= i < |addresses| && addresses[i].isDefault && addresses[i].id == r.value &&
          forall j :: 0 <= j < i ==> !addresses[j].isDefault;
      r
  }

  function ItemFor(orderId: nat, line: CheckoutLine): OrderItemRow {
    OrderItemRow(orderId, line.productId, line.quantity, line.price, line.size, line.color)
  }

  /** The rows `cartItems.map(...)` builds for `order_items`: one per cart line, in cart order. */
  function OrderItemsFor(orderId: nat, lines: seq<CheckoutLine>): (items: seq<OrderItemRow>)
    ensures |items| == |lines|
    ensures forall k :: 0 <= k < |lines| ==> items[k] == ItemFor(orderId, lines[k])
  {
    seq(|lines|, k requires 0 <= k < |lines| => ItemFor(orderId, lines[k]))
  }

  function ItemAmount(item: OrderItemRow): int {
    item.price * item.quantity
  }

  /** The stored order total is what its stored items add up to, plus the shipping fee the checkout charged. */
  lemma {:induction false} OrderTotalMatchesItems(orderId: nat, lines: seq<CheckoutLine>)
    ensures Total(lines) == Sum(OrderItemsFor(orderId, lines), ItemAmount) + Shipping(lines)
    decreases |lines|
  {
    ItemsSum(orderId, lines);
  }

  lemma {:induction false} ItemsSum(orderId: nat, lines: seq<CheckoutLine>)
    ensures Sum(OrderItemsFor(orderId, lines), ItemAmount) == Subtotal(lines)
    decreases |lines|
  {
    if lines != [] {
      var init := lines[..|lines| - 1];
      ItemsSum(orderId, init);
      assert OrderItemsFor(orderId, lines)[..|lines| - 1] == OrderItemsFor(orderId, init);
    }
  }

  /** How `handlePlaceOrder` ended. */
  datatype PlaceResult =
    | NoAddressSelected
    | CartEmpty
    | NotSignedIn
    | OrderFailed(message: string)
    | Placed(orderId: nat)

  /** The three tables order placement writes, with the id counter they share. */
  datatype OrderTables = OrderTables(
    orders: map<nat, OrderRow>, orderItems: map<nat, OrderItemRow>, cart: map<nat, CartRow>, nextId: nat)
  {
    /**
     * Every id in use is below `nextId`, as `Store.Valid` demands, and every order item belongs to a
     * stored order: placement writes the header before its items and never deletes an order.
     */
    predicate Valid() {
      && (forall id :: id in orders ==> id < nextId)
      && (forall id :: id in orderItems ==> id < nextId)
      && (forall id :: id in orderItems ==> orderItems[id].orderId in orders)
      && (forall id :: id in cart ==> id < nextId)
    }
  }

  function Snapshot(db: Store): OrderTables
    reads db
  {
    OrderTables(db.orders, db.orderItems, db.cart, db.nextId)
  }

  /** The order header `handlePlaceOrder` inserts: the cart total with shipping, confirmed at once. */
  function OrderFor(userId: string, lines: seq<CheckoutLine>, paymentMethod: string, addressId: string): OrderRow {
    OrderRow(userId, Total(lines), "confirmed", paymentMethod, addressId)
  }

  /**
   * The writes of `handlePlaceOrder` once a user is signed in: insert the order, then its items, then
   * delete the user's cart rows. Each write's outcome is given; the first failure stops the sequence
   * and the writes before it stay.
   */
  function Place(
    t: OrderTables, userId: string, lines: seq<CheckoutLine>, paymentMethod: string, addressId: string,
    orderInsert: Outcome, itemsInsert: Outcome, cartClear: Outcome): (r: (OrderTables, PlaceResult))
    ensures r.1.Placed? <==> orderInsert.Ok? && itemsInsert.Ok? && cartClear.Ok?
    ensures r.1.Placed? || r.1.OrderFailed?
    ensures r.1.Placed? ==> r.1.orderId == t.nextId && r.1.orderId in r.0.orders
    ensures r.0.nextId == t.nextId <==> orderInsert.Failed?
  {
    if orderInsert.Failed? then (t, OrderFailed(orderInsert.message))
    else
      var orderId := t.nextId;
      var t1 := t.(orders := t.orders[orderId := OrderFor(userId, lines, paymentMethod, addressId)], nextId := orderId + 1);
      if itemsInsert.Failed? then (t1, OrderFailed(itemsInsert.message))
      else
        var items := OrderItemsFor(orderId, lines);
        var t2 := t1.(orderItems := t1.orderItems + Numbered(t1.nextId, items), nextId := t1.nextId + |items|);
        if cartClear.Failed? then (t2, OrderFailed(cartClear.message))
        else (t2.(cart := WithoutUser(t2.cart, userId)), Placed(orderId))
  }

  /** Placement keeps the ids below the counter, so a later insert still takes a fresh id. */
  lemma PlaceKeepsValid(
    t: OrderTables, userId: string, lines: seq<CheckoutLine>, paymentMethod: string, addressId: string,
    orderInsert: Outcome, itemsInsert: Outcome, cartClear: Outcome)
    requires t.Valid()
    ensures Place(t, userId, lines, paymentMethod, addressId, orderInsert, itemsInsert, cartClear).0.Valid()
  {
    NumberedKeys(t.nextId + 1, OrderItemsFor(t.nextId, lines));
  }

  /**
   * No earlier row is lost or changed: old orders and order items keep their ids and contents, and
   * the cart loses rows only when the whole sequence went through, and then only the user's own.
   */
  lemma PlaceKeepsOtherRows(
    t: OrderTables, userId: string, lines: seq<CheckoutLine>, paymentMethod: string, addressId: string,
    orderInsert: Outcome, itemsInsert: Outcome, cartClear: Outcome)
    requires t.Valid()
    ensures var (u, res) := Place(t, userId, lines, paymentMethod, addressId, orderInsert, itemsInsert, cartClear);
      && (forall id :: id in t.orders ==> id in u.orders && u.orders[id] == t.orders[id])
      && (forall id :: id in t.orderItems ==> id in u.orderItems && u.orderItems[id] == t.orderItems[id])
      && (!res.Placed? ==> u.cart == t.cart)
      && (forall id :: id in t.cart && t.cart[id].userId != userId ==> id in u.cart && u.cart[id] == t.cart[id])
      && (res.Placed? ==> forall id :: id in u.cart ==> u.cart[id].userId != userId)
  {
    NumberedKeys(t.nextId + 1, OrderItemsFor(t.nextId, lines));
  }

  /** A placed order's header holds the cart total, and its items add up to that total less the shipping fee. */
  lemma PlacedOrderHeader(
    t: OrderTables, userId: string, lines: seq<CheckoutLine>, paymentMethod: string, addressId: string)
    ensures var (u, res) := Place(t, userId, lines, paymentMethod, addressId, Ok, Ok, Ok);
      && res == Placed(t.nextId)
      && u.orders[t.nextId] == OrderRow(userId, Total(lines), "confirmed", paymentMethod, addressId)
      && u.orders[t.nextId].totalAmount == Sum(OrderItemsFor(t.nextId, lines), ItemAmount) + Shipping(lines)
  {
    OrderTotalMatchesItems(t.nextId, lines);
  }

  /**
   * When all three writes succeed, the header is stored under the counter, the items from the id after
   * it, and exactly the user's cart rows are gone.
   */
  lemma PlacedTables(
    t: OrderTables, userId: string, lines: seq<CheckoutLine>, paymentMethod: string, addressId: string)
    ensures Place(t, userId, lines, paymentMethod, addressId, Ok, Ok, Ok) == (
      OrderTables(
        t.orders[t.nextId := OrderFor(userId, lines, paymentMethod, addressId)],
        t.orderItems + Numbered(t.nextId + 1, OrderItemsFor(t.nextId, lines)),
        WithoutUser(t.cart, userId),
        t.nextId + 1 + |lines|),
      Placed(t.nextId))
  {
  }

  /** A placed order's items are the cart lines one by one, under the order's id, at the ids after it. */
  lemma PlacedOrderItems(
    t: OrderTables, userId: string, lines: seq<CheckoutLine>, paymentMethod: string, addressId: string)
    ensures var u := Place(t, userId, lines, paymentMethod, addressId, Ok, Ok, Ok).0;
      forall k :: 0 <= k < |lines| ==>
        t.nextId + 1 + k in u.orderItems && u.orderItems[t.nextId + 1 + k] == ItemFor(t.nextId, lines[k])
  {
    var u := Place(t, userId, lines, paymentMethod, addressId, Ok, Ok, Ok).0;
    PlacedTables(t, userId, lines, paymentMethod, addressId);
    assert u.orderItems == t.orderItems + Numbered(t.nextId + 1, OrderItemsFor(t.nextId, lines));
    forall k | 0 <= k < |lines|
      ensures t.nextId + 1 + k in u.orderItems && u.orderItems[t.nextId + 1 + k] == ItemFor(t.nextId, lines[k])
    {
      ItemRowAt(t.orderItems, t.nextId, lines, k);
    }
  }

  /** Numbering the items of order `orderId` from the next id puts the k-th cart line at `orderId + 1 + k`. */
  lemma ItemRowAt(m: map<nat, OrderItemRow>, orderId: nat, lines: seq<CheckoutLine>, k: nat)
    requires k < |lines|
    ensures orderId + 1 + k in m + Numbered(orderId + 1, OrderItemsFor(orderId, lines))
    ensures (m + Numbered(orderId + 1, OrderItemsFor(orderId, lines)))[orderId + 1 + k] == ItemFor(orderId, lines[k])
  {
    NumberedAt(m, orderId + 1, OrderItemsFor(orderId, lines), k);
  }

  /**
   * There is no rollback: when the items insert fails, the order header is stored while no item row
   * carries its id, and the cart is left as it was.
   */
  lemma FailedItemsLeaveBareOrder(
    t: OrderTables, userId: string, lines: seq<CheckoutLine>, paymentMethod: string, addressId: string,
    message: string, cartClear: Outcome)
    requires t.Valid()
    ensures var (u, res) := Place(t, userId, lines, paymentMethod, addressId, Ok, Failed(message), cartClear);
      && res == OrderFailed(message)
      && t.nextId in u.orders && t.nextId !in t.orders
      && (forall id :: id in u.orderItems ==> u.orderItems[id].orderId != t.nextId)
      && u.cart == t.cart
  {
  }

  /** The writes of `handlePlaceOrder`, in its order, stopping at the first that fails. */
  method WriteOrder(
    db: Store, userId: string, lines: seq<CheckoutLine>, paymentMethod: string, addressId: string,
    orderInsert: Outcome, itemsInsert: Outcome, cartClear: Outcome) returns (result: PlaceResult)
    requires db.Valid()
    modifies db`orders, db`orderItems, db`cart, db`nextId
    ensures db.Valid()
    ensures (Snapshot(db), result) ==
      Place(old(Snapshot(db)), userId, lines, paymentMethod, addressId, orderInsert, itemsInsert, cartClear)
  {
    if orderInsert.Failed? {
      return OrderFailed(orderInsert.message);
    }
    var orderId := db.InsertOrder(OrderFor(userId, lines, paymentMethod, addressId));
    if itemsInsert.Failed? {
      return OrderFailed(itemsInsert.message);
    }
    var first := db.InsertOrderItems(OrderItemsFor(orderId, lines));
    if cartClear.Failed? {
      return OrderFailed(cartClear.message);
    }
    db.DeleteCartOfUser(userId);
    result := Placed(orderId);
  }

  /** The component state of the checkout page. */
  class CheckoutForm {
    var cartItems: seq<CheckoutLine>
    var addresses: seq<Address>
    var selectedAddress: string
    var paymentMethod: string
    var loading: bool
    var processing: bool

    constructor ()
      ensures cartItems == [] && addresses == [] && selectedAddress == "" && paymentMethod == "card"
      ensures loading && !processing
    {
      cartItems, addresses, selectedAddress, paymentMethod := [], [], "", "card";
      loading, processing := true, false;
    }

    /**
     * `fetchCheckoutData`, given the signed-in user and what the two queries returned
     * (`None` for a query that returned no data).
     */
    method FetchCheckoutData(user: Option<string>, cart: Option<seq<CheckoutLine>>, userAddresses: Option<seq<Address>>)
      modifies this`cartItems, this`addresses, this`selectedAddress, this`loading
      ensures !loading
      ensures user.None? ==> cartItems == old(cartItems) && addresses == old(addresses) && selectedAddress == old(selectedAddress)
      ensures user.Some? ==> cartItems == cart.GetOr([]) && addresses == userAddresses.GetOr([])
      ensures user.Some? ==> selectedAddress == FindDefault(userAddresses.GetOr([])).GetOr(old(selectedAddress))
    {
      if user.Some? {
        cartItems := cart.GetOr([]);
        addresses := userAddresses.GetOr([]);
        var found := FindDefault(userAddresses.GetOr([]));
        if found.Some? {
          selectedAddress := found.value;
        }
      }
      loading := false;
    }

    /**
     * `handlePlaceOrder`: two guards, the signed-in user, then the writes of `Place`, each given by the
     * outcome the database returns.
     */
    method PlaceOrder(db: Store, user: Option<string>, orderInsert: Outcome, itemsInsert: Outcome, cartClear: Outcome)
      returns (result: PlaceResult)
      requires db.Valid()
      modifies this`processing, db`orders, db`orderItems, db`cart, db`nextId
      ensures db.Valid()
      // the guards: nothing is written and the page does not enter the processing state
      ensures selectedAddress == "" ==> result == NoAddressSelected
      ensures selectedAddress != "" && cartItems == [] ==> result == CartEmpty
      ensures result.NoAddressSelected? || result.CartEmpty? ==> processing == old(processing)
      ensures selectedAddress != "" && cartItems != [] ==> !processing
      ensures selectedAddress != "" && cartItems != [] && user.None? ==> result == NotSignedIn
      ensures user.None? || selectedAddress == "" || cartItems == [] ==> Snapshot(db) == old(Snapshot(db))
      // the writes
      ensures selectedAddress != "" && cartItems != [] && user.Some? ==>
        (Snapshot(db), result) ==
          Place(old(Snapshot(db)), user.value, cartItems, paymentMethod, selectedAddress, orderInsert, itemsInsert, cartClear)
    {
      if selectedAddress == "" {
        return NoAddressSelected;
      }
      if |cartItems| == 0 {
        return CartEmpty;
      }
      processing := true;
      if user.None? {
        processing := false;
        return NotSignedIn;
      }
      result := WriteOrder(db, user.value, cartItems, paymentMethod, selectedAddress, orderInsert, itemsInsert, cartClear);
      processing := false;
    }
  }
}
