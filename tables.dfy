/**
 * The hosted database as in-memory tables. Each table maps a row id to its row; ids are handed out
 * from `nextId`, so a new row never takes the id of an existing one. The methods of `Store` are the
 * client calls the storefront makes: `insert`, `update(...).eq("id", ...)` and `delete().eq(...)`.
 * Whether a call goes through is decided outside the model; callers invoke a method only for a call
 * that succeeded.
 */
module Tables {
  import opened Common

  /** A JSON value as a request body or a stored record carries it (numbers as integers). */
  datatype Json =
    | JString(str: string)
    | JNumber(num: int)
    | JBool(flag: bool)
    | JNull
    | JArray(items: seq<Json>)
    | JObject(fields: map<string, Json>)

  /** A product row: the column names the inserting code chose, with their values. */
  type Record = map<string, Json>

  datatype CartRow = CartRow(userId: string, productId: string, quantity: int, size: Option<string>, color: Option<string>)

  /** `userId` is absent when the inserting code had no signed-in user to name. */
  datatype WishlistRow = WishlistRow(userId: Option<string>, productId: string)

  datatype OrderRow = OrderRow(userId: string, totalAmount: int, status: string, paymentMethod: string, shippingAddressId: string)

  datatype OrderItemRow = OrderItemRow(orderId: nat, productId: string, quantity: int, price: int, size: Option<string>, color: Option<string>)

  datatype ShopRow = ShopRow(
    sellerId: string, name: string, slug: string, description: string, phone: string, email: string,
    addressLine1: string, addressLine2: string, city: string, state: string, postalCode: string,
    businessType: string, gstNumber: string)

  /**
   * `.single()`: the one id of a match set with exactly one element; no row when nothing matched or
   * when several rows did.
   */
  ghost function Single(ids: set<nat>): (r: Option<nat>)
    ensures r.Some? <==> |ids| == 1
    ensures r.Some? ==> ids == {r.value}
  {
    if |ids| == 1 then
      assert ids != {};
      var id :| id in ids;
      SingletonSet(ids, id);
      Some(id)
    else None
  }

  /** A set with one element is that element's singleton. */
  lemma SingletonSet(s: set<nat>, a: nat)
    requires |s| == 1 && a in s
    ensures s == {a}
  {
    var rest := s - {a};
    assert s == rest + {a};
    assert |rest| == 0;
  }

  function RowAt<R>(first: nat, rows: seq<R>, k: nat): R
    requires first <= k < first + |rows|
  {
    rows[k - first]
  }

  /** Rows of one multi-row insert keyed from `first` on, in the order given. */
  function Numbered<R>(first: nat, rows: seq<R>): map<nat, R> {
    map k: nat | first <= k < first + |rows| :: RowAt(first, rows, k)
  }

  /** The keys are `first` up to `first + |rows|`. */
  lemma NumberedKeys<R>(first: nat, rows: seq<R>)
    ensures forall k: nat :: k in Numbered(first, rows) <==> first <= k < first + |rows|
  {
  }

  /** The row at `first + i` in `m + Numbered(first, rows)` is the i-th row given, whatever `m` holds. */
  lemma NumberedAt<R>(m: map<nat, R>, first: nat, rows: seq<R>, i: nat)
    requires i < |rows|
    ensures first + i in m + Numbered(first, rows)
    ensures (m + Numbered(first, rows))[first + i] == rows[i]
  {
    assert first + i in Numbered(first, rows);
  }

  /** The cart with every row of `userId` gone and every other row kept under its id. */
  function WithoutUser(cart: map<nat, CartRow>, userId: string): (r: map<nat, CartRow>)
    ensures forall id :: id in r ==> id in cart && r[id] == cart[id] && r[id].userId != userId
    ensures forall id :: id in cart && cart[id].userId != userId ==> id in r
  {
    map id | id in cart && cart[id].userId != userId :: cart[id]
  }

  class Store {
    var cart: map<nat, CartRow>
    var wishlist: map<nat, WishlistRow>
    var orders: map<nat, OrderRow>
    var orderItems: map<nat, OrderItemRow>
    var products: map<nat, Record>
    var shops: map<nat, ShopRow>
    var nextId: nat

    /** Every id in use is below `nextId`. */
    ghost predicate Valid()
      reads this
    {
      && (forall id :: id in cart ==> id < nextId)
      && (forall id :: id in wishlist ==> id < nextId)
      && (forall id :: id in orders ==> id < nextId)
      && (forall id :: id in orderItems ==> id < nextId)
      && (forall id :: id in products ==> id < nextId)
      && (forall id :: id in shops ==> id < nextId)
    }

    constructor ()
      ensures Valid()
      ensures cart == map[] && wishlist == map[] && orders == map[] && orderItems == map[]
      ensures products == map[] && shops == map[]
      ensures nextId == 0
    {
      cart, wishlist, orders, orderItems, products, shops := map[], map[], map[], map[], map[], map[];
      nextId := 0;
    }

    method InsertCart(row: CartRow) returns (id: nat)
      requires Valid()
      modifies this`cart, this`nextId
      ensures Valid()
      ensures id == old(nextId) && id !in old(cart) && nextId == id + 1
      ensures cart == old(cart)[id := row]
    {
      id := nextId;
      cart := cart[id := row];
      nextId := nextId + 1;
    }

    /** `update({ quantity }).eq("id", id)`: no row changes when the id is unknown. */
    method SetCartQuantity(id: nat, quantity: int)
      requires Valid()
      modifies this`cart
      ensures Valid()
      ensures cart == if id in old(cart) then old(cart)[id := old(cart)[id].(quantity := quantity)] else old(cart)
    {
      if id in cart {
        cart := cart[id := cart[id].(quantity := quantity)];
      }
    }

    /** `delete().eq("id", id)`. */
    method DeleteCart(id: nat)
      requires Valid()
      modifies this`cart
      ensures Valid()
      ensures cart == old(cart) - {id}
    {
      cart := cart - {id};
    }

    /** `delete().eq("user_id", userId)`. */
    method DeleteCartOfUser(userId: string)
      requires Valid()
      modifies this`cart
      ensures Valid()
      ensures cart == WithoutUser(old(cart), userId)
    {
      cart := WithoutUser(cart, userId);
    }

    method InsertWishlist(row: WishlistRow) returns (id: nat)
      requires Valid()
      modifies this`wishlist, this`nextId
      ensures Valid()
      ensures id == old(nextId) && id !in old(wishlist) && nextId == id + 1
      ensures wishlist == old(wishlist)[id := row]
    {
      id := nextId;
      wishlist := wishlist[id := row];
      nextId := nextId + 1;
    }

    method DeleteWishlist(id: nat)
      requires Valid()
      modifies this`wishlist
      ensures Valid()
      ensures wishlist == old(wishlist) - {id}
    {
      wishlist := wishlist - {id};
    }

    method InsertOrder(row: OrderRow) returns (id: nat)
      requires Valid()
      modifies this`orders, this`nextId
      ensures Valid()
      ensures id == old(nextId) && id !in old(orders) && nextId == id + 1
      ensures orders == old(orders)[id := row]
    {
      id := nextId;
      orders := orders[id := row];
      nextId := nextId + 1;
    }

    /** One multi-row `insert`: the k-th row gets id `first + k`. */
    method InsertOrderItems(rows: seq<OrderItemRow>) returns (first: nat)
      requires Valid()
      modifies this`orderItems, this`nextId
      ensures Valid()
      ensures first == old(nextId) && nextId == first + |rows|
      ensures forall k :: first <= k < first + |rows| ==> k !in old(orderItems)
      ensures orderItems == old(orderItems) + Numbered(first, rows)
    {
      first := nextId;
      NumberedKeys(first, rows);
      orderItems := orderItems + Numbered(first, rows);
      nextId := nextId + |rows|;
    }

    method InsertProduct(row: Record) returns (id: nat)
      requires Valid()
      modifies this`products, this`nextId
      ensures Valid()
      ensures id == old(nextId) && id !in old(products) && nextId == id + 1
      ensures products == old(products)[id := row]
    {
      id := nextId;
      products := products[id := row];
      nextId := nextId + 1;
    }

    method InsertShop(row: ShopRow) returns (id: nat)
      requires Valid()
      modifies this`shops, this`nextId
      ensures Valid()
      ensures id == old(nextId) && id !in old(shops) && nextId == id + 1
      ensures shops == old(shops)[id := row]
    {
      id := nextId;
      shops := shops[id := row];
      nextId := nextId + 1;
    }
  }
}
