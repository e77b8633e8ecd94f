/**
 * The cart page's item list: change a row's quantity, remove a row, or move a row to the wishlist,
 * each as direct table calls, with the quantity choices bounded by the product's stock.
 */
module CartItems {
  import opened Common
  import opened Tables

  /** A cart row as the list shows it: its id and its product. */
  datatype CartLine = CartLine(id: nat, productId: string, stockQuantity: int)

  /** The cart with the quantity of row `id` replaced; an unknown id changes nothing. */
  function WithQuantity(cart: map<nat, CartRow>, id: nat, quantity: int): (r: map<nat, CartRow>)
    ensures r.Keys == cart.Keys
    ensures forall other :: other in cart && other != id ==> r[other] == cart[other]
    ensures id in cart ==> r[id].quantity == quantity
    ensures id in cart ==>
      && r[id].userId == cart[id].userId && r[id].productId == cart[id].productId
      && r[id].size == cart[id].size && r[id].color == cart[id].color
  {
    if id in cart then cart[id := cart[id].(quantity := quantity)] else cart
  }

  /** The cart without row `id`. */
  function WithoutRow(cart: map<nat, CartRow>, id: nat): (r: map<nat, CartRow>)
    ensures r.Keys == cart.Keys - {id}
    ensures forall other :: other in r ==> r[other] == cart[other]
  {
    cart - {id}
  }

  /**
   * `moveToWishlist` on the two tables and the id counter: the wishlist insert names whatever user
   * the client reports (possibly none); the cart row is deleted only after that insert went through,
   * and the outcome of the delete is not checked.
   */
  function MovedToWishlist(
    cart: map<nat, CartRow>, wishlist: map<nat, WishlistRow>, nextId: nat,
    item: CartLine, user: Option<string>, wishlistInsert: Outcome, cartDelete: Outcome)
    : (r: (map<nat, CartRow>, map<nat, WishlistRow>, nat))
  {
    if wishlistInsert.Failed? then (cart, wishlist, nextId)
    else
      var wishlist' := wishlist[nextId := WishlistRow(user, item.productId)];
      if cartDelete.Failed? then (cart, wishlist', nextId + 1) else (WithoutRow(cart, item.id), wishlist', nextId + 1)
  }

  /** A failed wishlist insert leaves both tables as they were. */
  lemma FailedInsertChangesNothing(
    cart: map<nat, CartRow>, wishlist: map<nat, WishlistRow>, nextId: nat,
    item: CartLine, user: Option<string>, message: string, cartDelete: Outcome)
    ensures MovedToWishlist(cart, wishlist, nextId, item, user, Failed(message), cartDelete) == (cart, wishlist, nextId)
  {
  }

  /**
   * The cart row leaves the cart only when the wishlist gained a row for its product, and only that
   * cart row leaves; a cart row that stays is unchanged.
   */
  lemma MoveNeverLosesTheProduct(
    cart: map<nat, CartRow>, wishlist: map<nat, WishlistRow>, nextId: nat,
    item: CartLine, user: Option<string>, wishlistInsert: Outcome, cartDelete: Outcome)
    requires item.id in cart
    requires forall id :: id in wishlist ==> id < nextId
    ensures var (c, w, n) := MovedToWishlist(cart, wishlist, nextId, item, user, wishlistInsert, cartDelete);
      && c.Keys >= cart.Keys - {item.id}
      && (forall id :: id in c ==> id in cart && c[id] == cart[id])
      && (item.id !in c ==>
            wishlistInsert.Ok? && nextId !in wishlist && w == wishlist[nextId := WishlistRow(user, item.productId)])
      && (wishlistInsert.Ok? ==> nextId in w && w[nextId].productId == item.productId)
  {
  }

  /**
   * `Array.from({ length: Math.min(10, stock_quantity) }, (_, i) => i + 1)`: a negative length
   * gives an empty array.
   */
  function QuantityOptions(stockQuantity: int): (options: seq<int>)
    ensures |options| == if stockQuantity <= 0 then 0 else if stockQuantity < 10 then stockQuantity else 10
    ensures forall i :: 0 <= i < |options| ==> options[i] == i + 1
  {
    var length := if stockQuantity <= 0 then 0 else if stockQuantity < 10 then stockQuantity else 10;
    seq(length, i requires 0 <= i < length => i + 1)
  }

  /** The choices are the quantities from 1 up to both 10 and the stock; there are none without stock. */
  lemma QuantityOptionsRange(stockQuantity: int, v: int)
    ensures v in QuantityOptions(stockQuantity) <==> 1 <= v <= 10 && v <= stockQuantity
    ensures stockQuantity <= 0 ==> QuantityOptions(stockQuantity) == []
  {
    var options := QuantityOptions(stockQuantity);
    if 1 <= v <= 10 && v <= stockQuantity {
      assert options[v - 1] == v;
    }
  }

  /** The component's state: the row whose call is running, and how many times it asked for a refresh. */
  class CartItemsView {
    var loading: Option<nat>
    var refreshes: nat

    constructor ()
      ensures loading == None && refreshes == 0
    {
      loading, refreshes := None, 0;
    }

    /** `updateQuantity`: one `update` call; the page refreshes when it went through. */
    method UpdateQuantity(db: Store, itemId: nat, newQuantity: int, write: Outcome)
      requires db.Valid()
      modifies this`loading, this`refreshes, db`cart
      ensures db.Valid() && loading == None
      ensures db.cart == if write.Ok? then WithQuantity(old(db.cart), itemId, newQuantity) else old(db.cart)
      ensures refreshes == old(refreshes) + if write.Ok? then 1 else 0
    {
      loading := Some(itemId);
      if write.Ok? {
        db.SetCartQuantity(itemId, newQuantity);
        refreshes := refreshes + 1;
      }
      loading := None;
    }

    /** `removeItem`: one `delete` call by id. */
    method RemoveItem(db: Store, itemId: nat, write: Outcome)
      requires db.Valid()
      modifies this`loading, this`refreshes, db`cart
      ensures db.Valid() && loading == None
      ensures db.cart == if write.Ok? then WithoutRow(old(db.cart), itemId) else old(db.cart)
      ensures refreshes == old(refreshes) + if write.Ok? then 1 else 0
    {
      loading := Some(itemId);
      if write.Ok? {
        db.DeleteCart(itemId);
        refreshes := refreshes + 1;
      }
      loading := None;
    }

    /** `moveToWishlist`: insert into the wishlist, then, only if that went through, delete the cart row. */
    method MoveToWishlist(
      db: Store, item: CartLine, user: Option<string>, wishlistInsert: Outcome, cartDelete: Outcome)
      requires db.Valid()
      modifies this`loading, this`refreshes, db`cart, db`wishlist, db`nextId
      ensures db.Valid() && loading == None
      ensures (db.cart, db.wishlist, db.nextId) ==
        MovedToWishlist(old(db.cart), old(db.wishlist), old(db.nextId), item, user, wishlistInsert, cartDelete)
      ensures refreshes == old(refreshes) + if wishlistInsert.Ok? then 1 else 0
    {
      loading := Some(item.id);
      if wishlistInsert.Ok? {
        var id := db.InsertWishlist(WishlistRow(user, item.productId));
        if cartDelete.Ok? {
          db.DeleteCart(item.id);
        }
        refreshes := refreshes + 1;
      }
      loading := None;
    }
  }
}
