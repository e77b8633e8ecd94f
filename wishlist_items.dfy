/**
 * The wishlist page's item list: remove a row, or move a row's product into the cart. The move
 * inserts a plain cart row and never looks for an existing one.
 */
module WishlistItems {
  import opened Common
  import opened Tables

  /** A wishlist row as the list shows it: its id and its product. */
  datatype WishlistLine = WishlistLine(id: nat, productId: string, stockQuantity: int)

  /** The row `moveToCart` inserts: quantity 1, size and colour left to their null defaults. */
  function CartRowFor(userId: string, item: WishlistLine): (row: CartRow)
    ensures row.userId == userId && row.productId == item.productId && row.quantity == 1
    ensures row.size.None? && row.color.None?
  {
    CartRow(userId, item.productId, 1, None, None)
  }

  /**
   * `moveToCart` on the two tables and the id counter: nothing without a signed-in user; otherwise a
   * cart insert, and only if that went through, the wishlist delete, whose outcome is not checked.
   */
  function MovedToCart(
    cart: map<nat, CartRow>, wishlist: map<nat, WishlistRow>, nextId: nat,
    item: WishlistLine, user: Option<string>, cartInsert: Outcome, wishlistDelete: Outcome)
    : (r: (map<nat, CartRow>, map<nat, WishlistRow>, nat))
  {
    if user.None? || cartInsert.Failed? then (cart, wishlist, nextId)
    else
      var cart' := cart[nextId := CartRowFor(user.value, item)];
      if wishlistDelete.Failed? then (cart', wishlist, nextId + 1) else (cart', wishlist - {item.id}, nextId + 1)
  }

  /** Without a user, or when the cart insert fails, neither table changes. */
  lemma NoUserOrFailedInsertChangesNothing(
    cart: map<nat, CartRow>, wishlist: map<nat, WishlistRow>, nextId: nat,
    item: WishlistLine, user: Option<string>, cartInsert: Outcome, wishlistDelete: Outcome)
    requires user.None? || cartInsert.Failed?
    ensures MovedToCart(cart, wishlist, nextId, item, user, cartInsert, wishlistDelete) == (cart, wishlist, nextId)
  {
  }

  /**
   * A move always adds one new cart row, even when the cart already holds the same product for the
   * same user: no row is merged, and every existing cart row stays as it was.
   */
  lemma MoveNeverMerges(
    cart: map<nat, CartRow>, wishlist: map<nat, WishlistRow>, nextId: nat,
    item: WishlistLine, userId: string, wishlistDelete: Outcome)
    requires forall id :: id in cart ==> id < nextId
    ensures var (c, _, n) := MovedToCart(cart, wishlist, nextId, item, Some(userId), Ok, wishlistDelete);
      && nextId !in cart && c.Keys == cart.Keys + {nextId} && |c| == |cart| + 1 && n == nextId + 1
      && c[nextId] == CartRow(userId, item.productId, 1, None, None)
      && (forall id :: id in cart ==> c[id] == cart[id])
  {
    var c := cart[nextId := CartRowFor(userId, item)];
    assert c.Keys == cart.Keys + {nextId};
    assert |c.Keys| == |cart.Keys| + 1;
  }

  /**
   * The wishlist row leaves the wishlist only after the cart gained a row for its product; the other
   * wishlist rows stay as they were.
   */
  lemma DeleteOnlyAfterInsert(
    cart: map<nat, CartRow>, wishlist: map<nat, WishlistRow>, nextId: nat,
    item: WishlistLine, user: Option<string>, cartInsert: Outcome, wishlistDelete: Outcome)
    requires item.id in wishlist
    ensures var (c, w, _) := MovedToCart(cart, wishlist, nextId, item, user, cartInsert, wishlistDelete);
      && (forall id :: id in w ==> id in wishlist && w[id] == wishlist[id])
      && w.Keys >= wishlist.Keys - {item.id}
      && (item.id !in w ==> user.Some? && cartInsert.Ok? && nextId in c && c[nextId] == CartRowFor(user.value, item))
  {
  }

  /** The move button is disabled while this row's call runs, and whenever the product has no stock. */
  predicate MoveDisabled(loading: Option<nat>, item: WishlistLine) {
    loading == Some(item.id) || item.stockQuantity == 0
  }

  /** Out-of-stock products cannot be moved; in-stock ones can unless their own call is running. */
  lemma MoveDisabledWhenOutOfStock(loading: Option<nat>, item: WishlistLine)
    ensures item.stockQuantity == 0 ==> MoveDisabled(loading, item)
    ensures item.stockQuantity != 0 && loading != Some(item.id) ==> !MoveDisabled(loading, item)
  {
  }

  class WishlistItemsView {
    var loading: Option<nat>
    var refreshes: nat

    constructor ()
      ensures loading == None && refreshes == 0
    {
      loading, refreshes := None, 0;
    }

    /** `removeFromWishlist`: one `delete` call by id; the page refreshes when it went through. */
    method RemoveFromWishlist(db: Store, itemId: nat, write: Outcome)
      requires db.Valid()
      modifies this`loading, this`refreshes, db`wishlist
      ensures db.Valid() && loading == None
      ensures db.wishlist == if write.Ok? then old(db.wishlist) - {itemId} else old(db.wishlist)
      ensures refreshes == old(refreshes) + if write.Ok? then 1 else 0
    {
      loading := Some(itemId);
      if write.Ok? {
        db.DeleteWishlist(itemId);
        refreshes := refreshes + 1;
      }
      loading := None;
    }

    /**
     * `moveToCart`, which only the row's move button calls; the page reaches it only while that
     * button is enabled.
     */
    method MoveToCart(
      db: Store, item: WishlistLine, user: Option<string>, cartInsert: Outcome, wishlistDelete: Outcome)
      requires db.Valid()
      requires !MoveDisabled(loading, item)
      modifies this`loading, this`refreshes, db`cart, db`wishlist, db`nextId
      ensures db.Valid() && loading == None
      ensures (db.cart, db.wishlist, db.nextId) ==
        MovedToCart(old(db.cart), old(db.wishlist), old(db.nextId), item, user, cartInsert, wishlistDelete)
      ensures refreshes == old(refreshes) + if user.Some? && cartInsert.Ok? then 1 else 0
    {
      loading := Some(item.id);
      assert MoveDisabled(loading, item);
      if user.Some? && cartInsert.Ok? {
        var id := db.InsertCart(CartRowFor(user.value, item));
        if wishlistDelete.Ok? {
          db.DeleteWishlist(item.id);
        }
        refreshes := refreshes + 1;
      }
      loading := None;
    }
  }
}
