/**
 * `POST /api/wishlist`: toggle a product on the signed-in user's wishlist. A `.single()` lookup on
 * (user, product) decides: one row found is deleted, otherwise a row is inserted.
 */
module WishlistApi {
  import opened Common
  import opened Tables

  datatype Action = Added | Removed

  datatype Reply =
    | Toggled(action: Action)
    | Unauthorized
    | ServerError(message: string)
    /** The body could not be parsed: the `catch` branch. */
    | InternalError
  {
    function Status(): (code: int)
      ensures code == 200 <==> Toggled?
      ensures code == 401 <==> Unauthorized?
    {
      match this
      case Toggled(_) => 200
      case Unauthorized => 401
      case ServerError(_) => 500
      case InternalError => 500
    }
  }

  predicate Matches(row: WishlistRow, userId: string, productId: string) {
    row.userId == Some(userId) && row.productId == productId
  }

  function MatchingIds(wishlist: map<nat, WishlistRow>, userId: string, productId: string): (ids: set<nat>)
    ensures forall id :: id in ids <==> id in wishlist && Matches(wishlist[id], userId, productId)
  {
    set id | id in wishlist && Matches(wishlist[id], userId, productId)
  }

  /**
   * The handler on the wishlist table and the id counter, given the `productId` of the parsed body
   * (absent when it did not parse), the signed-in user, the outcome of the `.single()` lookup (whose
   * `error` is never read, so a failed lookup finds no row) and the outcome of the one write it makes.
   */
  ghost function Post(
    wishlist: map<nat, WishlistRow>, nextId: nat, productId: Option<string>, user: Option<string>,
    lookup: Outcome, write: Outcome)
    : (r: (map<nat, WishlistRow>, nat, Reply))
    ensures productId.None? ==> r == (wishlist, nextId, InternalError)
    ensures productId.Some? && user.None? ==> r == (wishlist, nextId, Unauthorized)
    ensures r.2.Toggled? <==> productId.Some? && user.Some? && write.Ok?
    ensures !r.2.Toggled? ==> r.0 == wishlist && r.1 == nextId
    ensures r.2.Toggled? && lookup.Failed? ==>
      r == (wishlist[nextId := WishlistRow(user, productId.value)], nextId + 1, Toggled(Added))
  {
    if productId.None? then (wishlist, nextId, InternalError)
    else if user.None? then (wishlist, nextId, Unauthorized)
    else if write.Failed? then (wishlist, nextId, ServerError(write.message))
    else
      var existing := if lookup.Failed? then None else Single(MatchingIds(wishlist, user.value, productId.value));
      if existing.Some? then (wishlist - {existing.value}, nextId, Toggled(Removed))
      else (wishlist[nextId := WishlistRow(user, productId.value)], nextId + 1, Toggled(Added))
  }

  method HandlePost(
    db: Store, productId: Option<string>, user: Option<string>, lookup: Outcome, write: Outcome) returns (reply: Reply)
    requires db.Valid()
    modifies db`wishlist, db`nextId
    ensures db.Valid()
    ensures (db.wishlist, db.nextId, reply) == Post(old(db.wishlist), old(db.nextId), productId, user, lookup, write)
  {
    if productId.None? {
      return InternalError;
    }
    if user.None? {
      return Unauthorized;
    }
    var matches := MatchingIds(db.wishlist, user.value, productId.value);
    if lookup.Ok? && |matches| == 1 {
      var id :| id in matches;
      assert Single(matches) == Some(id);
      if write.Failed? {
        return ServerError(write.message);
      }
      db.DeleteWishlist(id);
      reply := Toggled(Removed);
    } else {
      if write.Failed? {
        return ServerError(write.message);
      }
      var id := db.InsertWishlist(WishlistRow(user, productId.value));
      reply := Toggled(Added);
    }
  }

  ghost predicate Fresh(wishlist: map<nat, WishlistRow>, nextId: nat) {
    forall id :: id in wishlist ==> id < nextId
  }

  /** The rows that are not (user, product) rows. */
  function Others(wishlist: map<nat, WishlistRow>, userId: string, productId: string): (r: map<nat, WishlistRow>)
    ensures forall id :: id in r <==> id in wishlist && !Matches(wishlist[id], userId, productId)
    ensures forall id :: id in r ==> r[id] == wishlist[id]
  {
    map id | id in wishlist && !Matches(wishlist[id], userId, productId) :: wishlist[id]
  }

  /** A present (user, product) row is deleted and the reply says "removed". */
  lemma PresentIsRemoved(wishlist: map<nat, WishlistRow>, nextId: nat, userId: string, productId: string, id: nat)
    requires MatchingIds(wishlist, userId, productId) == {id}
    ensures Post(wishlist, nextId, Some(productId), Some(userId), Ok, Ok) == (wishlist - {id}, nextId, Toggled(Removed))
  {
    assert Single(MatchingIds(wishlist, userId, productId)) == Some(id);
  }

  /** An absent (user, product) row is inserted, under a fresh id, and the reply says "added". */
  lemma AbsentIsAdded(wishlist: map<nat, WishlistRow>, nextId: nat, userId: string, productId: string)
    requires Fresh(wishlist, nextId)
    requires MatchingIds(wishlist, userId, productId) == {}
    ensures var (w, n, reply) := Post(wishlist, nextId, Some(productId), Some(userId), Ok, Ok);
      && reply == Toggled(Added) && nextId !in wishlist && n == nextId + 1
      && w == wishlist[nextId := WishlistRow(Some(userId), productId)]
  {
  }

  /** Rows of other users and other products are never touched by a toggle. */
  lemma ToggleKeepsOthers(
    wishlist: map<nat, WishlistRow>, nextId: nat, userId: string, productId: string, lookup: Outcome, write: Outcome)
    requires Fresh(wishlist, nextId)
    ensures var (w, _, _) := Post(wishlist, nextId, Some(productId), Some(userId), lookup, write);
      Others(w, userId, productId) == Others(wishlist, userId, productId)
  {
  }

  /** A toggle keeps at most one (user, product) row, and flips between none and one. */
  lemma ToggleKeepsAtMostOne(
    wishlist: map<nat, WishlistRow>, nextId: nat, userId: string, productId: string)
    requires Fresh(wishlist, nextId)
    requires |MatchingIds(wishlist, userId, productId)| <= 1
    ensures var (w, n, _) := Post(wishlist, nextId, Some(productId), Some(userId), Ok, Ok);
      && Fresh(w, n)
      && |MatchingIds(w, userId, productId)| == 1 - |MatchingIds(wishlist, userId, productId)|
  {
    var ids := MatchingIds(wishlist, userId, productId);
    var (w, n, _) := Post(wishlist, nextId, Some(productId), Some(userId), Ok, Ok);
    if |ids| == 1 {
      var id := Single(ids).value;
      assert w == wishlist - {id};
      assert MatchingIds(w, userId, productId) == ids - {id};
    } else {
      assert ids == {};
      assert MatchingIds(w, userId, productId) == {nextId};
    }
  }

  /**
   * Two successful toggles of the same product give back the rows of the table: the other rows are
   * the same and there are as many (user, product) rows as before. Starting from no such row, the
   * table itself is restored.
   */
  lemma ToggleTwiceRestores(wishlist: map<nat, WishlistRow>, nextId: nat, userId: string, productId: string)
    requires Fresh(wishlist, nextId)
    requires |MatchingIds(wishlist, userId, productId)| <= 1
    ensures var (w1, n1, _) := Post(wishlist, nextId, Some(productId), Some(userId), Ok, Ok);
      var (w2, _, _) := Post(w1, n1, Some(productId), Some(userId), Ok, Ok);
      && Others(w2, userId, productId) == Others(wishlist, userId, productId)
      && |MatchingIds(w2, userId, productId)| == |MatchingIds(wishlist, userId, productId)|
      && (MatchingIds(wishlist, userId, productId) == {} ==> w2 == wishlist)
  {
    var (w1, n1, _) := Post(wishlist, nextId, Some(productId), Some(userId), Ok, Ok);
    ToggleKeepsAtMostOne(wishlist, nextId, userId, productId);
    ToggleKeepsAtMostOne(w1, n1, userId, productId);
    ToggleKeepsOthers(wishlist, nextId, userId, productId, Ok, Ok);
    ToggleKeepsOthers(w1, n1, userId, productId, Ok, Ok);
    if MatchingIds(wishlist, userId, productId) == {} {
      AbsentIsAdded(wishlist, nextId, userId, productId);
      assert MatchingIds(w1, userId, productId) == {nextId};
      PresentIsRemoved(w1, n1, userId, productId, nextId);
      assert w1 - {nextId} == wishlist;
    }
  }

  /**
   * Once a user has two or more rows for a product (an insert elsewhere does not check), the lookup
   * finds no single row, so every toggle inserts one more and none removes.
   */
  lemma DuplicatesOnlyGrow(wishlist: map<nat, WishlistRow>, nextId: nat, userId: string, productId: string)
    requires Fresh(wishlist, nextId)
    requires |MatchingIds(wishlist, userId, productId)| >= 2
    ensures var (w, _, reply) := Post(wishlist, nextId, Some(productId), Some(userId), Ok, Ok);
      && reply == Toggled(Added)
      && MatchingIds(w, userId, productId) == MatchingIds(wishlist, userId, productId) + {nextId}
  {
  }

  /**
   * A failed lookup is read as "not on the wishlist": a product that is on it gets a second row where
   * a removal was asked for, and the reply says "added".
   */
  lemma FailedLookupAddsDuplicate(
    wishlist: map<nat, WishlistRow>, nextId: nat, userId: string, productId: string, id: nat, message: string)
    requires Fresh(wishlist, nextId)
    requires MatchingIds(wishlist, userId, productId) == {id}
    ensures var (w, _, reply) := Post(wishlist, nextId, Some(productId), Some(userId), Failed(message), Ok);
      && reply == Toggled(Added)
      && MatchingIds(w, userId, productId) == {id, nextId} && id != nextId
  {
    var w := wishlist[nextId := WishlistRow(Some(userId), productId)];
    assert MatchingIds(w, userId, productId) == {id, nextId};
  }
}
