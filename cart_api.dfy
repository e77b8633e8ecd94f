/**
 * `POST /api/cart`: add a product to the signed-in user's cart. A row with the same user, product,
 * size key and colour key has its quantity raised; otherwise a new row is inserted. The lookup reads
 * a missing size or colour as "", while the insert stores it as null, so the two do not agree.
 */
module CartApi {
  import opened Common
  import opened Tables

  /** The parsed request body; `quantity` is absent when the body leaves it out. */
  datatype AddRequest = AddRequest(productId: string, quantity: Option<int>, size: Option<string>, color: Option<string>)

  datatype Reply =
    | Success
    | Unauthorized
    | ServerError(message: string)
    /** The body could not be parsed: the `catch` branch. */
    | InternalError
  {
    function Status(): (code: int)
      ensures code == 200 <==> Success?
      ensures code == 401 <==> Unauthorized?
    {
      match this
      case Success => 200
      case Unauthorized => 401
      case ServerError(_) => 500
      case InternalError => 500
    }
  }

  /** `quantity = 1` in the destructuring: the default applies when the body has no quantity. */
  function Requested(req: AddRequest): (q: int)
    ensures req.quantity.None? ==> q == 1
    ensures req.quantity.Some? ==> q == req.quantity.value
  {
    req.quantity.GetOr(1)
  }

  /** `v || ""`: the value the lookup compares against; a missing or empty value becomes "". */
  function LookupKey(v: Option<string>): (k: string)
    ensures k == "" <==> v.None? || v.value == ""
    ensures k != "" ==> v == Some(k)
  {
    if v.Some? && v.value != "" then v.value else ""
  }

  /** `v || null`: the value the insert stores; a missing or empty value becomes null. */
  function StoredValue(v: Option<string>): (r: Option<string>)
    ensures r.None? <==> v.None? || v.value == ""
    ensures r.Some? ==> r == v && r.value != ""
  {
    if v.Some? && v.value != "" then v else None
  }

  /** The lookup's four `eq` filters; a null column never equals "". */
  predicate Matches(row: CartRow, userId: string, req: AddRequest) {
    && row.userId == userId
    && row.productId == req.productId
    && row.size == Some(LookupKey(req.size))
    && row.color == Some(LookupKey(req.color))
  }

  function MatchingIds(cart: map<nat, CartRow>, userId: string, req: AddRequest): (ids: set<nat>)
    ensures forall id :: id in ids <==> id in cart && Matches(cart[id], userId, req)
  {
    set id | id in cart && Matches(cart[id], userId, req)
  }

  /** The row the insert branch writes. */
  function NewRow(userId: string, req: AddRequest): CartRow {
    CartRow(userId, req.productId, Requested(req), StoredValue(req.size), StoredValue(req.color))
  }

  /**
   * The row the `.single()` lookup hands back as `data`. Its `error` is never read, so a lookup that
   * fails yields no row, just as zero or several matches do.
   */
  ghost function Existing(cart: map<nat, CartRow>, userId: string, req: AddRequest, lookup: Outcome): (r: Option<nat>)
    ensures r.Some? <==> lookup.Ok? && |MatchingIds(cart, userId, req)| == 1
    ensures r.Some? ==> MatchingIds(cart, userId, req) == {r.value}
  {
    if lookup.Failed? then None else Single(MatchingIds(cart, userId, req))
  }

  /**
   * The handler on the cart table and the id counter: the body (absent when it did not parse), the
   * signed-in user, the outcome of the `.single()` lookup, and the outcome of the one write it makes.
   */
  ghost function Post(
    cart: map<nat, CartRow>, nextId: nat, body: Option<AddRequest>, user: Option<string>,
    lookup: Outcome, write: Outcome)
    : (r: (map<nat, CartRow>, nat, Reply))
    ensures body.None? ==> r == (cart, nextId, InternalError)
    ensures body.Some? && user.None? ==> r == (cart, nextId, Unauthorized)
    ensures r.2.Success? <==> body.Some? && user.Some? && write.Ok?
    ensures !r.2.Success? ==> r.0 == cart && r.1 == nextId
    ensures r.2.Success? && lookup.Failed? ==> r.0 == cart[nextId := NewRow(user.value, body.value)] && r.1 == nextId + 1
  {
    if body.None? then (cart, nextId, InternalError)
    else if user.None? then (cart, nextId, Unauthorized)
    else if write.Failed? then (cart, nextId, ServerError(write.message))
    else
      var req := body.value;
      var existing := Existing(cart, user.value, req, lookup);
      if existing.Some? then
        var id := existing.value;
        (cart[id := cart[id].(quantity := cart[id].quantity + Requested(req))], nextId, Success)
      else
        (cart[nextId := NewRow(user.value, req)], nextId + 1, Success)
  }

  /** The handler: the parse, the user check, the `.single()` lookup, then the update or the insert. */
  method HandlePost(
    db: Store, body: Option<AddRequest>, user: Option<string>, lookup: Outcome, write: Outcome) returns (reply: Reply)
    requires db.Valid()
    modifies db`cart, db`nextId
    ensures db.Valid()
    ensures (db.cart, db.nextId, reply) == Post(old(db.cart), old(db.nextId), body, user, lookup, write)
  {
    if body.None? {
      return InternalError;
    }
    if user.None? {
      return Unauthorized;
    }
    var req := body.value;
    var userId := user.value;
    var matches := MatchingIds(db.cart, userId, req);
    if lookup.Ok? && |matches| == 1 {
      var id :| id in matches;
      assert Single(matches) == Some(id);
      if write.Failed? {
        return ServerError(write.message);
      }
      db.SetCartQuantity(id, db.cart[id].quantity + Requested(req));
    } else {
      if write.Failed? {
        return ServerError(write.message);
      }
      var id := db.InsertCart(NewRow(userId, req));
    }
    reply := Success;
  }

  /** Every id in use is below the counter. */
  ghost predicate Fresh(cart: map<nat, CartRow>, nextId: nat) {
    forall id :: id in cart ==> id < nextId
  }

  /**
   * A single matching row has its quantity raised by the requested amount; it keeps its other
   * columns, no row is added, and every other row is unchanged.
   */
  lemma MergeRaisesQuantity(cart: map<nat, CartRow>, nextId: nat, userId: string, req: AddRequest, id: nat)
    requires MatchingIds(cart, userId, req) == {id}
    ensures var (c, n, reply) := Post(cart, nextId, Some(req), Some(userId), Ok, Ok);
      && reply == Success && n == nextId && c.Keys == cart.Keys
      && c[id] == cart[id].(quantity := cart[id].quantity + Requested(req))
      && (forall other :: other in cart && other != id ==> c[other] == cart[other])
  {
    assert Single(MatchingIds(cart, userId, req)) == Some(id);
  }

  /**
   * Without a single matching row, exactly one row is added, under a fresh id, holding the requested
   * quantity and the stored forms of size and colour; every existing row is unchanged.
   */
  lemma NoMatchInsertsOne(cart: map<nat, CartRow>, nextId: nat, userId: string, req: AddRequest)
    requires Fresh(cart, nextId)
    requires |MatchingIds(cart, userId, req)| != 1
    ensures var (c, n, reply) := Post(cart, nextId, Some(req), Some(userId), Ok, Ok);
      && reply == Success && n == nextId + 1 && nextId !in cart
      && c.Keys == cart.Keys + {nextId}
      && c[nextId] == CartRow(userId, req.productId, Requested(req), StoredValue(req.size), StoredValue(req.color))
      && (forall other :: other in cart ==> c[other] == cart[other])
  {
  }

  /**
   * A row this handler inserted for a request without size or without colour never matches that
   * request again: it holds null where the lookup asks for "".
   */
  lemma InsertedRowWithoutOptionNeverMatches(userId: string, req: AddRequest, earlier: AddRequest)
    requires LookupKey(req.size) == "" || LookupKey(req.color) == ""
    ensures !Matches(NewRow(userId, earlier), userId, req)
  {
  }

  /** The ids matching a request after one row is written under `k`. */
  lemma MatchingAfterWrite(cart: map<nat, CartRow>, userId: string, req: AddRequest, k: nat, row: CartRow)
    ensures MatchingIds(cart[k := row], userId, req) ==
      (MatchingIds(cart, userId, req) - {k}) + (if Matches(row, userId, req) then {k} else {})
  {
  }

  /**
   * Adding the same product without a size (or colour) twice to a cart that had no matching row
   * stores two separate rows, each with the requested quantity.
   */
  lemma RepeatedAddWithoutOptionDuplicates(cart: map<nat, CartRow>, nextId: nat, userId: string, req: AddRequest)
    requires Fresh(cart, nextId)
    requires MatchingIds(cart, userId, req) == {}
    requires LookupKey(req.size) == "" || LookupKey(req.color) == ""
    ensures var (c1, n1, _) := Post(cart, nextId, Some(req), Some(userId), Ok, Ok);
      var (c2, n2, _) := Post(c1, n1, Some(req), Some(userId), Ok, Ok);
      && c2 == cart[nextId := NewRow(userId, req)][nextId + 1 := NewRow(userId, req)]
      && n2 == nextId + 2
  {
    var row := NewRow(userId, req);
    InsertedRowWithoutOptionNeverMatches(userId, req, req);
    MatchingAfterWrite(cart, userId, req, nextId, row);
    assert MatchingIds(cart[nextId := row], userId, req) == {};
  }

  /**
   * With both a size and a colour, a second identical add finds the row the first one inserted and
   * raises its quantity instead of adding another row.
   */
  lemma RepeatedAddWithOptionsMerges(cart: map<nat, CartRow>, nextId: nat, userId: string, req: AddRequest)
    requires Fresh(cart, nextId)
    requires MatchingIds(cart, userId, req) == {}
    requires LookupKey(req.size) != "" && LookupKey(req.color) != ""
    ensures var (c1, n1, _) := Post(cart, nextId, Some(req), Some(userId), Ok, Ok);
      var (c2, n2, _) := Post(c1, n1, Some(req), Some(userId), Ok, Ok);
      && c2 == cart[nextId := NewRow(userId, req).(quantity := Requested(req) + Requested(req))]
      && n2 == nextId + 1
  {
    var row := NewRow(userId, req);
    assert Matches(row, userId, req);
    MatchingAfterWrite(cart, userId, req, nextId, row);
    var c1 := cart[nextId := row];
    assert MatchingIds(c1, userId, req) == {nextId};
    assert Single(MatchingIds(c1, userId, req)) == Some(nextId);
    assert c1[nextId := c1[nextId].(quantity := c1[nextId].quantity + Requested(req))]
      == cart[nextId := row.(quantity := Requested(req) + Requested(req))];
  }

  /**
   * A failed lookup is read as "no such row": even when the cart holds exactly one matching row, the
   * handler inserts a second one rather than raising its quantity.
   */
  lemma FailedLookupInsertsAnother(
    cart: map<nat, CartRow>, nextId: nat, userId: string, req: AddRequest, id: nat, message: string)
    requires Fresh(cart, nextId)
    requires MatchingIds(cart, userId, req) == {id}
    ensures var (c, n, reply) := Post(cart, nextId, Some(req), Some(userId), Failed(message), Ok);
      && reply == Success && n == nextId + 1 && c[id] == cart[id]
      && c == cart[nextId := NewRow(userId, req)]
  {
    assert nextId != id;
  }
}
