/**
 * `GET` and `POST /api/seller/products`: list the seller's own products, and create one. Both find
 * the seller's shop with a `.single()` lookup; the create forces the shop id and the slug.
 */
module SellerProductsApi {
  import opened Common
  import opened Tables
  import Slug

  /** The ids of the shops whose seller is `userId`. */
  function ShopsOf(shops: map<nat, ShopRow>, userId: string): (ids: set<nat>)
    ensures forall id :: id in ids <==> id in shops && shops[id].sellerId == userId
  {
    set id | id in shops && shops[id].sellerId == userId
  }

  /** The products whose `shop_id` is the given shop. */
  function ProductsOf(products: map<nat, Record>, shopId: nat): (r: map<nat, Record>)
    ensures forall id :: id in r <==> id in products && "shop_id" in products[id] && products[id]["shop_id"] == JNumber(shopId)
    ensures forall id :: id in r ==> r[id] == products[id]
  {
    map id | id in products && "shop_id" in products[id] && products[id]["shop_id"] == JNumber(shopId) :: products[id]
  }

  datatype GetReply =
    | GetUnauthorized
    | GetShopNotFound
    | GetFailed(message: string)
    | Listed(products: map<nat, Record>)

  /**
   * The seller's shop as the `.single()` lookup hands it back in `data`. Its `error` is never read, so
   * a lookup that fails finds no shop, just as zero or several shops do.
   */
  ghost function ShopOf(shops: map<nat, ShopRow>, userId: string, lookup: Outcome): (r: Option<nat>)
    ensures r.Some? <==> lookup.Ok? && |ShopsOf(shops, userId)| == 1
    ensures r.Some? ==> ShopsOf(shops, userId) == {r.value} && shops[r.value].sellerId == userId
  {
    if lookup.Failed? then None else Single(ShopsOf(shops, userId))
  }

  /** `GET`, given the signed-in user, the outcome of the shop lookup and that of the products query. */
  ghost function Get(
    shops: map<nat, ShopRow>, products: map<nat, Record>, user: Option<string>, shopLookup: Outcome,
    query: Outcome): (r: GetReply)
    ensures r == GetUnauthorized <==> user.None?
    ensures r == GetShopNotFound <==> user.Some? && (shopLookup.Failed? || |ShopsOf(shops, user.value)| != 1)
    ensures r.Listed? ==>
      && user.Some? && query.Ok?
      && exists shopId :: ShopsOf(shops, user.value) == {shopId} && r.products == ProductsOf(products, shopId)
  {
    if user.None? then GetUnauthorized
    else
      var shop := ShopOf(shops, user.value, shopLookup);
      if shop.None? then GetShopNotFound
      else if query.Failed? then GetFailed(query.message)
      else Listed(ProductsOf(products, shop.value))
  }

  /** Every listed product belongs to the seller's own shop, and every product of that shop is listed. */
  lemma ListedAreTheSellersOwn(
    shops: map<nat, ShopRow>, products: map<nat, Record>, userId: string, shopId: nat)
    requires ShopsOf(shops, userId) == {shopId}
    ensures Get(shops, products, Some(userId), Ok, Ok) == Listed(ProductsOf(products, shopId))
    ensures shopId in shops && shops[shopId].sellerId == userId
  {
    assert Single(ShopsOf(shops, userId)) == Some(shopId);
  }

  datatype PostReply =
    | PostUnauthorized
    | PostShopNotFound
    /** The body did not parse, or `body.name.toLowerCase()` threw. */
    | InvalidBody
    | PostFailed(message: string)
    | Created(product: Record)
  {
    function Status(): (code: int)
      ensures code == 200 <==> Created?
      ensures code == 400 <==> InvalidBody?
      ensures code == 404 <==> PostShopNotFound?
    {
      match this
      case PostUnauthorized => 401
      case PostShopNotFound => 404
      case InvalidBody => 400
      case PostFailed(_) => 500
      case Created(_) => 200
    }
  }

  /** `body.name.toLowerCase()` only works on an object whose `name` is a string. */
  predicate HasName(body: Json) {
    body.JObject? && "name" in body.fields && body.fields["name"].JString?
  }

  /** `{ ...body, shop_id: shop.id, slug: ... }`: the body's fields, with these two overridden. */
  function SellerProductData(fields: map<string, Json>, shopId: nat, name: string): (r: Record)
    ensures r.Keys == fields.Keys + {"shop_id", "slug"}
    ensures r["shop_id"] == JNumber(shopId)
    ensures r["slug"] == JString(Slug.Slugify(name))
    ensures forall k :: k in fields && k != "shop_id" && k != "slug" ==> r[k] == fields[k]
  {
    fields["shop_id" := JNumber(shopId)]["slug" := JString(Slug.Slugify(name))]
  }

  /**
   * `POST` on the products table and the id counter, given the signed-in user, the outcome of the
   * shop lookup, the body (absent when it did not parse) and the outcome of the insert.
   */
  ghost function Post(
    shops: map<nat, ShopRow>, products: map<nat, Record>, nextId: nat,
    user: Option<string>, shopLookup: Outcome, body: Option<Json>, insert: Outcome)
    : (r: (map<nat, Record>, nat, PostReply))
    ensures !r.2.Created? ==> r.0 == products && r.1 == nextId
    ensures r.2 == PostUnauthorized <==> user.None?
    ensures r.2 == PostShopNotFound <==> user.Some? && (shopLookup.Failed? || |ShopsOf(shops, user.value)| != 1)
    ensures r.2.Created? ==> body.Some? && HasName(body.value) && insert.Ok?
  {
    if user.None? then (products, nextId, PostUnauthorized)
    else
      var shop := ShopOf(shops, user.value, shopLookup);
      if shop.None? then (products, nextId, PostShopNotFound)
      else if body.None? || !HasName(body.value) then (products, nextId, InvalidBody)
      else if insert.Failed? then (products, nextId, PostFailed(insert.message))
      else
        var row := SellerProductData(body.value.fields, shop.value, body.value.fields["name"].str);
        (products[nextId := row], nextId + 1, Created(row))
  }

  method HandlePost(
    db: Store, user: Option<string>, shopLookup: Outcome, body: Option<Json>, insert: Outcome) returns (reply: PostReply)
    requires db.Valid()
    modifies db`products, db`nextId
    ensures db.Valid()
    ensures (db.products, db.nextId, reply) == Post(db.shops, old(db.products), old(db.nextId), user, shopLookup, body, insert)
  {
    if user.None? {
      return PostUnauthorized;
    }
    var matches := ShopsOf(db.shops, user.value);
    if shopLookup.Failed? || |matches| != 1 {
      return PostShopNotFound;
    }
    var shopId :| shopId in matches;
    assert Single(matches) == Some(shopId);
    if body.None? || !HasName(body.value) {
      return InvalidBody;
    }
    if insert.Failed? {
      return PostFailed(insert.message);
    }
    var row := SellerProductData(body.value.fields, shopId, body.value.fields["name"].str);
    var id := db.InsertProduct(row);
    reply := Created(row);
  }

  /**
   * A created product belongs to the seller's own shop whatever `shop_id` the body named, carries the
   * slug of the body's name whatever `slug` it named, and is the only row added.
   */
  lemma CreatedBelongsToOwnShop(
    shops: map<nat, ShopRow>, products: map<nat, Record>, nextId: nat,
    userId: string, body: Json, shopId: nat)
    requires ShopsOf(shops, userId) == {shopId}
    requires HasName(body)
    ensures var (p, n, reply) := Post(shops, products, nextId, Some(userId), Ok, Some(body), Ok);
      && reply.Created? && n == nextId + 1 && p == products[nextId := reply.product]
      && reply.product["shop_id"] == JNumber(shopId) && shops[shopId].sellerId == userId
      && reply.product["slug"] == JString(Slug.Slugify(body.fields["name"].str))
  {
    assert Single(ShopsOf(shops, userId)) == Some(shopId);
  }

  /** A body that is not an object with a string `name` is refused with 400 and nothing is inserted. */
  lemma NamelessBodyRefused(
    shops: map<nat, ShopRow>, products: map<nat, Record>, nextId: nat,
    userId: string, body: Option<Json>, insert: Outcome)
    requires |ShopsOf(shops, userId)| == 1
    requires body.None? || !HasName(body.value)
    ensures Post(shops, products, nextId, Some(userId), Ok, body, insert) == (products, nextId, InvalidBody)
  {
  }
}
