/**
 * The shop discovery page: a search over name, business type and city, a sort by distance, rating
 * or age, and the distances attached once the visitor's location is known.
 */
module ShopDiscovery {
  import opened Common
  import opened Text
  import opened Seqs

  /**
   * A shop as the page holds it. Coordinates, ratings, distances and creation times are integers;
   * `distance` is absent until one is attached.
   */
  datatype Shop = Shop(
    name: string, businessType: string, city: string, latitude: int, longitude: int,
    rating: Option<int>, createdAt: int, distance: Option<int>)

  datatype Coordinates = Coordinates(latitude: int, longitude: int)

  datatype SortKey = Distance | Rating | Newest

  /** `shop.name / business_type / city .toLowerCase().includes(query.toLowerCase())`, any of the three. */
  predicate Keeps(shop: Shop, search: string) {
    || Includes(Lower(shop.name), Lower(search))
    || Includes(Lower(shop.businessType), Lower(search))
    || Includes(Lower(shop.city), Lower(search))
  }

  function Filtered(shops: seq<Shop>, search: string): (r: seq<Shop>)
    ensures IsSubsequence(r, shops)
    ensures forall s :: s in r <==> s in shops && Keeps(s, search)
    ensures forall s :: multiset(r)[s] == if Keeps(s, search) then multiset(shops)[s] else 0
  {
    var keep := s => Keeps(s, search);
    FilterSubsequence(shops, keep);
    Filter(shops, keep)
  }

  /** A distance is truthy when present and not zero. */
  predicate HasDistance(shop: Shop) {
    shop.distance.Some? && shop.distance.value != 0
  }

  /** `rating || 0`. */
  function RatingOrZero(shop: Shop): int {
    shop.rating.GetOr(0)
  }

  /** The comparator passed to `sort`: negative when `a` goes first, positive when `b` does. */
  function Compare(key: SortKey, a: Shop, b: Shop): int {
    match key
    case Distance =>
      if !HasDistance(a) && !HasDistance(b) then 0
      else if !HasDistance(a) then 1
      else if !HasDistance(b) then -1
      else a.distance.value - b.distance.value
    case Rating => RatingOrZero(b) - RatingOrZero(a)
    case Newest => b.createdAt - a.createdAt
  }

  /** The comparator is consistent: swapping its arguments negates it. */
  lemma CompareAntisymmetric(key: SortKey, a: Shop, b: Shop)
    ensures Compare(key, a, b) == -Compare(key, b, a)
  {
  }

  /** The comparator is consistent: "goes no later than" is transitive. */
  lemma CompareTransitive(key: SortKey, a: Shop, b: Shop, c: Shop)
    requires Compare(key, a, b) <= 0 && Compare(key, b, c) <= 0
    ensures Compare(key, a, c) <= 0
  {
  }

  /** No pair is out of the comparator's order. */
  predicate Sorted(key: SortKey, s: seq<Shop>) {
    forall i, j :: 0 <= i < j < |s| ==> Compare(key, s[i], s[j]) <= 0
  }

  /** Put `x` before the first shop it does not go after, so it stays ahead of the shops equal to it. */
  function Insert(key: SortKey, x: Shop, s: seq<Shop>): (r: seq<Shop>)
    ensures multiset(r) == multiset(s) + multiset{x}
    ensures |r| == |s| + 1
    decreases |s|
  {
    if s == [] then [x]
    else if Compare(key, x, s[0]) <= 0 then [x] + s
    else
      assert s == [s[0]] + s[1..];
      [s[0]] + Insert(key, x, s[1..])
  }

  lemma {:induction false} InsertSorted(key: SortKey, x: Shop, s: seq<Shop>)
    requires Sorted(key, s)
    ensures Sorted(key, Insert(key, x, s))
    decreases |s|
  {
    if s == [] {
    } else if Compare(key, x, s[0]) <= 0 {
      forall y | y in s ensures Compare(key, x, y) <= 0 {
        var j :| 0 <= j < |s| && s[j] == y;
        if j > 0 {
          CompareTransitive(key, x, s[0], y);
        }
      }
      SortedCons(key, x, s);
    } else {
      CompareAntisymmetric(key, x, s[0]);
      SortedTail(key, s);
      InsertSorted(key, x, s[1..]);
      var t := Insert(key, x, s[1..]);
      forall y | y in t ensures Compare(key, s[0], y) <= 0 {
        assert y in multiset(t);
        if y != x {
          assert y in multiset(s[1..]);
          var j :| 0 <= j < |s[1..]| && s[1..][j] == y;
          assert s[j + 1] == y;
        }
      }
      SortedCons(key, s[0], t);
    }
  }

  /** A shop that goes no later than any shop of a sorted list can be put in front of it. */
  lemma SortedCons(key: SortKey, h: Shop, t: seq<Shop>)
    requires Sorted(key, t)
    requires forall y :: y in t ==> Compare(key, h, y) <= 0
    ensures Sorted(key, [h] + t)
  {
    var r := [h] + t;
    forall i, j | 0 <= i < j < |r| ensures Compare(key, r[i], r[j]) <= 0 {
      assert r[j] == t[j - 1];
      if i > 0 {
        assert r[i] == t[i - 1];
      } else {
        assert r[j] in t;
      }
    }
  }

  /** The page's sort: stable, as `Array.prototype.sort` is. */
  function Sort(key: SortKey, s: seq<Shop>): (r: seq<Shop>)
    ensures multiset(r) == multiset(s)
    ensures |r| == |s|
    decreases |s|
  {
    if s == [] then []
    else
      assert s == [s[0]] + s[1..];
      Insert(key, s[0], Sort(key, s[1..]))
  }

  /** The sort's output is in the comparator's order. */
  lemma {:induction false} SortSorted(key: SortKey, s: seq<Shop>)
    ensures Sorted(key, Sort(key, s))
    decreases |s|
  {
    if s != [] {
      SortSorted(key, s[1..]);
      InsertSorted(key, s[0], Sort(key, s[1..]));
    }
  }

  /** A list already in order comes back unchanged. */
  lemma {:induction false} SortKeepsSortedInput(key: SortKey, s: seq<Shop>)
    requires Sorted(key, s)
    ensures Sort(key, s) == s
    decreases |s|
  {
    if s != [] {
      var t := s[1..];
      SortedTail(key, s);
      SortKeepsSortedInput(key, t);
      assert Sort(key, s) == Insert(key, s[0], Sort(key, t));
      if t != [] {
        assert t[0] == s[1];
      }
      InsertFront(key, s[0], t);
      assert s == [s[0]] + t;
    }
  }

  /** A shop that goes no later than the head is inserted in front. */
  lemma InsertFront(key: SortKey, x: Shop, t: seq<Shop>)
    requires t == [] || Compare(key, x, t[0]) <= 0
    ensures Insert(key, x, t) == [x] + t
  {
  }

  /** The shops the comparator ties with `x`: those it returns 0 for. */
  function Ties(key: SortKey, x: Shop): Shop -> bool {
    y => Compare(key, x, y) == 0
  }

  /**
   * Inserting keeps the shops that tie with any `x` in their order: `h` is put ahead only of shops
   * it goes strictly after, and none of those ties with a shop that ties with `h`.
   */
  lemma {:induction false} InsertStable(key: SortKey, x: Shop, h: Shop, t: seq<Shop>)
    ensures Filter(Insert(key, h, t), Ties(key, x)) == Filter([h] + t, Ties(key, x))
    decreases |t|
  {
    if t != [] && Compare(key, h, t[0]) > 0 {
      var p := Ties(key, x);
      var u := t[1..];
      assert t == [t[0]] + u;
      InsertStable(key, x, h, u);
      FilterCons(t[0], Insert(key, h, u), p);
      FilterCons(h, t, p);
      FilterCons(t[0], u, p);
      FilterCons(h, u, p);
      TiesExclusive(key, x, h, t[0]);
    }
  }

  /** Shops the comparator does not call equal never both tie with the same shop. */
  lemma TiesExclusive(key: SortKey, x: Shop, a: Shop, b: Shop)
    requires Compare(key, a, b) != 0
    ensures !(Ties(key, x)(a) && Ties(key, x)(b))
  {
  }

  /**
   * The sort is stable: for every shop `x`, the shops that tie with it come out in the order they
   * went in, so no shop moves past one the comparator calls equal.
   */
  lemma {:induction false} SortStable(key: SortKey, x: Shop, s: seq<Shop>)
    ensures Filter(Sort(key, s), Ties(key, x)) == Filter(s, Ties(key, x))
    decreases |s|
  {
    if s != [] {
      SortStable(key, x, s[1..]);
      InsertStable(key, x, s[0], Sort(key, s[1..]));
      FilterCons(s[0], Sort(key, s[1..]), Ties(key, x));
      FilterCons(s[0], s[1..], Ties(key, x));
      assert s == [s[0]] + s[1..];
    }
  }

  lemma SortedTail(key: SortKey, s: seq<Shop>)
    requires s != [] && Sorted(key, s)
    ensures Sorted(key, s[1..])
  {
    var t := s[1..];
    forall i, j | 0 <= i < j < |t| ensures Compare(key, t[i], t[j]) <= 0 {
      assert t[i] == s[i + 1] && t[j] == s[j + 1];
    }
  }

  /** `filteredAndSortedShops`. */
  function FilteredAndSorted(shops: seq<Shop>, search: string, key: SortKey): (r: seq<Shop>)
    ensures multiset(r) == multiset(Filtered(shops, search))
    ensures forall s :: s in r <==> s in shops && Keeps(s, search)
  {
    var f := Filtered(shops, search);
    var r := Sort(key, f);
    assert forall s :: s in r <==> s in multiset(r);
    assert forall s :: s in f <==> s in multiset(f);
    r
  }

  /**
   * Under "distance", every shop with a distance comes before every shop without one, and the shops
   * with distances are nearest first.
   */
  lemma DistanceOrder(shops: seq<Shop>, search: string)
    ensures var r := FilteredAndSorted(shops, search, Distance);
      forall i, j :: 0 <= i < j < |r| ==>
        && (HasDistance(r[j]) ==> HasDistance(r[i]))
        && (HasDistance(r[j]) ==> r[i].distance.value <= r[j].distance.value)
  {
    SortSorted(Distance, Filtered(shops, search));
  }

  /** Under "rating", the best rated come first, a missing rating counting as 0. */
  lemma RatingOrder(shops: seq<Shop>, search: string)
    ensures var r := FilteredAndSorted(shops, search, Rating);
      forall i, j :: 0 <= i < j < |r| ==> RatingOrZero(r[i]) >= RatingOrZero(r[j])
  {
    SortSorted(Rating, Filtered(shops, search));
  }

  /** Under "newest", the most recently created come first. */
  lemma NewestOrder(shops: seq<Shop>, search: string)
    ensures var r := FilteredAndSorted(shops, search, Newest);
      forall i, j :: 0 <= i < j < |r| ==> r[i].createdAt >= r[j].createdAt
  {
    SortSorted(Newest, Filtered(shops, search));
  }

  /** Before any distance is known, sorting by distance keeps the filtered list as it is. */
  lemma NoDistancesKeepOrder(shops: seq<Shop>, search: string)
    requires forall i :: 0 <= i < |shops| ==> !HasDistance(shops[i])
    ensures FilteredAndSorted(shops, search, Distance) == Filtered(shops, search)
  {
    var f := Filtered(shops, search);
    assert forall s :: s in f ==> !HasDistance(s);
    SortKeepsSortedInput(Distance, f);
  }

  /** `shop.latitude && shop.longitude ? calculateDistance(...) : undefined`. */
  function WithDistance(shop: Shop, location: Coordinates, distanceTo: (Coordinates, int, int) -> int): (r: Shop)
    ensures r.distance.Some? <==> shop.latitude != 0 && shop.longitude != 0
    ensures r.distance.Some? ==> r.distance.value == distanceTo(location, shop.latitude, shop.longitude)
    ensures r.(distance := shop.distance) == shop
  {
    shop.(distance :=
      if shop.latitude != 0 && shop.longitude != 0
      then Some(distanceTo(location, shop.latitude, shop.longitude))
      else None)
  }

  /** The location effect's `shops.map(...)`. */
  function AttachDistances(shops: seq<Shop>, location: Coordinates, distanceTo: (Coordinates, int, int) -> int): (r: seq<Shop>)
    ensures |r| == |shops|
    ensures forall i :: 0 <= i < |shops| ==> r[i] == WithDistance(shops[i], location, distanceTo)
  {
    seq(|shops|, i requires 0 <= i < |shops| => WithDistance(shops[i], location, distanceTo))
  }

  /** A shop at latitude or longitude 0 gets no distance, and so sorts after every shop that has one. */
  lemma ZeroCoordinateSortsLast(shop: Shop, other: Shop, location: Coordinates, distanceTo: (Coordinates, int, int) -> int)
    requires shop.latitude == 0 || shop.longitude == 0
    requires HasDistance(other)
    ensures Compare(Distance, other, WithDistance(shop, location, distanceTo)) < 0
  {
  }

  /** What `getCurrentLocation` gave. */
  datatype LocationResult = Located(coordinates: Coordinates) | LocationFailed(message: string)

  /** What the nearby-shops `fetch` gave: a thrown error, a response that is not ok, or the shops. */
  datatype NearbyResult = NearbyThrew(message: string) | NotOk | NearbyShops(shops: seq<Shop>)

  /** The page's state. */
  class DiscoveryPage {
    var shops: seq<Shop>
    var userLocation: Option<Coordinates>
    var locationLoading: bool
    var locationError: string

    constructor (initialShops: seq<Shop>)
      ensures shops == initialShops && userLocation == None && !locationLoading && locationError == ""
    {
      shops, userLocation, locationLoading, locationError := initialShops, None, false, "";
    }

    /** The effect that runs when `userLocation` changes: with a location, every shop gets its distance. */
    method LocationEffect(distanceTo: (Coordinates, int, int) -> int)
      modifies this`shops
      ensures userLocation.Some? ==> shops == AttachDistances(old(shops), userLocation.value, distanceTo)
      ensures userLocation.None? ==> shops == old(shops)
    {
      if userLocation.Some? {
        shops := AttachDistances(shops, userLocation.value, distanceTo);
      }
    }

    /**
     * `requestLocation`: record the location (which runs the effect on the current shops), then
     * replace the shops by the nearby ones when that response is ok; a thrown error is recorded.
     * The page offers the button only while no location is set, so there is none yet.
     */
    method RequestLocation(location: LocationResult, nearby: NearbyResult, distanceTo: (Coordinates, int, int) -> int)
      requires userLocation.None?
      modifies this`shops, this`userLocation, this`locationLoading, this`locationError
      ensures !locationLoading
      ensures location.LocationFailed? ==>
        && shops == old(shops) && userLocation == old(userLocation) && locationError == location.message
      ensures location.Located? ==> userLocation == Some(location.coordinates)
      ensures location.Located? && nearby.NearbyShops? ==> shops == nearby.shops && locationError == ""
      ensures location.Located? && !nearby.NearbyShops? ==>
        shops == AttachDistances(old(shops), location.coordinates, distanceTo)
      ensures location.Located? && nearby.NotOk? ==> locationError == ""
      ensures location.Located? && nearby.NearbyThrew? ==> locationError == nearby.message
    {
      locationLoading := true;
      locationError := "";
      if location.LocationFailed? {
        locationError := location.message;
        locationLoading := false;
        return;
      }
      userLocation := Some(location.coordinates);
      LocationEffect(distanceTo);
      match nearby {
        case NearbyThrew(message) => locationError := message;
        case NotOk =>
        case NearbyShops(s) => shops := s;
      }
      locationLoading := false;
    }
  }
}
