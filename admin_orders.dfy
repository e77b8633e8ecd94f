/** The admin's order list: a search over order number, customer name and email, a status filter, and unit totals. */
module AdminOrders {
  import opened Common
  import opened Text
  import opened Seqs

  /** The joined profile; it, its name and its email may each be missing. */
  datatype Profile = Profile(fullName: Option<string>, email: Option<string>)

  datatype OrderItem = OrderItem(productName: string, quantity: int)

  datatype Order = Order(orderNumber: string, status: string, profile: Option<Profile>, items: seq<OrderItem>)

  /** `x?.toLowerCase().includes(q)`: a missing value is `undefined`, which is falsy. */
  predicate OptionalIncludes(v: Option<string>, search: string) {
    v.Some? && Includes(Lower(v.value), Lower(search))
  }

  predicate MatchesSearch(order: Order, search: string) {
    || Includes(Lower(order.orderNumber), Lower(search))
    || (order.profile.Some? && OptionalIncludes(order.profile.value.fullName, search))
    || (order.profile.Some? && OptionalIncludes(order.profile.value.email, search))
  }

  predicate Keeps(order: Order, search: string, statusFilter: string) {
    MatchesSearch(order, search) && (statusFilter == "all" || order.status == statusFilter)
  }

  /** `filteredOrders`. */
  function FilteredOrders(orders: seq<Order>, search: string, statusFilter: string): (r: seq<Order>)
    ensures IsSubsequence(r, orders)
    ensures forall o :: o in r <==> o in orders && Keeps(o, search, statusFilter)
    ensures forall o :: multiset(r)[o] == if Keeps(o, search, statusFilter) then multiset(orders)[o] else 0
  {
    var keep := o => Keeps(o, search, statusFilter);
    FilterSubsequence(orders, keep);
    Filter(orders, keep)
  }

  /** An empty search under "all" shows every order, with or without a profile. */
  lemma EmptySearchShowsAll(orders: seq<Order>)
    ensures FilteredOrders(orders, "", "all") == orders
  {
    forall o | o in orders ensures Keeps(o, "", "all") {
      IncludesTrivial(Lower(o.orderNumber));
    }
    FilterAll(orders, o => Keeps(o, "", "all"));
  }

  /** An order without a profile is found only through its order number. */
  lemma MissingProfileMatchesOnlyByNumber(order: Order, search: string)
    requires order.profile.None?
    ensures MatchesSearch(order, search) <==> Includes(Lower(order.orderNumber), Lower(search))
  {
  }

  /** A missing name or email never matches by itself, even for an empty search. */
  lemma MissingFieldNeverMatches(v: Option<string>, search: string)
    ensures v.None? ==> !OptionalIncludes(v, search)
    ensures v.Some? ==> OptionalIncludes(v, "")
  {
    if v.Some? {
      IncludesTrivial(Lower(v.value));
    }
  }

  /** `order.profiles?.full_name || "Guest"`. */
  function CustomerName(order: Order): (name: string)
    ensures name == "Guest" <==>
      order.profile.None? || order.profile.value.fullName in {None, Some(""), Some("Guest")}
    ensures name != "Guest" ==> order.profile.Some? && order.profile.value.fullName == Some(name)
  {
    if order.profile.Some? && order.profile.value.fullName.Some? && order.profile.value.fullName.value != ""
    then order.profile.value.fullName.value
    else "Guest"
  }

  function Quantity(item: OrderItem): int {
    item.quantity
  }

  /** `order_items.length`. */
  function ItemCount(order: Order): (n: nat)
  {
    |order.items|
  }

  /** `order_items.reduce((sum, item) => sum + item.quantity, 0)`. */
  function Units(order: Order): (n: int)
    ensures order.items == [] ==> n == 0
  {
    Sum(order.items, Quantity)
  }

  /** When every line has a positive quantity, there are at least as many units as lines. */
  lemma UnitsAtLeastItems(order: Order)
    requires forall i :: 0 <= i < |order.items| ==> order.items[i].quantity >= 1
    ensures Units(order) >= ItemCount(order)
  {
    AtLeastOneEach(order.items);
  }

  lemma {:induction false} AtLeastOneEach(items: seq<OrderItem>)
    requires forall i :: 0 <= i < |items| ==> items[i].quantity >= 1
    ensures Sum(items, Quantity) >= |items|
    decreases |items|
  {
    if items != [] {
      AtLeastOneEach(items[..|items| - 1]);
    }
  }

  /** The units of an order are those of its first lines plus those of the rest. */
  lemma UnitsSplit(order: Order, k: nat)
    requires k <= |order.items|
    ensures Units(order) == Sum(order.items[..k], Quantity) + Sum(order.items[k..], Quantity)
  {
    assert order.items == order.items[..k] + order.items[k..];
    SumAppend(order.items[..k], order.items[k..], Quantity);
  }
}
