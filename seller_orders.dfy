/** The seller's order list: a search-and-status filter, and the status counts above it. */
module SellerOrders {
  import opened Text
  import opened Seqs

  /**
   * An order as the page receives it, with the customer's profile name. The page reads that name
   * without a null guard, so a missing profile would throw; the name is taken to be present.
   */
  datatype Order = Order(orderNumber: string, status: string, customerName: string)

  /** The lower-cased search text occurs in the lower-cased order number or customer name. */
  predicate MatchesSearch(order: Order, search: string) {
    Includes(Lower(order.orderNumber), Lower(search)) || Includes(Lower(order.customerName), Lower(search))
  }

  predicate MatchesFilter(order: Order, filterStatus: string) {
    filterStatus == "all" || order.status == filterStatus
  }

  predicate Keeps(order: Order, search: string, filterStatus: string) {
    MatchesSearch(order, search) && MatchesFilter(order, filterStatus)
  }

  /** `filteredOrders`: the orders the filter keeps, in their original order, each as often as given. */
  function FilteredOrders(orders: seq<Order>, search: string, filterStatus: string): (r: seq<Order>)
    ensures IsSubsequence(r, orders)
    ensures forall o :: o in r <==> o in orders && Keeps(o, search, filterStatus)
    ensures forall o :: multiset(r)[o] == if Keeps(o, search, filterStatus) then multiset(orders)[o] else 0
  {
    var keep := o => Keeps(o, search, filterStatus);
    FilterSubsequence(orders, keep);
    Filter(orders, keep)
  }

  /** An empty search under "all" shows every order. */
  lemma EmptySearchShowsAll(orders: seq<Order>)
    ensures FilteredOrders(orders, "", "all") == orders
  {
    forall o | o in orders ensures Keeps(o, "", "all") {
      IncludesTrivial(Lower(o.orderNumber));
    }
    FilterAll(orders, o => Keeps(o, "", "all"));
  }

  /** The search ignores the case of the search text. */
  lemma SearchIgnoresCase(orders: seq<Order>, search: string, filterStatus: string)
    ensures FilteredOrders(orders, search, filterStatus) == FilteredOrders(orders, Lower(search), filterStatus)
  {
    LowerIdempotent(search);
    FilterCongruent(orders, o => Keeps(o, search, filterStatus), o => Keeps(o, Lower(search), filterStatus));
  }

  /** `orders.filter((o) => o.status === status).length`. */
  function CountStatus(orders: seq<Order>, status: string): (n: nat)
    ensures n <= |orders|
  {
    |Filter(orders, (o: Order) => o.status == status)|
  }

  /** A count by status is the number of orders with that status, first order first. */
  lemma CountStatusCons(orders: seq<Order>, status: string)
    requires orders != []
    ensures CountStatus(orders, status) == (if orders[0].status == status then 1 else 0) + CountStatus(orders[1..], status)
  {
  }

  /** The pending, processing and delivered cards together never count more orders than there are. */
  lemma {:induction false} StatusCountsWithinTotal(orders: seq<Order>)
    ensures CountStatus(orders, "pending") + CountStatus(orders, "processing") + CountStatus(orders, "delivered") <= |orders|
    decreases |orders|
  {
    if orders != [] {
      StatusCountsWithinTotal(orders[1..]);
      CountStatusCons(orders, "pending");
      CountStatusCons(orders, "processing");
      CountStatusCons(orders, "delivered");
    }
  }
}
