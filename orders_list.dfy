/** The buyer's order list: the badge for each status, the buttons each order offers, and the empty state. */
module OrdersList {
  /** The buttons under an order. */
  datatype Action = ViewDetails | WriteReview | TrackOrder | CancelOrder

  datatype Icon = CheckCircle | Truck | PackageIcon | XCircle

  /** The statuses the badge switch names. */
  predicate KnownStatus(status: string) {
    status in {"delivered", "shipped", "confirmed", "pending", "cancelled"}
  }

  const Gray := "bg-gray-100 text-gray-800"

  /** `getStatusColor`. */
  function StatusColor(status: string): (color: string)
    ensures !KnownStatus(status) ==> color == Gray
    ensures color == Gray <==> status == "pending" || !KnownStatus(status)
  {
    match status
    case "delivered" => "bg-green-100 text-green-800"
    case "shipped" => "bg-blue-100 text-blue-800"
    case "confirmed" => "bg-yellow-100 text-yellow-800"
    case "pending" => Gray
    case "cancelled" => "bg-red-100 text-red-800"
    case _ => Gray
  }

  /** `getStatusIcon`: "pending" has no case of its own and shares the default. */
  function StatusIcon(status: string): (icon: Icon)
    ensures icon == PackageIcon <==> status !in {"delivered", "shipped", "cancelled"}
    ensures icon == CheckCircle <==> status == "delivered"
  {
    match status
    case "delivered" => CheckCircle
    case "shipped" => Truck
    case "confirmed" => PackageIcon
    case "cancelled" => XCircle
    case _ => PackageIcon
  }

  /** The buttons of one order, in the order they appear. */
  function Actions(status: string): (r: seq<Action>)
    ensures |r| >= 1 && r[0] == ViewDetails
    ensures WriteReview in r <==> status == "delivered"
    ensures TrackOrder in r <==> status == "shipped"
    ensures CancelOrder in r <==> status == "pending" || status == "confirmed"
  {
    [ViewDetails]
      + (if status == "delivered" then [WriteReview] else [])
      + (if status == "shipped" then [TrackOrder] else [])
      + (if status == "pending" || status == "confirmed" then [CancelOrder] else [])
  }

  /**
   * Every order offers "View Details" and at most one other action; "cancelled" and any status the
   * page does not know offer nothing else.
   */
  lemma AtMostOneAction(status: string)
    ensures |Actions(status)| <= 2
    ensures ViewDetails in Actions(status)
    ensures status == "cancelled" || !KnownStatus(status) ==> Actions(status) == [ViewDetails]
  {
  }

  /** What the page shows for each order. */
  datatype OrderCard = OrderCard(color: string, icon: Icon, actions: seq<Action>)

  datatype View = EmptyState | OrderCards(count: nat, cards: seq<OrderCard>)

  function CardFor(status: string): OrderCard {
    OrderCard(StatusColor(status), StatusIcon(status), Actions(status))
  }

  /** The page for a list of order statuses. */
  function Render(statuses: seq<string>): (v: View)
    ensures v == EmptyState <==> statuses == []
    ensures v.OrderCards? ==> v.count == |statuses| && |v.cards| == |statuses|
    ensures v.OrderCards? ==> forall i :: 0 <= i < |statuses| ==> v.cards[i] == CardFor(statuses[i])
  {
    if |statuses| == 0 then EmptyState
    else OrderCards(|statuses|, seq(|statuses|, i requires 0 <= i < |statuses| => CardFor(statuses[i])))
  }
}
