/**
 * The admin order queue (src/pages/OrdersPage.jsx): the status filter and bill-number
 * search over the fetched orders, the status badge, which action button an order
 * offers, the item count, and the page's `orders` state with its wholesale
 * replacement on fetch and the optimistic status rewrites.
 */
module OrdersPage {
  import opened Optional
  import opened Seqs
  import opened Text

  datatype OrderItem = OrderItem(name: string, quantity: int, price: int)

  /**
   * One order as the backend sends it. `billNumber` is "" when absent (the code only
   * reads it through `order.billNumber || ''`); amounts are in the smallest currency unit.
   */
  datatype Order = Order(
    id: string,
    billNumber: string,
    studentName: string,
    orderDate: int,
    items: seq<OrderItem>,
    totalAmount: int,
    paymentMethod: string,
    status: string)

  const PAID := "Paid"
  const READY := "Ready"
  const DELIVERED := "Delivered"
  const OTHER := "Other"
  const ALL := "All"

  /** The three statuses the page knows; anything else is shown as it is but filtered as "Other". */
  predicate IsKnownStatus(status: string) {
    status == PAID || status == READY || status == DELIVERED
  }

  function NormalizedStatus(status: string): (r: string)
    ensures IsKnownStatus(status) ==> r == status
    ensures !IsKnownStatus(status) ==> r == OTHER
  {
    if status == PAID then PAID
    else if status == READY then READY
    else if status == DELIVERED then DELIVERED
    else OTHER
  }

  /** The status-filter step of `filteredOrders`. */
  predicate PassesStatusFilter(filter: string, order: Order) {
    var normalized := NormalizedStatus(order.status);
    if filter == ALL then true
    else if filter == READY then normalized == READY
    else if filter == PAID then normalized == PAID
    else if filter == DELIVERED then normalized == DELIVERED
    else false
  }

  /** The search step: the lower-cased bill number includes the lower-cased term. */
  predicate MatchesSearch(searchTerm: string, order: Order) {
    Includes(ToLower(order.billNumber), ToLower(searchTerm))
  }

  /** `filteredOrders`: the status filter, then the bill-number search. */
  function FilteredOrders(orders: seq<Order>, filter: string, searchTerm: string): (r: seq<Order>)
    ensures forall o :: o in r <==> o in orders && PassesStatusFilter(filter, o) && MatchesSearch(searchTerm, o)
  {
    var byStatus := Filter(orders, o => PassesStatusFilter(filter, o));
    var result := Filter(byStatus, o => MatchesSearch(searchTerm, o));
    forall o ensures o in result <==> o in orders && PassesStatusFilter(filter, o) && MatchesSearch(searchTerm, o) {
      FilterMembership(orders, o => PassesStatusFilter(filter, o), o);
      FilterMembership(byStatus, o => MatchesSearch(searchTerm, o), o);
    }
    result
  }

  /** The projection keeps orders in their original relative order and invents none. */
  lemma FilteredOrdersIsSubsequence(orders: seq<Order>, filter: string, searchTerm: string)
    ensures IsSubsequence(FilteredOrders(orders, filter, searchTerm), orders)
  {
    var byStatus := Filter(orders, o => PassesStatusFilter(filter, o));
    FilterIsSubsequence(orders, o => PassesStatusFilter(filter, o));
    FilterIsSubsequence(byStatus, o => MatchesSearch(searchTerm, o));
    SubsequenceTransitive(FilteredOrders(orders, filter, searchTerm), byStatus, orders);
  }

  /** Filter "All" keeps every order, whatever its status; only the search applies. */
  lemma FilterAllKeepsEveryStatus(orders: seq<Order>, searchTerm: string)
    ensures FilteredOrders(orders, ALL, searchTerm) == Filter(orders, o => MatchesSearch(searchTerm, o))
    ensures searchTerm == "" ==> FilteredOrders(orders, ALL, searchTerm) == orders
  {
    FilterAll(orders, o => PassesStatusFilter(ALL, o));
    if searchTerm == "" {
      forall o | o in orders ensures MatchesSearch(searchTerm, o) {
        IncludesEmpty(ToLower(o.billNumber), "");
      }
      FilterAll(orders, o => MatchesSearch(searchTerm, o));
    }
  }

  /**
   * Filters "Paid", "Ready" and "Delivered" keep exactly the (matching) orders with that
   * status; an order whose status is not one of the three passes only "All"; any other
   * filter value passes nothing.
   */
  lemma StatusFilterIsExact(orders: seq<Order>, filter: string, searchTerm: string)
    ensures IsKnownStatus(filter) ==>
      forall o :: o in FilteredOrders(orders, filter, searchTerm) <==>
        o in orders && o.status == filter && MatchesSearch(searchTerm, o)
    ensures forall o: Order :: !IsKnownStatus(o.status) && filter != ALL ==> !PassesStatusFilter(filter, o)
    ensures filter != ALL && !IsKnownStatus(filter) ==> FilteredOrders(orders, filter, searchTerm) == []
  {
    if filter != ALL && !IsKnownStatus(filter) {
      FilterNone(orders, o => PassesStatusFilter(filter, o));
    }
  }

  /**
   * The empty search keeps every order; a non-empty search never matches an order
   * without a bill number; matching ignores ASCII case on both sides.
   */
  lemma SearchSemantics(searchTerm: string, order: Order)
    ensures searchTerm == "" ==> MatchesSearch(searchTerm, order)
    ensures searchTerm != "" && order.billNumber == "" ==> !MatchesSearch(searchTerm, order)
    ensures MatchesSearch(searchTerm, order) <==> MatchesSearch(ToLower(searchTerm), order.(billNumber := ToLower(order.billNumber)))
  {
    IncludesEmpty(ToLower(order.billNumber), ToLower(searchTerm));
    ToLowerIdempotent(searchTerm);
    ToLowerIdempotent(order.billNumber);
  }

  /** The badge of every status other than the three known ones. */
  const DEFAULT_BADGE := "bg-slate-700/40 text-slate-400"

  /** `getStatusBadge`: the badge style for a status; the default exactly for an unknown one. */
  function StatusBadge(status: string): (r: string)
    ensures r == DEFAULT_BADGE <==> !IsKnownStatus(status)
  {
    match status
    case "Paid" => "bg-yellow-900/40 text-yellow-400 font-bold"
    case "Ready" => "bg-orange-900/40 text-orange-400 font-bold"
    case "Delivered" => "bg-green-900/40 text-green-400 font-bold"
    case _ => DEFAULT_BADGE
  }

  /** The three known statuses get three distinct badges; every other status the neutral one. */
  lemma StatusBadgeDistinguishesStatuses(status: string)
    ensures StatusBadge(status) == StatusBadge("Unknown") <==> !IsKnownStatus(status)
    ensures StatusBadge(PAID) != StatusBadge(READY) && StatusBadge(READY) != StatusBadge(DELIVERED)
      && StatusBadge(PAID) != StatusBadge(DELIVERED)
  {
  }

  /** The "Items" column: the sum of the item quantities. */
  function ItemCount(items: seq<OrderItem>): (n: int)
    ensures (forall i :: 0 <= i < |items| ==> items[i].quantity >= 0) ==> n >= 0
    ensures (forall i :: 0 <= i < |items| ==> items[i].quantity >= 1) ==> n >= |items|
  {
    if items == [] then 0 else items[0].quantity + ItemCount(items[1..])
  }

  lemma {:induction false} ItemCountAppend(a: seq<OrderItem>, b: seq<OrderItem>)
    ensures ItemCount(a + b) == ItemCount(a) + ItemCount(b)
  {
    if a == [] {
      assert a + b == b;
    } else {
      assert (a + b)[1..] == a[1..] + b;
      ItemCountAppend(a[1..], b);
    }
  }

  /** The action button an order row shows. */
  datatype Action = NoAction | MarkReady | MarkDelivered

  /**
   * The button a row shows: one exactly for a paid or ready order, and its target
   * status is the next one on the lifecycle.
   */
  function OfferedAction(order: Order): (a: Action)
    ensures a != NoAction <==> order.status == PAID || order.status == READY
    ensures a != NoAction ==> LifecycleRank(TargetStatus(a)) == LifecycleRank(order.status) + 1
  {
    if order.status == PAID then MarkReady
    else if order.status == READY then MarkDelivered
    else NoAction
  }

  /** The status an action's optimistic update writes. */
  function TargetStatus(action: Action): string
    requires action != NoAction
  {
    if action == MarkReady then READY else DELIVERED
  }

  /** The optimistic `map`: every order with this id gets `status`, the rest are untouched. */
  function SetStatusWhere(orders: seq<Order>, id: string, status: string): (r: seq<Order>)
    ensures |r| == |orders|
    ensures forall i :: 0 <= i < |orders| ==>
      r[i] == if orders[i].id == id then orders[i].(status := status) else orders[i]
  {
    seq(|orders|, i requires 0 <= i < |orders| =>
      if orders[i].id == id then orders[i].(status := status) else orders[i])
  }

  /** An unknown id, or an id whose orders already have the status, leaves the list as it was. */
  lemma SetStatusNoOp(orders: seq<Order>, id: string, status: string)
    requires forall i :: 0 <= i < |orders| && orders[i].id == id ==> orders[i].status == status
    ensures SetStatusWhere(orders, id, status) == orders
  {
    var r := SetStatusWhere(orders, id, status);
    forall i | 0 <= i < |orders| ensures r[i] == orders[i] {
      if orders[i].id == id {
        assert orders[i].(status := status) == orders[i];
      }
    }
  }

  /** Applying the same rewrite twice is the same as once. */
  lemma SetStatusIdempotent(orders: seq<Order>, id: string, status: string)
    ensures SetStatusWhere(SetStatusWhere(orders, id, status), id, status) == SetStatusWhere(orders, id, status)
  {
    SetStatusNoOp(SetStatusWhere(orders, id, status), id, status);
  }

  predicate UniqueIds(orders: seq<Order>) {
    forall i, j :: 0 <= i < j < |orders| ==> orders[i].id != orders[j].id
  }

  /** Position of a status on the lifecycle Paid -> Ready -> Delivered. */
  function LifecycleRank(status: string): int {
    if status == PAID then 0 else if status == READY then 1 else if status == DELIVERED then 2 else -1
  }

  /**
   * Pressing the button a row offers moves that order exactly one step along
   * Paid -> Ready -> Delivered and leaves every other order as it was (ids unique).
   */
  lemma PressingOfferedButtonAdvancesOneStep(orders: seq<Order>, k: nat)
    requires k < |orders| && UniqueIds(orders)
    requires OfferedAction(orders[k]) != NoAction
    ensures var after := SetStatusWhere(orders, orders[k].id, TargetStatus(OfferedAction(orders[k])));
      && |after| == |orders|
      && LifecycleRank(after[k].status) == LifecycleRank(orders[k].status) + 1
      && after[k] == orders[k].(status := after[k].status)
      && (forall i :: 0 <= i < |orders| && i != k ==> after[i] == orders[i])
  {
    var after := SetStatusWhere(orders, orders[k].id, TargetStatus(OfferedAction(orders[k])));
    forall i | 0 <= i < |orders| && i != k ensures after[i] == orders[i] {
      if i < k { assert orders[i].id != orders[k].id; } else { assert orders[k].id != orders[i].id; }
    }
  }

  /** Outcome of `GET /admin/orders`. */
  datatype FetchResult = Fetched(data: seq<Order>) | Unauthorized | Failed

  /** The order queue page's state. */
  class OrderQueue {
    var orders: seq<Order>
    var loading: bool
    var error: Option<string>
    var filter: string
    var searchTerm: string

    constructor ()
      ensures orders == [] && loading && error == None && filter == ALL && searchTerm == ""
    {
      orders := [];
      loading := true;
      error := None;
      filter := ALL;
      searchTerm := "";
    }

    /** The rows the table shows. */
    function Visible(): (r: seq<Order>)
      reads this
      ensures IsSubsequence(r, orders)
    {
      FilteredOrdersIsSubsequence(orders, filter, searchTerm);
      FilteredOrders(orders, filter, searchTerm)
    }

    method SetFilter(f: string)
      modifies this`filter
      ensures filter == f
    {
      filter := f;
    }

    method SetSearchTerm(t: string)
      modifies this`searchTerm
      ensures searchTerm == t
    {
      searchTerm := t;
    }

    /**
     * `fetchOrders`: without a token nothing is fetched; a successful response replaces
     * the list wholesale; a failure keeps the last list and records an error. The error
     * is never cleared by a later success, and loading ends on every path.
     */
    method FetchOrders(hasToken: bool, result: FetchResult) returns (data: seq<Order>)
      modifies this`orders, this`error, this`loading
      ensures !loading
      ensures hasToken && result.Fetched? ==> orders == result.data && data == result.data && error == old(error)
      ensures hasToken && result.Unauthorized? ==>
        orders == old(orders) && data == [] && error == Some("Session expired. Please log in again.")
      ensures hasToken && result.Failed? ==> orders == old(orders) && data == [] && error == Some("Failed to fetch orders.")
      ensures !hasToken ==> orders == old(orders) && data == [] && error == old(error)
    {
      data := [];
      if hasToken {
        match result
        case Fetched(d) =>
          orders := d;
          data := d;
        case Unauthorized =>
          error := Some("Session expired. Please log in again.");
        case Failed =>
          error := Some("Failed to fetch orders.");
      }
      loading := false;
    }

    /** The optimistic step of `handleMarkAsReady`. */
    method MarkAsReady(orderId: string)
      modifies this`orders
      ensures |orders| == |old(orders)|
      ensures forall i :: 0 <= i < |orders| ==>
        orders[i] == if old(orders)[i].id == orderId then old(orders)[i].(status := READY) else old(orders)[i]
    {
      orders := SetStatusWhere(orders, orderId, READY);
    }

    /** The optimistic step of `handleMarkAsDelivered`. */
    method MarkAsDelivered(orderId: string)
      modifies this`orders
      ensures |orders| == |old(orders)|
      ensures forall i :: 0 <= i < |orders| ==>
        orders[i] == if old(orders)[i].id == orderId then old(orders)[i].(status := DELIVERED) else old(orders)[i]
    {
      orders := SetStatusWhere(orders, orderId, DELIVERED);
    }
  }

  /** The end-to-end scenario: filter "Ready", then mark order 1 ready before confirmation. */
  method Scenario() {
    var q := new OrderQueue();
    var o1 := Order("1", "B1", "A", 0, [], 0, "UPI", PAID);
    var o2 := Order("2", "B2", "B", 0, [], 0, "UPI", READY);
    var _ := q.FetchOrders(true, Fetched([o1, o2]));
    q.SetFilter(READY);
    assert o1 !in q.Visible() && o2 in q.Visible();
    q.MarkAsReady("1");
    assert q.orders == [o1.(status := READY), o2];
  }
}
