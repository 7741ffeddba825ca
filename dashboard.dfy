/** The dashboard's figures: order counts by status over the orders the user
    may see, money sums by status over all orders, and the share of
    successful orders. */
module Dashboard {
  import opened Types
  import opened Lists
  import Numeric

  function MineTest(userId: string): Order -> bool {
    (o: Order) => o.moderatorId == userId
  }

  function StatusTest(status: OrderStatus): Order -> bool {
    (o: Order) => o.status == status
  }

  /** The orders the counts are taken over: all of them for an admin, the
      user's own for a moderator, in list order. */
  function DisplayOrders(orders: seq<Order>, user: User): (r: seq<Order>)
    ensures user.role == Admin ==> r == orders
    ensures user.role != Admin ==> forall i :: 0 <= i < |r| ==> r[i].moderatorId == user.id
    ensures user.role != Admin ==> forall i :: 0 <= i < |orders| && orders[i].moderatorId == user.id ==> orders[i] in r
  {
    if user.role == Admin then orders else Filter(orders, MineTest(user.id))
  }

  /** The leads assigned to the user, whatever the role. */
  function MyLeads(leads: seq<Lead>, user: User): (r: seq<Lead>)
    ensures forall i :: 0 <= i < |r| ==> r[i].moderatorId == user.id
    ensures forall i :: 0 <= i < |leads| && leads[i].moderatorId == user.id ==> leads[i] in r
  {
    Filter(leads, (l: Lead) => l.moderatorId == user.id)
  }

  function StatusCount(orders: seq<Order>, status: OrderStatus): (n: nat)
    ensures n <= |orders|
  {
    Count(orders, StatusTest(status))
  }

  /** Every order has exactly one of the four statuses, so the four counts
      add up to the number of orders. */
  lemma {:induction false} StatusCountsPartition(orders: seq<Order>)
    ensures StatusCount(orders, Pending) + StatusCount(orders, Confirmed)
      + StatusCount(orders, Delivered) + StatusCount(orders, Cancelled) == |orders|
  {
    if orders != [] {
      StatusCountsPartition(orders[1..]);
    }
  }

  /** The sum of the amounts of the orders. */
  function SumAmounts(orders: seq<Order>): int {
    if orders == [] then 0 else orders[0].totalAmount + SumAmounts(orders[1..])
  }

  /** The money in orders of one status, over all orders whatever the role. */
  function StatusValue(orders: seq<Order>, status: OrderStatus): (r: int)
    ensures (forall i :: 0 <= i < |orders| ==> orders[i].status != status) ==> r == 0
    ensures (forall i :: 0 <= i < |orders| ==> orders[i].status == status) ==> r == TotalRevenue(orders)
  {
    var kept := Filter(orders, StatusTest(status));
    assert (forall i :: 0 <= i < |orders| ==> orders[i].status != status) ==> kept == [] by {
      if forall i :: 0 <= i < |orders| ==> orders[i].status != status {
        FilterNone(orders, StatusTest(status));
      }
    }
    assert (forall i :: 0 <= i < |orders| ==> orders[i].status == status) ==> kept == orders by {
      if forall i :: 0 <= i < |orders| ==> orders[i].status == status {
        FilterAll(orders, StatusTest(status));
      }
    }
    SumAmounts(kept)
  }

  /** The money in all orders. */
  function TotalRevenue(orders: seq<Order>): (r: int)
    ensures orders == [] ==> r == 0
    ensures (forall i :: 0 <= i < |orders| ==> orders[i].totalAmount >= 0) ==> r >= 0
  {
    assert (forall i :: 0 <= i < |orders| ==> orders[i].totalAmount >= 0) ==> SumAmounts(orders) >= 0 by {
      if forall i :: 0 <= i < |orders| ==> orders[i].totalAmount >= 0 {
        NonNegativeSum(orders);
      }
    }
    SumAmounts(orders)
  }

  /** The total is the sum of the four per-status values. */
  lemma {:induction false} RevenueIsStatusValues(orders: seq<Order>)
    ensures TotalRevenue(orders) == StatusValue(orders, Pending) + StatusValue(orders, Confirmed)
      + StatusValue(orders, Delivered) + StatusValue(orders, Cancelled)
  {
    if orders != [] {
      RevenueIsStatusValues(orders[1..]);
      StatusValueStep(orders, Pending);
      StatusValueStep(orders, Confirmed);
      StatusValueStep(orders, Delivered);
      StatusValueStep(orders, Cancelled);
    }
  }

  lemma StatusValueStep(orders: seq<Order>, status: OrderStatus)
    requires orders != []
    ensures StatusValue(orders, status)
      == (if orders[0].status == status then orders[0].totalAmount else 0) + StatusValue(orders[1..], status)
  {
    var rest := Filter(orders[1..], StatusTest(status));
    assert StatusTest(status)(orders[0]) == (orders[0].status == status);
    if orders[0].status == status {
      assert Filter(orders, StatusTest(status)) == [orders[0]] + rest;
      assert ([orders[0]] + rest)[1..] == rest;
    } else {
      assert Filter(orders, StatusTest(status)) == rest;
    }
  }

  /** Amounts that are never negative give values that are never negative
      and never above the total. */
  lemma StatusValueBounded(orders: seq<Order>, status: OrderStatus)
    requires forall i :: 0 <= i < |orders| ==> orders[i].totalAmount >= 0
    ensures 0 <= StatusValue(orders, status) <= TotalRevenue(orders)
  {
    RevenueIsStatusValues(orders);
    NonNegativeSum(Filter(orders, StatusTest(Pending)));
    NonNegativeSum(Filter(orders, StatusTest(Confirmed)));
    NonNegativeSum(Filter(orders, StatusTest(Delivered)));
    NonNegativeSum(Filter(orders, StatusTest(Cancelled)));
  }

  lemma {:induction false} NonNegativeSum(orders: seq<Order>)
    requires forall i :: 0 <= i < |orders| ==> orders[i].totalAmount >= 0
    ensures SumAmounts(orders) >= 0
  {
    if orders != [] {
      NonNegativeSum(orders[1..]);
    }
  }

  /** The success rate: confirmed and delivered orders as a whole percentage
      of the displayed orders, rounded to nearest with halves up, 0 when
      there are none. */
  function ConfirmationRate(display: seq<Order>): (r: int)
    ensures 0 <= r <= 100
    ensures display == [] ==> r == 0
    ensures var success := StatusCount(display, Confirmed) + StatusCount(display, Delivered);
      display != [] ==> 2 * r * |display| <= 200 * success + |display| < 2 * (r + 1) * |display|
  {
    StatusCountsPartition(display);
    Numeric.RoundedPercent(StatusCount(display, Confirmed) + StatusCount(display, Delivered), |display|)
  }

  /** Only successful orders give 100 (when there are any) and none gives 0. */
  lemma ConfirmationRateEnds(display: seq<Order>)
    ensures display != [] && StatusCount(display, Confirmed) + StatusCount(display, Delivered) == |display| ==> ConfirmationRate(display) == 100
    ensures StatusCount(display, Confirmed) + StatusCount(display, Delivered) == 0 ==> ConfirmationRate(display) == 0
  {
    var success := StatusCount(display, Confirmed) + StatusCount(display, Delivered);
    StatusCountsPartition(display);
    assert ConfirmationRate(display) == Numeric.RoundedPercent(success, |display|);
    if display != [] && (success == |display| || success == 0) {
      Numeric.RoundedPercentEnds(|display|);
    }
  }
}
