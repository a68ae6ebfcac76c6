/** `GET /admin/stats`, src/app/api/admin/stats/route.ts: order count,
    salesman count, booked revenue and the five newest orders. */
module Stats {
  import opened Base
  import opened Store
  import opened Sorting
  import Orders

  datatype Stats = Stats(totalOrders: nat, activeSalesmen: nat, totalRevenue: int, recentOrders: seq<Order>)

  /** What one order adds to booked revenue: its total, unless it was cancelled. */
  function Booked(o: Order): int {
    if o.status == Cancelled then 0 else o.totalAmount
  }

  /** Booked revenue: the sum of `totalAmount` over the orders that are not
      cancelled; no such order sums to 0. */
  ghost function BookedRevenue(orders: map<Id, Order>): int
    decreases |orders|
  {
    if orders == map[] then 0
    else
      var k :| k in orders;
      assert |orders - {k}| < |orders| by {
        assert (orders - {k}).Keys == orders.Keys - {k};
      }
      Booked(orders[k]) + BookedRevenue(orders - {k})
  }

  /** The sum does not depend on which order is taken first. */
  lemma {:induction false} BookedRevenueSplit(orders: map<Id, Order>, k: Id)
    requires k in orders
    ensures BookedRevenue(orders) == Booked(orders[k]) + BookedRevenue(orders - {k})
    decreases |orders|
  {
    var j :| j in orders && BookedRevenue(orders) == Booked(orders[j]) + BookedRevenue(orders - {j});
    if j != k {
      assert (orders - {j}).Keys == orders.Keys - {j};
      assert (orders - {k}).Keys == orders.Keys - {k};
      BookedRevenueSplit(orders - {j}, k);
      BookedRevenueSplit(orders - {k}, j);
      assert orders - {j} - {k} == orders - {k} - {j};
    }
  }

  /** The revenue fold, one order at a time. */
  method TotalRevenue(orders: map<Id, Order>) returns (total: int)
    ensures total == BookedRevenue(orders)
  {
    total := 0;
    var rest := orders;
    while rest != map[]
      invariant total + BookedRevenue(rest) == BookedRevenue(orders)
      decreases |rest|
    {
      var k :| k in rest;
      BookedRevenueSplit(rest, k);
      total := total + Booked(rest[k]);
      assert (rest - {k}).Keys == rest.Keys - {k};
      rest := rest - {k};
    }
  }

  /** Placing an order books its whole total: a new order is PENDING. */
  lemma NewOrderIsBooked(orders: map<Id, Order>, o: Order)
    requires o.id !in orders && o.status == Pending
    ensures BookedRevenue(orders[o.id := o]) == BookedRevenue(orders) + o.totalAmount
  {
    BookedRevenueSplit(orders[o.id := o], o.id);
    assert orders[o.id := o] - {o.id} == orders;
  }

  /** The five newest orders, newest first; with every order stored under
      its own id, none is shown twice. */
  method RecentOrders(orders: map<Id, Order>) returns (recent: seq<Order>)
    ensures |recent| == if |orders| < 5 then |orders| else 5
    ensures NewestFirst(recent, (o: Order) => o.createdAt)
    ensures (forall k :: k in orders ==> orders[k].id == k) ==> Distinct(recent)
    ensures forall o :: o in recent ==> o in orders.Values
    ensures forall o, i :: o in orders.Values && o !in recent && 0 <= i < |recent| ==> recent[i].createdAt >= o.createdAt
  {
    var rows := ValuesOf(orders);
    recent := TakeNewest(rows, 5, (o: Order) => o.createdAt);
  }

  /** `GET /admin/stats`: distributors only; a failing read is answered with 500. */
  method GetStats(s: Store, session: Option<Principal>, reachable: bool) returns (r: Reply<Stats>)
    ensures session.None? || !IsDistributor(session.value) ==> r == Fail(Forbidden, Unauthorized)
    ensures session.Some? && IsDistributor(session.value) && !reachable ==> r == Fail(ServerError, FetchFailed)
    ensures session.Some? && IsDistributor(session.value) && reachable ==>
      && r.Ok?
      && r.value.totalOrders == |s.orders|
      && r.value.activeSalesmen == |set k | k in s.users && s.users[k].role == Salesman|
      && r.value.totalRevenue == BookedRevenue(s.orders)
      && |r.value.recentOrders| == (if |s.orders| < 5 then |s.orders| else 5)
      && NewestFirst(r.value.recentOrders, (o: Order) => o.createdAt)
      && (forall o :: o in r.value.recentOrders ==> o in s.orders.Values)
      && (forall o, i :: o in s.orders.Values && o !in r.value.recentOrders && 0 <= i < |r.value.recentOrders|
                         ==> r.value.recentOrders[i].createdAt >= o.createdAt)
      && (KeysMatch(s) ==> Distinct(r.value.recentOrders))
  {
    if session.None? || !IsDistributor(session.value) {
      return Fail(Forbidden, Unauthorized);
    }
    if !reachable {
      return Fail(ServerError, FetchFailed);
    }
    var salesmen := |set k | k in s.users && s.users[k].role == Salesman|;
    var revenue := TotalRevenue(s.orders);
    var recent := RecentOrders(s.orders);
    r := Ok(Stats(|s.orders|, salesmen, revenue, recent));
  }

  /** A placed order adds its whole total to booked revenue. */
  lemma PlacedOrderIsBooked(s: Store, session: Option<Principal>, req: Orders.OrderRequest, newId: Id, now: int)
    requires Orders.PlaceOrder(s, session, req, newId, now).0.Ok?
    ensures var (reply, s') := Orders.PlaceOrder(s, session, req, newId, now);
            BookedRevenue(s'.orders) == BookedRevenue(s.orders) + reply.value.totalAmount
  {
    var (reply, s') := Orders.PlaceOrder(s, session, req, newId, now);
    NewOrderIsBooked(s.orders, reply.value);
  }
}
