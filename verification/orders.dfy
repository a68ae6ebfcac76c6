/** `POST /orders` (order placement) and `GET /orders` (order listing),
    src/app/api/orders/route.ts. */
module Orders {
  import opened Base
  import opened Store
  import opened Sorting

  /** One requested line: `{ productId, quantity }`; the quantity is taken as sent. */
  datatype ItemRequest = ItemRequest(productId: Id, quantity: int)

  /** The request body. `items` is absent when it is missing or not an array. */
  datatype OrderRequest = OrderRequest(items: Option<seq<ItemRequest>>, partyId: Option<Id>, companyId: Option<Id>)

  predicate MayPlaceOrders(p: Principal) {
    IsSalesman(p) || IsDistributor(p)
  }

  /** A salesman without a home company ("global salesman"). */
  predicate IsGlobalSalesman(p: Principal) {
    IsSalesman(p) && !Truthy(p.companyId)
  }

  /** The company an order is placed for: the principal's own company, except
      for a global salesman, who must name one in the request. A distributor
      keeps its own company even when it has none. */
  function TargetCompany(p: Principal, requested: Option<Id>): (r: Reply<Option<Id>>)
    ensures !IsGlobalSalesman(p) ==> r == Ok(p.companyId)
    ensures IsGlobalSalesman(p) && Truthy(requested) ==> r == Ok(requested)
    ensures IsGlobalSalesman(p) && !Truthy(requested) ==> r == Fail(BadRequest, CompanyNotSelected)
  {
    if IsSalesman(p) && !Truthy(p.companyId) then
      if !Truthy(requested) then Fail(BadRequest, CompanyNotSelected) else Ok(requested)
    else Ok(p.companyId)
  }

  /** A requested line whose product exists but belongs to another company. */
  predicate Foreign(products: map<Id, Product>, target: Option<Id>, x: ItemRequest) {
    x.productId in products && Some(products[x.productId].companyId) != target
  }

  /** The requested lines whose product exists, in request order. */
  function Known(products: map<Id, Product>, reqs: seq<ItemRequest>): (r: seq<ItemRequest>)
    ensures |r| <= |reqs|
    ensures forall x :: x in r <==> x in reqs && x.productId in products
  {
    if |reqs| == 0 then []
    else (if reqs[0].productId in products then [reqs[0]] else []) + Known(products, reqs[1..])
  }

  /** The line stored for a request: the product's current price is copied. */
  function Snapshot(products: map<Id, Product>, x: ItemRequest): OrderItem
    requires x.productId in products
  {
    OrderItem(x.productId, x.quantity, products[x.productId].price)
  }

  /** The stored lines: one snapshot per requested line whose product exists. */
  function Lines(products: map<Id, Product>, reqs: seq<ItemRequest>): seq<OrderItem> {
    if |reqs| == 0 then []
    else (if reqs[0].productId in products then [Snapshot(products, reqs[0])] else []) + Lines(products, reqs[1..])
  }

  /** The stored lines are exactly the snapshots of the known requests, in
      request order: missing products are dropped and nothing else is. */
  lemma {:induction false} LinesFollowKnown(products: map<Id, Product>, reqs: seq<ItemRequest>)
    ensures |Lines(products, reqs)| == |Known(products, reqs)|
    ensures forall k :: 0 <= k < |Lines(products, reqs)| ==>
      Known(products, reqs)[k].productId in products
      && Lines(products, reqs)[k] == Snapshot(products, Known(products, reqs)[k])
  {
    if |reqs| > 0 {
      LinesFollowKnown(products, reqs[1..]);
    }
  }

  lemma {:induction false} NoKnownNoLines(products: map<Id, Product>, reqs: seq<ItemRequest>)
    requires forall k :: 0 <= k < |reqs| ==> reqs[k].productId !in products
    ensures Lines(products, reqs) == []
  {
    if |reqs| > 0 {
      NoKnownNoLines(products, reqs[1..]);
    }
  }

  /** With no foreign product among the requests, every stored line is a
      product of the target company. */
  lemma {:induction false} LinesStayInCompany(products: map<Id, Product>, target: Option<Id>, reqs: seq<ItemRequest>)
    requires forall k :: 0 <= k < |reqs| ==> !Foreign(products, target, reqs[k])
    ensures forall i :: 0 <= i < |Lines(products, reqs)| ==>
      Lines(products, reqs)[i].productId in products
      && Some(products[Lines(products, reqs)[i].productId].companyId) == target
  {
    if |reqs| > 0 {
      LinesStayInCompany(products, target, reqs[1..]);
    }
  }

  lemma LinesStep(products: map<Id, Product>, reqs: seq<ItemRequest>, i: nat)
    requires i < |reqs|
    ensures Lines(products, reqs[i..])
            == (if reqs[i].productId in products then [Snapshot(products, reqs[i])] else [])
               + Lines(products, reqs[i + 1..])
  {
    assert reqs[i..][1..] == reqs[i + 1..];
  }

  /** One kept line: appending its snapshot to the lines so far, and its
      price times quantity to the running total, keeps both in step with
      `Lines` from the next request on. */
  lemma KeptStep(products: map<Id, Product>, reqs: seq<ItemRequest>, i: nat, lines: seq<OrderItem>, total: int)
    requires i < |reqs| && reqs[i].productId in products
    ensures var line := Snapshot(products, reqs[i]);
            && lines + [line] + Lines(products, reqs[i + 1..]) == lines + Lines(products, reqs[i..])
            && total + line.priceAtTime * line.quantity + LineTotal(Lines(products, reqs[i + 1..]))
               == total + LineTotal(Lines(products, reqs[i..]))
  {
    var line := Snapshot(products, reqs[i]);
    LinesStep(products, reqs, i);
    LineTotalAppend([line], Lines(products, reqs[i + 1..]));
    assert LineTotal([line]) == line.priceAtTime * line.quantity by {
      assert [line][..0] == [];
    }
  }

  /** The item loop of the handler, from line `i` on, with the lines kept and
      the running total so far: a missing product is skipped, a foreign one
      stops everything, any other line is snapshotted and added to the total. */
  function Collect(products: map<Id, Product>, target: Option<Id>, reqs: seq<ItemRequest>,
                   i: nat, lines: seq<OrderItem>, total: int): (r: Reply<(seq<OrderItem>, int)>)
    requires i <= |reqs|
    ensures !r.Crash?
    ensures r.Fail? <==> exists k :: i <= k < |reqs| && Foreign(products, target, reqs[k])
    ensures r.Fail? ==> exists k :: i <= k < |reqs| && Foreign(products, target, reqs[k])
                                    && (forall m :: i <= m < k ==> !Foreign(products, target, reqs[m]))
                                    && r == Fail(BadRequest, ForeignProduct(products[reqs[k].productId].name))
    ensures r.Ok? ==> r.value.0 == lines + Lines(products, reqs[i..])
                      && r.value.1 == total + LineTotal(Lines(products, reqs[i..]))
    decreases |reqs| - i
  {
    if i == |reqs| then
      Ok((lines, total))
    else if reqs[i].productId !in products then
      LinesStep(products, reqs, i);
      assert Lines(products, reqs[i..]) == Lines(products, reqs[i + 1..]);
      var r := Collect(products, target, reqs, i + 1, lines, total);
      assert !Foreign(products, target, reqs[i]);
      r
    else
      var product := products[reqs[i].productId];
      if Some(product.companyId) != target then
        assert Foreign(products, target, reqs[i]);
        Fail(BadRequest, ForeignProduct(product.name))
      else
        var line := Snapshot(products, reqs[i]);
        KeptStep(products, reqs, i, lines, total);
        var r := Collect(products, target, reqs, i + 1, lines + [line], total + line.priceAtTime * line.quantity);
        assert !Foreign(products, target, reqs[i]);
        r
  }

  /** What the single write of `POST /orders` needs: a company, rows for the
      company, the salesman and a given party, and an unused order id. */
  predicate Placeable(s: Store, p: Principal, target: Option<Id>, partyId: Option<Id>, newId: Id) {
    && target.Some? && target.value in s.companies
    && p.id in s.users
    && (Truthy(partyId) ==> partyId.value in s.parties)
    && newId !in s.orders
  }

  /** The second half of `POST /orders`, once the company is settled: the
      item loop, then one write of the order with its lines. A foreign
      product refuses the request; otherwise the order is created exactly
      when its references exist, and a failed write is a 500. */
  function Submit(s: Store, p: Principal, reqs: seq<ItemRequest>, target: Option<Id>,
                  partyId: Option<Id>, newId: Id, now: int): (r: (Reply<Order>, Store))
    ensures !r.0.Ok? ==> r.1 == s
    ensures !r.0.Crash?
    ensures (exists k :: 0 <= k < |reqs| && Foreign(s.products, target, reqs[k])) ==>
      r.0.Fail? && r.0.status == BadRequest && r.0.reason.ForeignProduct?
    ensures (forall k :: 0 <= k < |reqs| ==> !Foreign(s.products, target, reqs[k])) ==>
      && (r.0.Ok? <==> Placeable(s, p, target, partyId, newId))
      && (!r.0.Ok? ==> r.0 == Fail(ServerError, CreateFailed))
    ensures r.0.Ok? ==>
      var o := r.0.value;
      && target == Some(o.companyId)
      && o.id == newId && newId !in s.orders
      && r.1 == s.(orders := s.orders[newId := o])
      && o.salesmanId == p.id
      && o.partyId == (if Truthy(partyId) then partyId else None)
      && o.status == Pending && o.createdAt == now
      && o.items == Lines(s.products, reqs)
      && TotalConsistent(o)
      && TenantIsolated(s.products, o)
      && OrderReferences(s, o)
  {
    var collected := Collect(s.products, target, reqs, 0, [], 0);
    if !collected.Ok? then (collected.PropagateFailure(), s)
    else if target.None? then
      // connecting the order to an undefined company makes the create throw
      (Fail(ServerError, CreateFailed), s)
    else
      var (lines, total) := collected.value;
      assert reqs[0..] == reqs;
      LinesStayInCompany(s.products, target, reqs);
      var o := Order(newId, p.id, target.value,
                     if Truthy(partyId) then partyId else None,
                     total, Pending, now, lines);
      match AddOrder(s, o)
      case None => (Fail(ServerError, CreateFailed), s)
      case Some(s') => (Ok(o), s')
  }

  /** `POST /orders`. Returns the reply and the store afterwards. The clock
      (`now`) and the id the database assigns (`newId`) are inputs. */
  function PlaceOrder(s: Store, session: Option<Principal>, req: OrderRequest, newId: Id, now: int): (r: (Reply<Order>, Store))
    // the role is read before the session is checked: no session is a crash
    ensures session.None? ==> r == (Crash, s)
    ensures session.Some? && !MayPlaceOrders(session.value) ==> r == (Fail(Forbidden, Unauthorized), s)
    ensures session.Some? && MayPlaceOrders(session.value) && (req.items.None? || |req.items.value| == 0)
            ==> r == (Fail(BadRequest, NoItems), s)
    // nothing is written unless an order is returned
    ensures !r.0.Ok? ==> r.1 == s
    // past the gates and with no foreign product, the order is created
    // exactly when the write's references hold; otherwise the write fails
    ensures session.Some? && MayPlaceOrders(session.value) && req.items.Some? && |req.items.value| > 0
            && TargetCompany(session.value, req.companyId).Ok?
            && (forall k :: 0 <= k < |req.items.value| ==>
                  !Foreign(s.products, TargetCompany(session.value, req.companyId).value, req.items.value[k]))
            ==> && (r.0.Ok? <==> Placeable(s, session.value, TargetCompany(session.value, req.companyId).value,
                                           req.partyId, newId))
                && (!r.0.Ok? ==> r.0 == Fail(ServerError, CreateFailed))
    ensures r.0.Ok? ==>
      var p, o := session.value, r.0.value;
      && MayPlaceOrders(p)
      && req.items.Some?
      && |req.items.value| > 0
      && TargetCompany(p, req.companyId) == Ok(Some(o.companyId))
      && o.id == newId && newId !in s.orders
      && r.1 == s.(orders := s.orders[newId := o])
      && o.salesmanId == p.id
      && o.partyId == (if Truthy(req.partyId) then req.partyId else None)
      && o.status == Pending && o.createdAt == now
      && o.items == Lines(s.products, req.items.value)
      && TotalConsistent(o)
      && TenantIsolated(s.products, o)
      && OrderReferences(s, o)
  {
    if session.None? then (Crash, s)
    else
      var p := session.value;
      if !MayPlaceOrders(p) then (Fail(Forbidden, Unauthorized), s)
      else if req.items.None? || |req.items.value| == 0 then (Fail(BadRequest, NoItems), s)
      else
        var target := TargetCompany(p, req.companyId);
        if !target.Ok? then (target.PropagateFailure(), s)
        else Submit(s, p, req.items.value, target.value, req.partyId, newId, now)
  }

  /** The first requested line whose product belongs to another company
      aborts the whole request, naming that product, and nothing is written. */
  lemma ForeignProductRejectsOrder(s: Store, p: Principal, req: OrderRequest, newId: Id, now: int, k: nat)
    requires MayPlaceOrders(p) && req.items.Some? && k < |req.items.value|
    requires TargetCompany(p, req.companyId).Ok?
    requires Foreign(s.products, TargetCompany(p, req.companyId).value, req.items.value[k])
    requires forall m :: 0 <= m < k ==> !Foreign(s.products, TargetCompany(p, req.companyId).value, req.items.value[m])
    ensures PlaceOrder(s, Some(p), req, newId, now)
            == (Fail(BadRequest, ForeignProduct(s.products[req.items.value[k].productId].name)), s)
  {
    var target := TargetCompany(p, req.companyId).value;
    var reqs := req.items.value;
    var collected := Collect(s.products, target, reqs, 0, [], 0);
    assert collected.Fail?;
    var k' :| 0 <= k' < |reqs| && Foreign(s.products, target, reqs[k'])
              && (forall m :: 0 <= m < k' ==> !Foreign(s.products, target, reqs[m]))
              && collected == Fail(BadRequest, ForeignProduct(s.products[reqs[k'].productId].name));
    assert k' == k;
  }

  /** A principal with a home company, and every distributor, orders for its
      own company: the company named in the request changes nothing. */
  lemma RequestedCompanyIgnoredWhenBound(s: Store, p: Principal, req: OrderRequest, c: Option<Id>, newId: Id, now: int)
    requires !IsGlobalSalesman(p)
    ensures PlaceOrder(s, Some(p), req, newId, now) == PlaceOrder(s, Some(p), req.(companyId := c), newId, now)
  {
  }

  /** A global salesman is refused unless the request names a company; when it
      does, that company is the order's company. */
  lemma GlobalSalesmanChoosesCompany(s: Store, p: Principal, req: OrderRequest, newId: Id, now: int)
    requires IsGlobalSalesman(p) && req.items.Some? && |req.items.value| > 0
    ensures !Truthy(req.companyId) ==> PlaceOrder(s, Some(p), req, newId, now) == (Fail(BadRequest, CompanyNotSelected), s)
    ensures PlaceOrder(s, Some(p), req, newId, now).0.Ok? ==>
      Truthy(req.companyId) && PlaceOrder(s, Some(p), req, newId, now).0.value.companyId == req.companyId.value
  {
  }

  /** A distributor without a home company can never place an order: a known
      product is foreign to the absent company (400), and with no known
      product the create itself fails (500). */
  lemma DistributorWithoutCompanyCannotOrder(s: Store, p: Principal, req: OrderRequest, newId: Id, now: int)
    requires IsDistributor(p) && p.companyId.None? && req.items.Some? && |req.items.value| > 0
    ensures (exists k :: 0 <= k < |req.items.value| && req.items.value[k].productId in s.products) ==>
      var r := PlaceOrder(s, Some(p), req, newId, now).0;
      r.Fail? && r.status == BadRequest && r.reason.ForeignProduct?
    ensures (forall k :: 0 <= k < |req.items.value| ==> req.items.value[k].productId !in s.products) ==>
      PlaceOrder(s, Some(p), req, newId, now) == (Fail(ServerError, CreateFailed), s)
  {
    var reqs := req.items.value;
    if exists k :: 0 <= k < |reqs| && reqs[k].productId in s.products {
      var k :| 0 <= k < |reqs| && reqs[k].productId in s.products;
      assert Foreign(s.products, None, reqs[k]);
    }
  }

  /** Requests whose products are all missing still create an order, with no
      lines and a zero total, once the order's references exist. */
  lemma AllMissingStillCreatesOrder(s: Store, p: Principal, req: OrderRequest, c: Id, newId: Id, now: int)
    requires MayPlaceOrders(p) && req.items.Some? && |req.items.value| > 0
    requires forall k :: 0 <= k < |req.items.value| ==> req.items.value[k].productId !in s.products
    requires TargetCompany(p, req.companyId) == Ok(Some(c))
    requires c in s.companies && p.id in s.users && newId !in s.orders
    requires Truthy(req.partyId) ==> req.partyId.value in s.parties
    ensures var r := PlaceOrder(s, Some(p), req, newId, now).0;
            r.Ok? && r.value.items == [] && r.value.totalAmount == 0
  {
    var reqs := req.items.value;
    NoKnownNoLines(s.products, reqs);
    assert Lines(s.products, reqs) == [];
    assert Collect(s.products, Some(c), reqs, 0, [], 0).Ok?;
  }

  /** Order placement keeps the store invariant: the new order is isolated to
      its company and its total is the sum of its lines. */
  lemma PlaceOrderKeepsValid(s: Store, session: Option<Principal>, req: OrderRequest, newId: Id, now: int)
    requires Valid(s)
    ensures Valid(PlaceOrder(s, session, req, newId, now).1)
  {
    var r := PlaceOrder(s, session, req, newId, now);
    if r.0.Ok? {
      AddingOrderKeepsValid(s, r.0.value);
    }
  }

  /** Every stored line is the snapshot of a requested line whose product
      exists: same product, same quantity, the product's price at placement;
      in request order, missing products left out. */
  lemma PlacedLinesAreSnapshots(s: Store, session: Option<Principal>, req: OrderRequest, newId: Id, now: int)
    requires PlaceOrder(s, session, req, newId, now).0.Ok?
    ensures var o := PlaceOrder(s, session, req, newId, now).0.value;
            var known := Known(s.products, req.items.value);
            && |o.items| == |known|
            && forall k :: 0 <= k < |o.items| ==>
                 known[k].productId in s.products
                 && o.items[k].productId == known[k].productId
                 && o.items[k].quantity == known[k].quantity
                 && o.items[k].priceAtTime == s.products[known[k].productId].price
  {
    LinesFollowKnown(s.products, req.items.value);
  }

  /** The quantity is never checked: a negative quantity yields a negative
      line and a negative total. */
  lemma NegativeQuantityAccepted()
    ensures var s := Store(map["c" := Company("c", "Acme")],
                           map["u" := User("u", "Sam", "sam@acme", "h", Salesman, Some("c"))],
                           map["p" := Product("p", "Soap", 100, "c", None)],
                           map[], map[], map[]);
            var r := PlaceOrder(s, Some(Principal("u", Some(Salesman), Some("c"))),
                                OrderRequest(Some([ItemRequest("p", -2)]), None, None), "o", 7).0;
            r.Ok? && r.value.totalAmount == -200 && r.value.items == [OrderItem("p", -2, 100)]
  {
    var products := map["p" := Product("p", "Soap", 100, "c", None)];
    var reqs := [ItemRequest("p", -2)];
    assert reqs[1..] == [];
    assert Lines(products, reqs) == [OrderItem("p", -2, 100)];
    assert LineTotal([OrderItem("p", -2, 100)]) == -200 by {
      assert [OrderItem("p", -2, 100)][..0] == [];
    }
  }

  // ---------------------------------------------------------------- GET /orders

  /** The query string of `GET /orders`; every parameter may be absent. */
  datatype OrderQuery = OrderQuery(companyId: Option<string>, salesmanId: Option<string>,
                                   startDate: Option<string>, endDate: Option<string>)

  /** The `where` clause: each present field must match; the two time bounds are inclusive. */
  datatype OrderFilter = OrderFilter(companyId: Option<Id>, salesmanId: Option<Id>,
                                     from: Option<int>, until: Option<int>)

  predicate Selects(f: OrderFilter, o: Order) {
    && (f.companyId.Some? ==> o.companyId == f.companyId.value)
    && (f.salesmanId.Some? ==> o.salesmanId == f.salesmanId.value)
    && (f.from.Some? ==> o.createdAt >= f.from.value)
    && (f.until.Some? ==> o.createdAt <= f.until.value)
  }

  /** The date window of a query: from the start of `startDate` to the end of
      the day of `endDate`, each bound only when given. Dates are parsed by
      `parseDate`; `endOfDay` moves a time to the last millisecond of its day. */
  predicate InDateWindow(o: Order, q: OrderQuery, parseDate: string -> int, endOfDay: int -> int) {
    && (Truthy(q.startDate) ==> o.createdAt >= parseDate(q.startDate.value))
    && (Truthy(q.endDate) ==> o.createdAt <= endOfDay(parseDate(q.endDate.value)))
  }

  /** The filter `GET /orders` builds. A salesman sees its own orders whatever
      the query says; any other principal gets the company and salesman
      parameters it supplied; the date window applies to both. */
  function OrderFilterFor(p: Principal, q: OrderQuery, parseDate: string -> int, endOfDay: int -> int): (f: OrderFilter)
    ensures IsSalesman(p) ==> forall o :: Selects(f, o) <==> o.salesmanId == p.id && InDateWindow(o, q, parseDate, endOfDay)
    ensures !IsSalesman(p) ==> forall o :: Selects(f, o) <==>
      && (Truthy(q.companyId) ==> o.companyId == q.companyId.value)
      && (Truthy(q.salesmanId) ==> o.salesmanId == q.salesmanId.value)
      && InDateWindow(o, q, parseDate, endOfDay)
  {
    var from := if Truthy(q.startDate) then Some(parseDate(q.startDate.value)) else None;
    var until := if Truthy(q.endDate) then Some(endOfDay(parseDate(q.endDate.value))) else None;
    if IsSalesman(p) then OrderFilter(None, Some(p.id), from, until)
    else OrderFilter(if Truthy(q.companyId) then q.companyId else None,
                     if Truthy(q.salesmanId) then q.salesmanId else None,
                     from, until)
  }

  /** `GET /orders`: refused without a session; otherwise exactly the
      selected orders, newest first. */
  method ListOrders(s: Store, session: Option<Principal>, q: OrderQuery,
                    parseDate: string -> int, endOfDay: int -> int) returns (r: Reply<seq<Order>>)
    ensures session.None? ==> r == Fail(NotAuthenticated, Unauthorized)
    ensures session.Some? ==> r.Ok? && NewestFirst(r.value, (o: Order) => o.createdAt)
    ensures session.Some? ==> forall o :: o in r.value <==>
      o in s.orders.Values && Selects(OrderFilterFor(session.value, q, parseDate, endOfDay), o)
    ensures session.Some? && KeysMatch(s) ==> Distinct(r.value)
  {
    if session.None? {
      return Fail(NotAuthenticated, Unauthorized);
    }
    var f := OrderFilterFor(session.value, q, parseDate, endOfDay);
    var rows := RowsWhere(s.orders, (o: Order) => Selects(f, o));
    var sorted := SortNewestFirst(rows, (o: Order) => o.createdAt);
    assert forall o :: o in sorted <==> o in rows by {
      forall o ensures o in sorted <==> o in rows {
        assert o in sorted <==> o in multiset(sorted);
      }
    }
    if KeysMatch(s) {
      PermutationKeepsDistinct(sorted, rows);
    }
    r := Ok(sorted);
  }
}
