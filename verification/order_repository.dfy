/** The order store: creation, lookups, filtered and paginated listings, the
    pending / completed / cancelled views, single-field updates, cascade
    deletion, and the count and revenue aggregates. */
module OrderRepository {
  import opened Basics
  import opened Seqs
  import opened Sorting
  import opened Pagination
  import opened OrderModel
  import opened OrderItemModel
  import opened Store
  import opened Ids
  import OrderItemRepository

  function Date(o: Order): int { o.date }

  function Amount(o: Order): real { o.amount }

  /** Date bounds, both included. */
  datatype DateRange = DateRange(from: int, to: int)

  /** A query filter: each present field must match the order. */
  datatype OrderFilter = OrderFilter(
    userId: Option<string>,
    payment: Option<bool>,
    cancelled: Option<bool>,
    status: Option<Status>,
    date: Option<DateRange>)

  const NoFilter := OrderFilter(None, None, None, None, None)

  predicate Matches(o: Order, f: OrderFilter)
  {
    && (f.userId.Some? ==> o.userId == f.userId.value)
    && (f.payment.Some? ==> o.payment == f.payment.value)
    && (f.cancelled.Some? ==> o.cancelled == f.cancelled.value)
    && (f.status.Some? ==> o.status == f.status.value)
    && (f.date.Some? ==> f.date.value.from <= o.date <= f.date.value.to)
  }

  /** Selects the orders a filter matches. */
  function Matching(f: OrderFilter): Order -> bool
  {
    (o: Order) => Matches(o, f)
  }

  /** Neither paid nor cancelled. */
  const PendingFilter := NoFilter.(payment := Some(false), cancelled := Some(false))
  /** Paid and not cancelled. */
  const CompletedFilter := NoFilter.(payment := Some(true), cancelled := Some(false))
  /** Cancelled, paid or not. */
  const CancelledFilter := NoFilter.(cancelled := Some(true))

  function UserFilter(userId: string): OrderFilter
  {
    NoFilter.(userId := Some(userId))
  }

  /** The three views an order can fall into. */
  datatype Category = Pending | Completed | Cancelled

  /** The view an order belongs to. Each order matches exactly one of the
      pending, completed and cancelled filters, the one named here. */
  function CategoryOf(o: Order): (c: Category)
    ensures c == Pending <==> Matches(o, PendingFilter)
    ensures c == Completed <==> Matches(o, CompletedFilter)
    ensures c == Cancelled <==> Matches(o, CancelledFilter)
  {
    if o.cancelled then Cancelled else if o.payment then Completed else Pending
  }

  /** Among any orders, the pending, completed and cancelled ones together are
      all of them. */
  lemma ViewsPartition(orders: seq<Order>)
    ensures |Filter(orders, Matching(PendingFilter))| + |Filter(orders, Matching(CompletedFilter))|
      + |Filter(orders, Matching(CancelledFilter))| == |orders|
  {
    forall i | 0 <= i < |orders|
      ensures ExactlyOne(Matching(PendingFilter)(orders[i]), Matching(CompletedFilter)(orders[i]),
                         Matching(CancelledFilter)(orders[i]))
    {
      var c := CategoryOf(orders[i]);
    }
    PartitionCount(orders, Matching(PendingFilter), Matching(CompletedFilter), Matching(CancelledFilter));
  }

  /** Result of creating an order: the database and the stored order. */
  datatype OrderCreated = OrderCreated(db: Db, order: Order)

  /** Order creation from a user, an amount and an address: stores a new unpaid, uncancelled
      order "In Process", dated `now`, with no items, under a fresh id. */
  function Create(db: Db, userId: string, amount: real, address: Address, now: int): (r: OrderCreated)
    requires Valid(db)
    ensures r.order.userId == userId && r.order.amount == amount && r.order.address == address
    ensures !r.order.payment && !r.order.cancelled && r.order.status == InProcess
    ensures r.order.date == now && r.order.items == []
    ensures !HasOrder(db, r.order.id)
    ensures r.db.orders == db.orders + [r.order] && r.db.items == db.items
    ensures Valid(r.db)
  {
    var o := Order(db.nextId, userId, amount, address, false, false, InProcess, now, []);
    var orders := db.orders + [o];
    assert DistinctBy(orders, OrderKey) by {
      forall i, j | 0 <= i < j < |orders| ensures OrderKey(orders[i]) != OrderKey(orders[j]) {
        if j == |db.orders| {
          assert OrderKey(orders[i]) == db.orders[i].id;
        } else {
          assert orders[i] == db.orders[i] && orders[j] == db.orders[j];
        }
      }
    }
    OrderCreated(db.(orders := orders, nextId := db.nextId + 1), o)
  }

  /** The order with this id, or nothing (never an error). */
  function FindById(db: Db, id: Id): (r: Option<Order>)
    ensures r.None? <==> !HasOrder(db, id)
    ensures r.Some? ==> r.value in db.orders && r.value.id == id
  {
    match IndexWhere(db.orders, (o: Order) => o.id == id)
    case None => None
    case Some(i) => Some(db.orders[i])
  }

  /** Every stored order the filter matches, each as often as stored, newest
      first. */
  function Listing(db: Db, filter: OrderFilter): (r: seq<Order>)
    ensures SortedDesc(r, Date)
    ensures forall o: Order :: multiset(r)[o] == if Matches(o, filter) then multiset(db.orders)[o] else 0
  {
    FilterMultiset(db.orders, Matching(filter));
    SortDesc(Filter(db.orders, Matching(filter)), Date)
  }

  /** `r` is page `opts.page` of the orders `filter` matches, newest first:
      the window of the listing at the page's skip, sorted, holding only
      stored orders that match. */
  ghost predicate PageOfOrders(r: Result<Page<Order>>, db: Db, filter: OrderFilter, opts: PageOptions)
    requires opts.limit >= 1
  {
    && IsPageOf(r, Listing(db, filter), opts)
    && (r.Success? ==>
          && SortedDesc(r.value.docs, Date)
          && forall k :: 0 <= k < |r.value.docs| ==>
               r.value.docs[k] in db.orders && Matches(r.value.docs[k], filter))
  }

  /** The filtered listing: the matching orders newest first, skipping
      `(page - 1) * limit` of them and showing at most `limit`, with the count
      of every match regardless of the window. */
  function FindAll(db: Db, filter: OrderFilter, opts: PageOptions): (r: Result<Page<Order>>)
    requires opts.limit >= 1
    ensures PageOfOrders(r, db, filter, opts)
    ensures r.Success? ==>
      && r.value.total == |Filter(db.orders, Matching(filter))|
      && |r.value.docs| <= opts.limit
      && (opts.page > r.value.pages ==> r.value.docs == [])
  {
    SortedListing(db.orders, Matching(filter), Date, opts);
    Paginate(Listing(db, filter), opts)
  }

  /** One page of a user's orders, newest first, with the number of orders the
      user has. */
  function FindByUserId(db: Db, userId: string, opts: PageOptions): (r: Result<Page<Order>>)
    requires opts.limit >= 1
    ensures PageOfOrders(r, db, UserFilter(userId), opts)
    ensures r.Success? ==> r.value.total == CountByUserId(db, userId)
    ensures r.Success? ==> forall k :: 0 <= k < |r.value.docs| ==> r.value.docs[k].userId == userId
  {
    FindAll(db, UserFilter(userId), opts)
  }

  /** One page of the orders with this status, newest first. */
  function FindByStatus(db: Db, status: Status, opts: PageOptions): (r: Result<Page<Order>>)
    requires opts.limit >= 1
    ensures PageOfOrders(r, db, NoFilter.(status := Some(status)), opts)
    ensures r.Success? ==> forall k :: 0 <= k < |r.value.docs| ==> r.value.docs[k].status == status
  {
    FindAll(db, NoFilter.(status := Some(status)), opts)
  }

  /** One page of the orders neither paid nor cancelled, newest first. */
  function FindPending(db: Db, opts: PageOptions): (r: Result<Page<Order>>)
    requires opts.limit >= 1
    ensures PageOfOrders(r, db, PendingFilter, opts)
    ensures r.Success? ==> forall k :: 0 <= k < |r.value.docs| ==> CategoryOf(r.value.docs[k]) == Pending
  {
    FindAll(db, PendingFilter, opts)
  }

  /** One page of the paid, uncancelled orders, newest first. */
  function FindCompleted(db: Db, opts: PageOptions): (r: Result<Page<Order>>)
    requires opts.limit >= 1
    ensures PageOfOrders(r, db, CompletedFilter, opts)
    ensures r.Success? ==> forall k :: 0 <= k < |r.value.docs| ==> CategoryOf(r.value.docs[k]) == Completed
  {
    FindAll(db, CompletedFilter, opts)
  }

  /** One page of the cancelled orders, paid or not, newest first. */
  function FindCancelled(db: Db, opts: PageOptions): (r: Result<Page<Order>>)
    requires opts.limit >= 1
    ensures PageOfOrders(r, db, CancelledFilter, opts)
    ensures r.Success? ==> forall k :: 0 <= k < |r.value.docs| ==> CategoryOf(r.value.docs[k]) == Cancelled
  {
    FindAll(db, CancelledFilter, opts)
  }

  /** One page of the orders dated within the bounds, both bounds included,
      newest first. */
  function FindByDateRange(db: Db, from: int, to: int, opts: PageOptions): (r: Result<Page<Order>>)
    requires opts.limit >= 1
    ensures PageOfOrders(r, db, NoFilter.(date := Some(DateRange(from, to))), opts)
    ensures r.Success? ==> forall k :: 0 <= k < |r.value.docs| ==> from <= r.value.docs[k].date <= to
  {
    FindAll(db, NoFilter.(date := Some(DateRange(from, to))), opts)
  }

  /** Result of a single-order update: the database and the updated order. */
  datatype OrderUpdated = OrderUpdated(db: Db, doc: Option<Order>)

  /** Update by id, returning the updated order: only the order with that id
      changes, and only in the fields the patch names; an unknown id
      changes nothing and yields nothing. */
  function UpdateById(db: Db, id: Id, patch: OrderPatch): (r: OrderUpdated)
    requires Valid(db)
    ensures Valid(r.db) && r.db.items == db.items && r.db.nextId == db.nextId
    ensures |r.db.orders| == |db.orders|
    ensures forall i :: 0 <= i < |db.orders| ==>
      r.db.orders[i] == (if db.orders[i].id == id then ApplyPatch(db.orders[i], patch) else db.orders[i])
    ensures r.doc.None? <==> !HasOrder(db, id)
    ensures r.doc.None? ==> r.db == db
    ensures r.doc.Some? ==> r.doc.value.id == id && r.doc.value in r.db.orders
  {
    match IndexWhere(db.orders, (o: Order) => o.id == id)
    case None => OrderUpdated(db, None)
    case Some(i) =>
      var updated := ApplyPatch(db.orders[i], patch);
      var orders := db.orders[i := updated];
      assert forall j :: 0 <= j < |db.orders| && j != i ==> db.orders[j].id != id by {
        assert OrderKey(db.orders[i]) == id;
      }
      assert DistinctBy(orders, OrderKey) by {
        forall a, b | 0 <= a < b < |orders| ensures OrderKey(orders[a]) != OrderKey(orders[b]) {
          assert OrderKey(orders[a]) == OrderKey(db.orders[a]) && OrderKey(orders[b]) == OrderKey(db.orders[b]);
        }
      }
      OrderUpdated(db.(orders := orders), Some(updated))
  }

  /** Writes the status field of that order and nothing else. */
  function UpdateStatus(db: Db, id: Id, status: Status): (r: OrderUpdated)
    requires Valid(db)
    ensures Valid(r.db) && r.db.items == db.items && |r.db.orders| == |db.orders|
    ensures forall i :: 0 <= i < |db.orders| ==>
      r.db.orders[i] == (if db.orders[i].id == id then db.orders[i].(status := status) else db.orders[i])
    ensures r.doc.None? <==> !HasOrder(db, id)
    ensures r.doc.None? ==> r.db == db
  {
    UpdateById(db, id, EmptyPatch.(status := Some(status)))
  }

  /** Sets the payment flag of that order and nothing else. */
  function MarkAsPaid(db: Db, id: Id): (r: OrderUpdated)
    requires Valid(db)
    ensures Valid(r.db) && r.db.items == db.items && |r.db.orders| == |db.orders|
    ensures forall i :: 0 <= i < |db.orders| ==>
      r.db.orders[i] == (if db.orders[i].id == id then db.orders[i].(payment := true) else db.orders[i])
    ensures r.doc.None? <==> !HasOrder(db, id)
    ensures r.doc.None? ==> r.db == db
  {
    UpdateById(db, id, EmptyPatch.(payment := Some(true)))
  }

  /** Sets the cancelled flag of that order and nothing else. */
  function CancelOrder(db: Db, id: Id): (r: OrderUpdated)
    requires Valid(db)
    ensures Valid(r.db) && r.db.items == db.items && |r.db.orders| == |db.orders|
    ensures forall i :: 0 <= i < |db.orders| ==>
      r.db.orders[i] == (if db.orders[i].id == id then db.orders[i].(cancelled := true) else db.orders[i])
    ensures r.doc.None? <==> !HasOrder(db, id)
    ensures r.doc.None? ==> r.db == db
  {
    UpdateById(db, id, EmptyPatch.(cancelled := Some(true)))
  }

  /** Result of deleting an order: the database afterwards, and the removed
      order or the cast failure. A failed cast still leaves the first step's
      deletions in place. */
  datatype OrderDeleted = OrderDeleted(db: Db, doc: Result<Option<Order>>)

  /** Deletion by request text. First every item whose order reference is
      exactly that text is removed, whether or not such an order exists; then
      the text is cast to an id, and text that fails the cast fails the call;
      otherwise the order with that id, if any, is removed. Other orders and
      other items stay as they were. */
  function DeleteById(db: Db, id: string): (r: OrderDeleted)
    requires Valid(db)
    ensures Valid(r.db) && r.db.nextId == db.nextId
    ensures !HasItemsOf(r.db, id)
    ensures forall x: OrderItem :: x.orderId != id ==> multiset(r.db.items)[x] == multiset(db.items)[x]
    ensures forall x :: x in r.db.items <==> x in db.items && x.orderId != id
    ensures r.doc.Failure? <==> ParseId(id).None?
    ensures r.doc.Failure? ==> r.doc.error == CastFailed && r.db.orders == db.orders
    ensures ParseId(id).Some? ==> var n := ParseId(id).value;
      && !HasOrder(r.db, n)
      && (r.doc.value.Some? <==> HasOrder(db, n))
      && (r.doc.value.Some? ==> r.doc.value.value in db.orders && r.doc.value.value.id == n)
      && forall o :: o in r.db.orders <==> o in db.orders && o.id != n
  {
    var cleared := OrderItemRepository.DeleteByOrderId(db, id).db;
    match ParseId(id)
    case None => OrderDeleted(cleared, Failure(CastFailed))
    case Some(n) =>
      match IndexWhere(cleared.orders, (o: Order) => o.id == n)
      case None => OrderDeleted(cleared, Success(None))
      case Some(i) =>
        RemoveAtDistinctBy(cleared.orders, i, OrderKey);
        RemoveAtMembers(cleared.orders, i, OrderKey);
        var orders := cleared.orders[..i] + cleared.orders[i + 1..];
        var d := cleared.(orders := orders);
        assert !HasOrder(d, n) by {
          forall j | 0 <= j < |orders| ensures orders[j].id != n {
            assert orders[j] in orders;
          }
        }
        assert forall j :: 0 <= j < |orders| ==> orders[j].id < d.nextId by {
          forall j | 0 <= j < |orders| ensures orders[j].id < d.nextId {
            assert orders[j] in cleared.orders;
          }
        }
        OrderDeleted(d, Success(Some(cleared.orders[i])))
  }

  /** Items refer to their order by its printed id, and the first step
      matches that text verbatim while the cast accepts other spellings: a
      zero-padded spelling of a stored order's id removes the order and keeps
      its items. */
  lemma DeleteByOtherSpelling(db: Db, n: Id)
    requires Valid(db) && HasOrder(db, n) && HasItemsOf(db, IdText(n))
    ensures var r := DeleteById(db, ['0'] + IdText(n));
      && r.doc.Success? && r.doc.value.Some? && r.doc.value.value.id == n
      && !HasOrder(r.db, n)
      && HasItemsOf(r.db, IdText(n))
  {
    var padded := ['0'] + IdText(n);
    ZeroPadded(n);
    var r := DeleteById(db, padded);
    var i :| 0 <= i < |db.items| && db.items[i].orderId == IdText(n);
    var x := db.items[i];
    assert x in db.items && x.orderId != padded;
    assert x in r.db.items;
  }

  /** How many orders the user has. */
  function CountByUserId(db: Db, userId: string): (n: nat)
    ensures n == |Filter(db.orders, Matching(UserFilter(userId)))|
    ensures n <= |db.orders|
    ensures n == 0 <==> forall i :: 0 <= i < |db.orders| ==> db.orders[i].userId != userId
  {
    var m := Filter(db.orders, Matching(UserFilter(userId)));
    if |m| == 0 then
      assert forall i :: 0 <= i < |db.orders| ==> db.orders[i].userId != userId by {
        forall i | 0 <= i < |db.orders| ensures db.orders[i].userId != userId {
          assert db.orders[i] in db.orders;
        }
      }
      0
    else
      assert m[0] in db.orders;
      |m|
  }

  /** A user's order history: one page of orders and the per-view counts. */
  datatype History = History(
    docs: seq<Order>, total: nat, completed: nat, cancelled: nat, pending: nat, page: int, pages: nat)

  /** A user's order history: the page of the user's orders newest first,
      and the number of the user's orders in each view, which add up to the
      user's total. */
  function GetUserOrderHistory(db: Db, userId: string, opts: PageOptions): (r: Result<History>)
    requires opts.limit >= 1
    ensures r.Failure? <==> opts.page < 1
    ensures r.Success? ==>
      PageOfOrders(Success(Page(r.value.docs, r.value.total, r.value.page, r.value.pages)),
                   db, UserFilter(userId), opts)
    ensures r.Success? ==>
      && r.value.total == CountByUserId(db, userId)
      && r.value.completed == |Filter(db.orders, Matching(CompletedFilter.(userId := Some(userId))))|
      && r.value.cancelled == |Filter(db.orders, Matching(CancelledFilter.(userId := Some(userId))))|
      && r.value.pending == |Filter(db.orders, Matching(PendingFilter.(userId := Some(userId))))|
      && r.value.completed + r.value.cancelled + r.value.pending == r.value.total
  {
    match FindAll(db, UserFilter(userId), opts)
    case Failure(e) => Failure(e)
    case Success(p) =>
      var mine := Filter(db.orders, Matching(UserFilter(userId)));
      ViewsPartition(mine);
      UserViewCount(db.orders, userId, PendingFilter);
      UserViewCount(db.orders, userId, CompletedFilter);
      UserViewCount(db.orders, userId, CancelledFilter);
      Success(History(p.docs, p.total,
        |Filter(db.orders, Matching(CompletedFilter.(userId := Some(userId))))|,
        |Filter(db.orders, Matching(CancelledFilter.(userId := Some(userId))))|,
        |Filter(db.orders, Matching(PendingFilter.(userId := Some(userId))))|,
        p.page, p.pages))
  }

  /** Counting a user's orders in a view is counting the view within the
      user's orders. */
  lemma {:induction false} UserViewCount(orders: seq<Order>, userId: string, view: OrderFilter)
    requires view.userId.None?
    ensures |Filter(orders, Matching(view.(userId := Some(userId))))|
      == |Filter(Filter(orders, Matching(UserFilter(userId))), Matching(view))|
  {
    if |orders| != 0 {
      UserViewCount(orders[1..], userId, view);
    }
  }

  /** The caller's filter spread over the paid, uncancelled defaults: the
      caller's keys override the defaults. */
  function Spread(base: OrderFilter, f: OrderFilter): OrderFilter
  {
    OrderFilter(
      if f.userId.Some? then f.userId else base.userId,
      if f.payment.Some? then f.payment else base.payment,
      if f.cancelled.Some? then f.cancelled else base.cancelled,
      if f.status.Some? then f.status else base.status,
      if f.date.Some? then f.date else base.date)
  }

  const PaidFilter := NoFilter.(payment := Some(true), cancelled := Some(false))

  /** Which orders the revenue aggregate counts: the caller's payment and
      cancelled keys replace the defaults, and its other keys apply as well. */
  lemma RevenueStage(o: Order, f: OrderFilter)
    ensures Matches(o, Spread(PaidFilter, f)) <==>
      && (if f.payment.Some? then o.payment == f.payment.value else o.payment)
      && (if f.cancelled.Some? then o.cancelled == f.cancelled.value else !o.cancelled)
      && Matches(o, f.(payment := None, cancelled := None))
  {
  }

  /** Revenue of a set of orders: summed amount and number of orders. */
  datatype Revenue = Revenue(totalRevenue: real, totalOrders: nat)

  /** Amount summed and orders counted over the orders matching the spread
      filter; both 0 when none does. */
  function GetTotalRevenue(db: Db, filter: OrderFilter): (r: Revenue)
    ensures r.totalOrders == |Filter(db.orders, Matching(Spread(PaidFilter, filter)))|
    ensures r.totalRevenue == SumWhere(db.orders, Matching(Spread(PaidFilter, filter)), Amount)
    ensures r.totalOrders == 0 ==> r.totalRevenue == 0.0
  {
    var p := Matching(Spread(PaidFilter, filter));
    var matched := Filter(db.orders, p);
    SumOfFilter(db.orders, p, Amount);
    if |matched| > 0 then Revenue(SumOf(matched, Amount), |matched|)
    else
      assert matched == [];
      Revenue(0.0, 0)
  }

  /** Over orders that are all paid and none cancelled, the unfiltered revenue
      is the sum of all amounts and the number of orders. */
  lemma {:induction false} RevenueOfPaidOrders(orders: seq<Order>)
    requires forall i :: 0 <= i < |orders| ==> orders[i].payment && !orders[i].cancelled
    ensures GetTotalRevenue(Db(orders, [], 0), NoFilter) == Revenue(SumOf(orders, Amount), |orders|)
  {
    if |orders| != 0 {
      RevenueOfPaidOrders(orders[1..]);
      var p := Matching(Spread(PaidFilter, NoFilter));
      assert p(orders[0]);
      assert Filter(orders, p) == [orders[0]] + Filter(orders[1..], p);
      SumOfFilter(orders, p, Amount);
      SumOfFilter(orders[1..], p, Amount);
    }
  }

  /** Adding an unpaid or cancelled order never changes the unfiltered revenue,
      whatever its amount; adding a paid, uncancelled one adds its amount. */
  lemma RevenueAdd(db: Db, o: Order)
    ensures var before := GetTotalRevenue(db, NoFilter);
      var after := GetTotalRevenue(db.(orders := db.orders + [o]), NoFilter);
      if o.payment && !o.cancelled then
        after == Revenue(before.totalRevenue + o.amount, before.totalOrders + 1)
      else after == before
  {
    var p := Matching(Spread(PaidFilter, NoFilter));
    SumWhereAppend(db.orders, [o], p, Amount);
    FilterAppend(db.orders, [o], p);
  }

  /** Revenue of the paid, uncancelled orders dated
      within the bounds, both bounds included. */
  function GetRevenueByDateRange(db: Db, from: int, to: int): (r: Revenue)
    ensures r.totalRevenue == SumWhere(db.orders, Matching(PaidFilter.(date := Some(DateRange(from, to)))), Amount)
    ensures r.totalOrders == |Filter(db.orders, Matching(PaidFilter.(date := Some(DateRange(from, to)))))|
  {
    var r := GetTotalRevenue(db, NoFilter.(date := Some(DateRange(from, to))));
    assert Spread(PaidFilter, NoFilter.(date := Some(DateRange(from, to)))) == PaidFilter.(date := Some(DateRange(from, to)));
    r
  }

  /** Store-wide figures. */
  datatype Statistics = Statistics(
    total: nat, completed: nat, cancelled: nat, pending: nat, inProcess: nat, totalRevenue: real)

  /** Store-wide figures: each count is the number of orders its filter
      matches, the completed, cancelled and pending counts add up to the
      number of orders, and the revenue is that of the paid, uncancelled
      orders. */
  function GetStatistics(db: Db): (s: Statistics)
    ensures s.total == |db.orders|
    ensures s.completed == |Filter(db.orders, Matching(CompletedFilter))|
    ensures s.cancelled == |Filter(db.orders, Matching(CancelledFilter))|
    ensures s.pending == |Filter(db.orders, Matching(PendingFilter))|
    ensures s.inProcess == |Filter(db.orders, Matching(NoFilter.(status := Some(InProcess))))|
    ensures s.completed + s.cancelled + s.pending == s.total
    ensures s.inProcess <= s.total
    ensures s.totalRevenue == SumWhere(db.orders, Matching(PaidFilter), Amount)
  {
    ViewsPartition(db.orders);
    assert Spread(PaidFilter, NoFilter) == PaidFilter;
    Statistics(
      |db.orders|,
      |Filter(db.orders, Matching(CompletedFilter))|,
      |Filter(db.orders, Matching(CancelledFilter))|,
      |Filter(db.orders, Matching(PendingFilter))|,
      |Filter(db.orders, Matching(NoFilter.(status := Some(InProcess))))|,
      GetTotalRevenue(db, NoFilter).totalRevenue)
  }

  /** The figures agree with the listings: each count is the total that the
      matching listing reports, and the total is that of the unfiltered one. */
  lemma StatisticsMatchListings(db: Db)
    ensures var s := GetStatistics(db);
      && s.total == FindAll(db, NoFilter, DefaultOptions).value.total
      && s.completed == FindCompleted(db, DefaultOptions).value.total
      && s.cancelled == FindCancelled(db, DefaultOptions).value.total
      && s.pending == FindPending(db, DefaultOptions).value.total
      && s.inProcess == FindByStatus(db, InProcess, DefaultOptions).value.total
  {
    MatchAll(db.orders);
  }

  /** The empty filter matches every order. */
  lemma {:induction false} MatchAll(orders: seq<Order>)
    ensures Filter(orders, Matching(NoFilter)) == orders
  {
    if |orders| != 0 {
      MatchAll(orders[1..]);
      assert orders == [orders[0]] + orders[1..];
    }
  }
}
