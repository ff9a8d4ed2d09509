/** The order handlers. Placement creates the order, stamps and stores its
    items, links them to the order, clears the cart and opens a checkout
    session; verification either records the payment or deletes the order
    with its items. Every failure becomes an unsuccessful response, and
    nothing stored before the failure is cleaned up. */
module OrderController {
  import opened Basics
  import opened Seqs
  import opened Ids
  import opened Sorting
  import opened Pagination
  import opened OrderModel
  import opened OrderItemModel
  import opened Store
  import opened Checkout
  import OrderItemRepository
  import OrderRepository

  /** The placement request body. */
  datatype PlaceRequest = PlaceRequest(
    userId: string, items: seq<ItemDraft>, amount: real, address: Address, customerName: string)

  /** Outcomes of the steps this service cannot see into: saving the order
      document, writing the item ids onto it, the cart-clearing call to the
      user service, the payment provider's customer creation, and its
      checkout session creation (given the request, a session URL or a failure). */
  datatype Services = Services(
    orderSaved: bool,
    itemsLinked: bool,
    cartCleared: bool,
    customer: Option<string>,
    session: CheckoutRequest -> Option<string>)

  datatype PlaceResponse = SessionCreated(url: string) | PlaceFailed

  /** The state after placement, the response, and the checkout request sent
      (when placement got that far). */
  datatype Placement = Placement(db: Db, response: PlaceResponse, checkout: Option<CheckoutRequest>)

  /** Each submitted item with its order reference set to the new order's
      id, which the string field stores as the id's text. */
  function StampOrderId(items: seq<ItemDraft>, id: Id): (r: seq<ItemDraft>)
    ensures |r| == |items|
    ensures forall i :: 0 <= i < |r| ==> r[i] == items[i].(orderId := Some(IdText(id)))
  {
    if |items| == 0 then [] else [items[0].(orderId := Some(IdText(id)))] + StampOrderId(items[1..], id)
  }

  function ItemIds(items: seq<OrderItem>): (ids: seq<Id>)
    ensures |ids| == |items|
    ensures forall i :: 0 <= i < |items| ==> ids[i] == items[i].id
  {
    if |items| == 0 then [] else [items[0].id] + ItemIds(items[1..])
  }

  /** The checkout session request for order `id`: the submitted items'
      lines in paise, the delivery line, single-payment mode, a required
      billing address, and redirect URLs naming the order. */
  function SessionRequest(customer: string, items: seq<ItemDraft>, id: Id): (r: CheckoutRequest)
    requires OrderItemRepository.AllValid(StampOrderId(items, id))
    ensures r.customer == customer && r.mode == "payment" && r.billingAddressCollection == "required"
    ensures r.successUrl == SuccessUrl(id) && r.cancelUrl == CancelUrl(id)
    ensures |r.lines| == |items| + 1 && r.lines[|items|] == DeliveryLine
    ensures forall i :: 0 <= i < |items| ==>
      && items[i].price.Some? && items[i].quantity.Some?
      && items[i].name.Some?
      && r.lines[i].name == items[i].name.value
      && r.lines[i].currency == Currency
      && r.lines[i].unitAmount == 100.0 * items[i].price.value
      && r.lines[i].quantity == items[i].quantity.value
  {
    var stamped := StampOrderId(items, id);
    assert forall i :: 0 <= i < |stamped| ==> Priced(stamped[i]) by {
      forall i | 0 <= i < |stamped| ensures Priced(stamped[i]) {
        ValidIffComplete(stamped[i]);
      }
    }
    CheckoutRequest(customer, CheckoutLines(stamped), "payment", "required", SuccessUrl(id), CancelUrl(id))
  }

  /** `x` is the document stored for the submitted item `d` of order `id` at
      time `now`: it refers to the order by the id's text, carries the
      submitted fields, keeps each submitted timestamp and has `now` for each
      missing one, and carries no field outside the schema. */
  predicate StoredAs(x: OrderItem, d: ItemDraft, id: Id, now: int)
  {
    && x.orderId == IdText(id)
    && Some(x.name) == d.name
    && Some(x.price) == d.price
    && Some(x.quantity) == d.quantity
    && Some(x.restaurantId) == d.restaurantId
    && (d.createdAt.Some? ==> x.createdAt == d.createdAt.value)
    && (d.createdAt.None? ==> x.createdAt == now)
    && (d.updatedAt.Some? ==> x.updatedAt == d.updatedAt.value)
    && (d.updatedAt.None? ==> x.updatedAt == now)
    && x.itemId.None?
  }

  /** Placement stored the new order and one new item per submitted item but
      did not link them: the order is the freshly created one with an empty
      item list, each new item is stored for its submitted item, and nothing
      else changed. */
  predicate InsertedUnlinked(before: Db, req: PlaceRequest, now: int, after: Db)
  {
    var k := |before.items|;
    && after.orders == before.orders + [Order(before.nextId, req.userId, req.amount, req.address, false, false, InProcess, now, [])]
    && |after.items| == k + |req.items|
    && after.items[..k] == before.items
    && forall i :: 0 <= i < |req.items| ==> StoredAs(after.items[k + i], req.items[i], before.nextId, now)
  }

  /** Placement stored one new order and one new item per submitted item:
      the order is unpaid, uncancelled, "In Process", dated `now`, under the
      next id, and lists the new items' ids in submission order; each new item
      refers to that order and carries the submitted fields; nothing else
      changed. */
  predicate OrderPlaced(before: Db, req: PlaceRequest, now: int, after: Db)
  {
    var k := |before.items|;
    var n := |req.items|;
    && |after.orders| == |before.orders| + 1
    && after.orders[..|before.orders|] == before.orders
    && |after.items| == k + n
    && after.items[..k] == before.items
    && var o := after.orders[|before.orders|];
    && o.id == before.nextId && o.userId == req.userId && o.amount == req.amount
    && o.address == req.address && !o.payment && !o.cancelled && o.status == InProcess
    && o.date == now
    && |o.items| == n
    && forall i :: 0 <= i < n ==>
         && o.items[i] == after.items[k + i].id
         && StoredAs(after.items[k + i], req.items[i], o.id, now)
  }

  /** Steps 1 and 2 of a placement whose items are all valid: create the
      order, then bulk-insert the items stamped with its id. */
  function CreateAndInsert(db: Db, req: PlaceRequest, now: int): (ins: OrderItemRepository.Inserted)
    requires Valid(db)
    requires OrderItemRepository.AllValid(StampOrderId(req.items, db.nextId))
    ensures Valid(ins.db)
    ensures ins.db.orders == db.orders + [Order(db.nextId, req.userId, req.amount, req.address, false, false, InProcess, now, [])]
    ensures ins.db.items == db.items + ins.items
    ensures |ins.items| == |req.items|
    ensures forall i :: 0 <= i < |req.items| ==> StoredAs(ins.items[i], req.items[i], db.nextId, now)
    ensures InsertedUnlinked(db, req, now, ins.db)
  {
    var c := OrderRepository.Create(db, req.userId, req.amount, req.address, now);
    assert c.order.id == db.nextId;
    var stamped := StampOrderId(req.items, db.nextId);
    var r := OrderItemRepository.CreateMany(c.db, stamped, now);
    assert forall i :: 0 <= i < |req.items| ==> stamped[i] == req.items[i].(orderId := Some(IdText(db.nextId)));
    r.value
  }

  /** The store after linking is a placement: the new order holds the new
      items' ids, and each new item holds its submitted fields. */
  lemma LinkedIsPlaced(db: Db, req: PlaceRequest, now: int, ins: OrderItemRepository.Inserted, after: Db)
    requires |ins.items| == |req.items|
    requires forall i :: 0 <= i < |req.items| ==> StoredAs(ins.items[i], req.items[i], db.nextId, now)
    requires after.items == db.items + ins.items
    requires after.orders == db.orders + [Order(db.nextId, req.userId, req.amount, req.address, false, false, InProcess, now, ItemIds(ins.items))]
    ensures OrderPlaced(db, req, now, after)
  {
    var k := |db.items|;
    var o := after.orders[|db.orders|];
    assert after.orders[..|db.orders|] == db.orders;
    assert after.items[..k] == db.items;
    forall i | 0 <= i < |req.items| ensures after.items[k + i] == ins.items[i] && o.items[i] == ins.items[i].id {
    }
  }

  /** Writing the new items' ids onto the freshly created order changes that
      order's item list and nothing else. */
  lemma LinkItems(db: Db, req: PlaceRequest, now: int, ins: OrderItemRepository.Inserted)
    requires Valid(ins.db)
    requires ins.db.orders == db.orders + [Order(db.nextId, req.userId, req.amount, req.address, false, false, InProcess, now, [])]
    ensures var linked := OrderRepository.UpdateById(ins.db, db.nextId, EmptyPatch.(items := Some(ItemIds(ins.items)))).db;
      && linked.items == ins.db.items
      && linked.orders == db.orders + [Order(db.nextId, req.userId, req.amount, req.address, false, false, InProcess, now, ItemIds(ins.items))]
  {
    var linked := OrderRepository.UpdateById(ins.db, db.nextId, EmptyPatch.(items := Some(ItemIds(ins.items)))).db;
    var n := |db.orders|;
    assert ins.db.orders[n].id == db.nextId;
    forall i | 0 <= i < n ensures linked.orders[i] == db.orders[i] {
      assert ins.db.orders[i] == db.orders[i];
      assert OrderKey(ins.db.orders[i]) != OrderKey(ins.db.orders[n]);
    }
  }

  /** Steps 1 to 3 of a placement whose items are all valid: create the order,
      bulk-insert the stamped items, write their ids onto the order. */
  function StoreAndLink(db: Db, req: PlaceRequest, now: int): (after: Db)
    requires Valid(db)
    requires OrderItemRepository.AllValid(StampOrderId(req.items, db.nextId))
    ensures Valid(after)
    ensures OrderPlaced(db, req, now, after)
  {
    var ins := CreateAndInsert(db, req, now);
    LinkItems(db, req, now, ins);
    var linked := OrderRepository.UpdateById(ins.db, db.nextId, EmptyPatch.(items := Some(ItemIds(ins.items))));
    LinkedIsPlaced(db, req, now, ins, linked.db);
    linked.db
  }

  /** Order placement. Without a saved order nothing changes. Once the order
      is saved it stays, whatever fails later; items that fail validation
      leave it without items; items stored but not linked stay, and the order
      keeps an empty item list. Once the items are stored and linked they
      stay too, even when the cart call or the payment provider fails. When
      every step succeeds the response carries the session's URL. */
  function PlaceOrder(db: Db, req: PlaceRequest, svc: Services, now: int): (p: Placement)
    requires Valid(db)
    ensures Valid(p.db)
    ensures !svc.orderSaved ==> p == Placement(db, PlaceFailed, None)
    ensures svc.orderSaved ==>
      && |p.db.orders| == |db.orders| + 1
      && p.db.orders[..|db.orders|] == db.orders
      && p.db.orders[|db.orders|].id == db.nextId
      && !HasOrder(db, db.nextId)
    ensures svc.orderSaved && !OrderItemRepository.AllValid(StampOrderId(req.items, db.nextId)) ==>
      && p.response == PlaceFailed
      && p.db.items == db.items
      && p.db.orders == db.orders + [Order(db.nextId, req.userId, req.amount, req.address, false, false, InProcess, now, [])]
    ensures svc.orderSaved && !svc.itemsLinked && OrderItemRepository.AllValid(StampOrderId(req.items, db.nextId)) ==>
      p.response == PlaceFailed && InsertedUnlinked(db, req, now, p.db)
    ensures svc.orderSaved && svc.itemsLinked && OrderItemRepository.AllValid(StampOrderId(req.items, db.nextId)) ==>
      OrderPlaced(db, req, now, p.db)
    ensures (&& svc.orderSaved && svc.itemsLinked && svc.cartCleared && svc.customer.Some?
             && OrderItemRepository.AllValid(StampOrderId(req.items, db.nextId))
             && svc.session(SessionRequest(svc.customer.value, req.items, db.nextId)).Some?) ==>
      p.response == SessionCreated(svc.session(SessionRequest(svc.customer.value, req.items, db.nextId)).value)
    ensures p.response.SessionCreated? ==>
      && svc.orderSaved && svc.itemsLinked && svc.cartCleared && svc.customer.Some?
      && OrderPlaced(db, req, now, p.db)
      && p.checkout.Some?
      && svc.session(p.checkout.value) == Some(p.response.url)
    ensures p.checkout.Some? ==>
      && svc.orderSaved && svc.itemsLinked && svc.cartCleared
      && OrderItemRepository.AllValid(StampOrderId(req.items, db.nextId))
      && svc.customer.Some?
      && p.checkout.value == SessionRequest(svc.customer.value, req.items, db.nextId)
  {
    if !svc.orderSaved then Placement(db, PlaceFailed, None)
    else
      var c := OrderRepository.Create(db, req.userId, req.amount, req.address, now);
      var stamped := StampOrderId(req.items, c.order.id);
      // the bulk insertion fails exactly when some stamped item is invalid
      match OrderItemRepository.CreateMany(c.db, stamped, now)
      case Failure(_) => Placement(c.db, PlaceFailed, None)
      case Success(ins) =>
        assert ins == CreateAndInsert(db, req, now);
        if !svc.itemsLinked then Placement(ins.db, PlaceFailed, None)
        else
          var linked := StoreAndLink(db, req, now);
          if !svc.cartCleared then Placement(linked, PlaceFailed, None)
          else match svc.customer
            case None => Placement(linked, PlaceFailed, None)
            case Some(customer) =>
              var request := SessionRequest(customer, req.items, c.order.id);
              match svc.session(request)
              case None => Placement(linked, PlaceFailed, Some(request))
              case Some(url) => Placement(linked, SessionCreated(url), Some(request))
  }

  /** A request body value as the JSON parser delivers it; `Absent` is a
      missing key. `Number` stands for the integers below 10^21 in magnitude,
      which JavaScript prints as plain decimals. Any other number's text also
      begins with a digit, '-' or 'I' (as in "1e-7", "1e+21" or "Infinity"),
      never 't', so no number spells "true". Of an object only one thing matters here: whether it has its own
      `toString` key, which, holding data and not a function, hides the
      conversion every object otherwise inherits. */
  datatype BodyValue =
    | Text(text: string)
    | Flag(flag: bool)
    | Number(n: int)
    | Null
    | Object(ownToString: bool)
    | List(elems: seq<BodyValue>)
    | Absent

  /** Turning the value into a string throws: it is, or an array holds, an
      object whose own `toString` key hides the inherited conversion. */
  predicate ConversionThrows(v: BodyValue)
  {
    match v
    case Object(ownToString) => ownToString
    case List(elems) => exists i :: 0 <= i < |elems| && ConversionThrows(elems[i])
    case _ => false
  }

  /** The decimal text of an integer. */
  function IntText(n: int): (t: string)
    ensures |t| > 0 && (t[0] == '-' || IsDigit(t[0]))
  {
    if n < 0 then "-" + IdText(-n) else IdText(n)
  }

  /** The elements' texts separated by commas. */
  function JoinTexts(ts: seq<string>): string
  {
    if |ts| == 0 then ""
    else if |ts| == 1 then ts[0]
    else ts[0] + "," + JoinTexts(ts[1..])
  }

  /** The string JavaScript converts a value to inside an array being
      turned into a string: null and a missing value become empty, a plain
      object "[object Object]", an array its elements' texts joined by
      commas. */
  function ElementText(v: BodyValue): string
  {
    match v
    case Text(t) => t
    case Flag(b) => if b then "true" else "false"
    case Number(n) => IntText(n)
    case Null => ""
    case Object(_) => "[object Object]"
    case List(elems) => JoinTexts(seq(|elems|, i requires 0 <= i < |elems| => ElementText(elems[i])))
    case Absent => ""
  }

  /** JavaScript's loose comparison `value == "true"`, for a value whose
      conversion does not throw. A string compares as itself. A boolean, a
      number, null and a missing value compare as numbers or not at all, and
      "true" is not a number, so they never match. An object or array is first
      turned into its string form: a plain object gives "[object Object]", an
      array its elements' texts joined by commas. */
  predicate LooselyTrue(v: BodyValue)
  {
    match v
    case Text(t) => t == "true"
    case Object(_) => false
    case List(_) => ElementText(v) == "true"
    case _ => false
  }

  /** A join of two or more texts contains a comma, so "true" is the join of
      exactly one text, "true" itself. */
  lemma JoinIsTrue(ts: seq<string>)
    ensures JoinTexts(ts) == "true" <==> |ts| == 1 && ts[0] == "true"
  {
    if |ts| >= 2 {
      assert JoinTexts(ts)[|ts[0]|] == ',';
    }
  }

  /** An element spells "true" only as that string, the boolean true, or an
      array whose own text is "true". */
  lemma ElementIsTrue(v: BodyValue)
    ensures ElementText(v) == "true" <==>
      v == Text("true") || v == Flag(true) || (v.List? && LooselyTrue(v))
  {
    if v.Number? {
      assert IntText(v.n)[0] != 't';
    }
  }

  /** The values loosely equal to "true": the string itself, and the arrays
      of exactly one element that spells "true" — the string, the boolean
      true, or such an array again. The boolean true alone is not. */
  lemma LooselyTrueValues(v: BodyValue)
    ensures LooselyTrue(v) <==>
      || v == Text("true")
      || (v.List? && |v.elems| == 1 &&
          (v.elems[0] == Text("true") || v.elems[0] == Flag(true) || (v.elems[0].List? && LooselyTrue(v.elems[0]))))
    ensures !LooselyTrue(Flag(true))
  {
    if v.List? {
      var ts := seq(|v.elems|, i requires 0 <= i < |v.elems| => ElementText(v.elems[i]));
      JoinIsTrue(ts);
      if |v.elems| == 1 {
        ElementIsTrue(v.elems[0]);
      }
    }
  }

  datatype VerifyResponse = Paid | NotPaid | VerifyFailed

  datatype Verified = Verified(db: Db, response: VerifyResponse)

  /** Payment verification trusts the redirect's flag. A flag whose
      comparison throws fails and changes nothing. When the flag is loosely
      equal to "true" the order is marked paid and kept; text that fails the
      cast then fails and changes nothing. Otherwise the order is deleted: the
      items referring to it by exactly that text go first, then the text is
      cast, and text that fails the cast fails the call but leaves the items
      deleted; text that casts removes the order with that id. */
  function VerifyOrder(db: Db, orderId: string, success: BodyValue): (r: Verified)
    requires Valid(db)
    ensures Valid(r.db)
    ensures ConversionThrows(success) ==> r == Verified(db, VerifyFailed)
    ensures !ConversionThrows(success) && LooselyTrue(success) && ParseId(orderId).None? ==>
      r == Verified(db, VerifyFailed)
    ensures !ConversionThrows(success) && LooselyTrue(success) && ParseId(orderId).Some? ==>
      var id := ParseId(orderId).value;
      && r.response == Paid
      && r.db.items == db.items
      && |r.db.orders| == |db.orders|
      && forall i :: 0 <= i < |db.orders| ==>
           r.db.orders[i] == (if db.orders[i].id == id then db.orders[i].(payment := true) else db.orders[i])
    ensures !ConversionThrows(success) && !LooselyTrue(success) ==>
      && (r.response == VerifyFailed <==> ParseId(orderId).None?)
      && r.response != Paid
      && !HasItemsOf(r.db, orderId)
      && (forall x :: x in r.db.items <==> x in db.items && x.orderId != orderId)
      && (ParseId(orderId).None? ==> r.db.orders == db.orders)
    ensures !ConversionThrows(success) && !LooselyTrue(success) && ParseId(orderId).Some? ==>
      var id := ParseId(orderId).value;
      && !HasOrder(r.db, id)
      && (forall o :: o in r.db.orders <==> o in db.orders && o.id != id)
  {
    if ConversionThrows(success) then Verified(db, VerifyFailed)
    else if LooselyTrue(success) then
      match ParseId(orderId)
      case None => Verified(db, VerifyFailed)
      case Some(id) => Verified(OrderRepository.UpdateById(db, id, EmptyPatch.(payment := Some(true))).db, Paid)
    else
      var d := OrderRepository.DeleteById(db, orderId);
      if d.doc.Failure? then Verified(d.db, VerifyFailed) else Verified(d.db, NotPaid)
  }

  datatype OrderLookup = Found(order: Order) | NotFound | LookupFailed

  /** Lookup by request text: a missing order is answered "not found", not
      an error; only text that fails the cast fails. */
  function GetOrderById(db: Db, id: string): (r: OrderLookup)
    ensures r.LookupFailed? <==> ParseId(id).None?
    ensures r.NotFound? <==> ParseId(id).Some? && !HasOrder(db, ParseId(id).value)
    ensures r.Found? ==> r.order in db.orders && ParseId(id) == Some(r.order.id)
  {
    match ParseId(id)
    case None => LookupFailed
    case Some(n) =>
      match OrderRepository.FindById(db, n)
      case None => NotFound
      case Some(o) => Found(o)
  }

  datatype AdminResponse = Done | AdminFailed

  datatype Handled = Handled(db: Db, response: AdminResponse)

  /** The status handler: writes the status of the order the text casts to
      and reports success, also when no order has that id. */
  function UpdateStatusHandler(db: Db, orderId: string, status: Status): (r: Handled)
    requires Valid(db)
    ensures Valid(r.db)
    ensures r.response == AdminFailed <==> ParseId(orderId).None?
    ensures r.response == AdminFailed ==> r.db == db
    ensures r.db.items == db.items && |r.db.orders| == |db.orders|
    ensures forall i :: 0 <= i < |db.orders| ==>
      r.db.orders[i] == (if ParseId(orderId) == Some(db.orders[i].id) then db.orders[i].(status := status) else db.orders[i])
  {
    match ParseId(orderId)
    case None => Handled(db, AdminFailed)
    case Some(id) => Handled(OrderRepository.UpdateStatus(db, id, status).db, Done)
  }

  /** The admin cancel handler: it goes through the status update with an
      object whose cancelled key is true, so it writes that object into the
      status field and leaves the cancelled flag alone. No order changes view, and it reports success. */
  function CancelOrderHandler(db: Db, orderId: string): (r: Handled)
    requires Valid(db)
    ensures Valid(r.db)
    ensures r.response == AdminFailed <==> ParseId(orderId).None?
    ensures r.db.items == db.items && |r.db.orders| == |db.orders|
    ensures forall i :: 0 <= i < |db.orders| ==>
      && r.db.orders[i].cancelled == db.orders[i].cancelled
      && r.db.orders[i].payment == db.orders[i].payment
      && OrderRepository.CategoryOf(r.db.orders[i]) == OrderRepository.CategoryOf(db.orders[i])
    ensures forall i :: 0 <= i < |db.orders| && ParseId(orderId) == Some(db.orders[i].id) ==>
      r.db.orders[i].status == StatusObject(true)
    ensures r.response == AdminFailed ==> r.db == db
    ensures forall i :: 0 <= i < |db.orders| ==>
      r.db.orders[i] == (if ParseId(orderId) == Some(db.orders[i].id) then db.orders[i].(status := StatusObject(true)) else db.orders[i])
  {
    UpdateStatusHandler(db, orderId, StatusObject(true))
  }

  /** After the cancel handler the store-wide cancelled, completed and pending
      counts are what they were. */
  lemma CancelKeepsStatistics(db: Db, orderId: string)
    requires Valid(db)
    ensures var after := OrderRepository.GetStatistics(CancelOrderHandler(db, orderId).db);
      var before := OrderRepository.GetStatistics(db);
      after.cancelled == before.cancelled && after.completed == before.completed
      && after.pending == before.pending && after.total == before.total
  {
    var d := CancelOrderHandler(db, orderId).db;
    FilterCountPointwise(d.orders, db.orders, OrderRepository.Matching(OrderRepository.CancelledFilter));
    FilterCountPointwise(d.orders, db.orders, OrderRepository.Matching(OrderRepository.CompletedFilter));
    FilterCountPointwise(d.orders, db.orders, OrderRepository.Matching(OrderRepository.PendingFilter));
  }

  /** A user's orders for the storefront: the first page of ten, newest
      first, with the number of orders the user has. */
  function UserOrders(db: Db, userId: string): (r: Result<Page<Order>>)
    ensures r.Success?
    ensures OrderRepository.PageOfOrders(r, db, OrderRepository.UserFilter(userId), DefaultOptions)
    ensures |r.value.docs| <= 10 && r.value.total == OrderRepository.CountByUserId(db, userId)
    ensures forall k :: 0 <= k < |r.value.docs| ==> r.value.docs[k].userId == userId
  {
    OrderRepository.FindByUserId(db, userId, DefaultOptions)
  }

  /** The admin listing: the first page of ten of all orders, newest first,
      with the number of all orders. */
  function ListAllOrders(db: Db): (r: Result<Page<Order>>)
    ensures r.Success?
    ensures IsPageOf(r, SortDesc(db.orders, OrderRepository.Date), DefaultOptions)
    ensures SortedDesc(r.value.docs, OrderRepository.Date)
    ensures |r.value.docs| <= 10 && r.value.total == |db.orders|
    ensures forall k :: 0 <= k < |r.value.docs| ==> r.value.docs[k] in db.orders
  {
    OrderRepository.MatchAll(db.orders);
    OrderRepository.FindAll(db, OrderRepository.NoFilter, DefaultOptions)
  }

  /** A restaurant's ordered items, newest first. */
  function GetOrderByRestaurantId(db: Db, restaurantId: string): (r: seq<OrderItem>)
    ensures SortedDesc(r, OrderItemRepository.CreatedAt)
    ensures forall x: OrderItem :: multiset(r)[x] == if x.restaurantId == restaurantId then multiset(db.items)[x] else 0
  {
    OrderItemRepository.FindByRestaurantId(db, restaurantId)
  }

  /** Verifying a freshly placed order as paid marks exactly that order. */
  lemma PayPlaced(db: Db, req: PlaceRequest, now: int, after: Db)
    requires Valid(db) && Valid(after) && OrderPlaced(db, req, now, after)
    ensures var v := VerifyOrder(after, IdText(db.nextId), Text("true"));
      && v.response == Paid
      && v.db.items == after.items
      && |v.db.orders| == |after.orders|
      && v.db.orders[|db.orders|] == after.orders[|db.orders|].(payment := true)
      && v.db.orders[..|db.orders|] == db.orders
  {
    ParseIdText(db.nextId);
    var v := VerifyOrder(after, IdText(db.nextId), Text("true"));
    forall i | 0 <= i < |db.orders| ensures v.db.orders[i] == db.orders[i] {
      assert after.orders[i] == db.orders[i];
    }
  }

  /** Following the success redirect of a placed order marks exactly that
      order paid and keeps it and every item. */
  lemma PaySuccessRedirect(db: Db, req: PlaceRequest, svc: Services, now: int)
    requires Valid(db)
    requires PlaceOrder(db, req, svc, now).response.SessionCreated?
    ensures var p := PlaceOrder(db, req, svc, now);
      var back := ParseRedirect(p.checkout.value.successUrl);
      && back.Some?
      && var v := VerifyOrder(p.db, back.value.orderId, Text(back.value.success));
      && v.response == Paid
      && v.db.items == p.db.items
      && |v.db.orders| == |p.db.orders|
      && v.db.orders[|db.orders|] == p.db.orders[|db.orders|].(payment := true)
      && v.db.orders[..|db.orders|] == db.orders
  {
    var p := PlaceOrder(db, req, svc, now);
    SuccessAndCancelUrls(db.nextId);
    PayPlaced(db, req, now, p.db);
  }

  /** Deleting a freshly placed order leaves the orders stored before
      placement. */
  lemma UndoPlacementOrders(db: Db, req: PlaceRequest, now: int, after: Db)
    requires Valid(db) && Valid(after) && OrderPlaced(db, req, now, after)
    ensures forall o :: o in OrderRepository.DeleteById(after, IdText(db.nextId)).db.orders <==> o in db.orders
  {
    ParseIdText(db.nextId);
    forall o | o in db.orders ensures o in after.orders && o.id != db.nextId {
      var j :| 0 <= j < |db.orders| && db.orders[j] == o;
      assert after.orders[j] == o;
    }
    forall o | o in after.orders && o.id != db.nextId ensures o in db.orders {
      var j :| 0 <= j < |after.orders| && after.orders[j] == o;
      assert db.orders[j] == o;
    }
  }

  /** Deleting a freshly placed order leaves the items stored before
      placement, except those that already named the new order's id: the item
      store never checks that an order id refers to an order. */
  lemma UndoPlacementItems(db: Db, req: PlaceRequest, now: int, after: Db)
    requires Valid(db) && Valid(after) && OrderPlaced(db, req, now, after)
    ensures forall x :: x in OrderRepository.DeleteById(after, IdText(db.nextId)).db.items <==>
      x in db.items && x.orderId != IdText(db.nextId)
  {
    var k := |db.items|;
    forall x | x in db.items ensures x in after.items {
      var j :| 0 <= j < k && db.items[j] == x;
      assert after.items[j] == x;
    }
    var o := after.orders[|db.orders|];
    forall j | k <= j < |after.items| ensures after.items[j].orderId == IdText(db.nextId) {
      assert o.items[j - k] == after.items[k + (j - k)].id;
    }
    forall x | x in after.items && x.orderId != IdText(db.nextId) ensures x in db.items {
      var j :| 0 <= j < |after.items| && after.items[j] == x;
      assert db.items[j] == x;
    }
  }

  /** Verifying a freshly placed order as unpaid deletes it with its items:
      it is then not found and has no items, the earlier orders remain, and
      so do the earlier items that did not already name its id. */
  lemma AbandonPlaced(db: Db, req: PlaceRequest, now: int, after: Db)
    requires Valid(db) && Valid(after) && OrderPlaced(db, req, now, after)
    ensures var v := VerifyOrder(after, IdText(db.nextId), Text("false"));
      && v.response == NotPaid
      && GetOrderById(v.db, IdText(db.nextId)) == NotFound
      && OrderItemRepository.FindByOrderId(v.db, IdText(db.nextId)) == []
      && (forall o :: o in v.db.orders <==> o in db.orders)
      && (forall x :: x in v.db.items <==> x in db.items && x.orderId != IdText(db.nextId))
  {
    ParseIdText(db.nextId);
    UndoPlacementOrders(db, req, now, after);
    UndoPlacementItems(db, req, now, after);
  }

  /** Following the cancel redirect of a placed order deletes it with all its
      items: afterwards the order is not found, has no items, and the store
      holds the orders it held before placement and the items that did not
      already name the new order's id. */
  lemma AbandonCancelRedirect(db: Db, req: PlaceRequest, svc: Services, now: int)
    requires Valid(db)
    requires PlaceOrder(db, req, svc, now).response.SessionCreated?
    ensures var p := PlaceOrder(db, req, svc, now);
      var back := ParseRedirect(p.checkout.value.cancelUrl);
      && back.Some?
      && var v := VerifyOrder(p.db, back.value.orderId, Text(back.value.success));
      && v.response == NotPaid
      && GetOrderById(v.db, IdText(db.nextId)) == NotFound
      && OrderItemRepository.FindByOrderId(v.db, IdText(db.nextId)) == []
      && (forall o :: o in v.db.orders <==> o in db.orders)
      && (forall x :: x in v.db.items <==> x in db.items && x.orderId != IdText(db.nextId))
  {
    SuccessAndCancelUrls(db.nextId);
    AbandonPlaced(db, req, now, PlaceOrder(db, req, svc, now).db);
  }
}
