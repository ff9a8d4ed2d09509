/** The order item store: bulk and single insertion, lookups by order and by
    restaurant (newest first), the paginated listing, updates, deletions and
    the two aggregates. */
module OrderItemRepository {
  import opened Basics
  import opened Seqs
  import opened Sorting
  import opened Pagination
  import opened OrderItemModel
  import opened Store

  function CreatedAt(x: OrderItem): int { x.createdAt }

  function Quantity(x: OrderItem): real { x.quantity }

  function Takings(x: OrderItem): real { x.price * x.quantity }

  /** Selects the items whose order reference is exactly this text. */
  function OfOrder(orderId: string): OrderItem -> bool
  {
    (x: OrderItem) => x.orderId == orderId
  }

  /** Selects the items of every other order. */
  function NotOfOrder(orderId: string): OrderItem -> bool
  {
    (x: OrderItem) => x.orderId != orderId
  }

  /** Selects the items of one restaurant. */
  function OfRestaurant(restaurantId: string): OrderItem -> bool
  {
    (x: OrderItem) => x.restaurantId == restaurantId
  }

  /** Result of an insertion: the new database and the stored documents. */
  datatype Inserted = Inserted(db: Db, items: seq<OrderItem>)

  predicate AllValid(drafts: seq<ItemDraft>)
  {
    forall i :: 0 <= i < |drafts| ==> IsValid(drafts[i])
  }

  /** The documents for `drafts`, numbered consecutively from `firstId`. */
  function MaterializeAll(drafts: seq<ItemDraft>, firstId: Id, now: int): (r: seq<OrderItem>)
    requires AllValid(drafts)
    ensures |r| == |drafts|
    ensures forall i :: 0 <= i < |r| ==> r[i] == Materialize(drafts[i], firstId + i, now)
  {
    if |drafts| == 0 then []
    else [Materialize(drafts[0], firstId, now)] + MaterializeAll(drafts[1..], firstId + 1, now)
  }

  /** Appending documents with fresh, consecutive ids keeps the database valid. */
  lemma AppendFreshItems(db: Db, created: seq<OrderItem>)
    requires Valid(db)
    requires forall i :: 0 <= i < |created| ==> created[i].id == db.nextId + i
    ensures Valid(db.(items := db.items + created, nextId := db.nextId + |created|))
  {
    var items := db.items + created;
    forall i, j | 0 <= i < j < |items| ensures ItemKey(items[i]) != ItemKey(items[j]) {
      if j >= |db.items| {
        assert items[j] == created[j - |db.items|];
        if i >= |db.items| {
          assert items[i] == created[i - |db.items|];
        }
      }
    }
  }

  /** The bulk insertion, all or nothing. If any draft
      fails validation nothing is stored; otherwise every draft becomes one new
      document, in input order, with a fresh id distinct from the others. */
  function CreateMany(db: Db, drafts: seq<ItemDraft>, now: int): (r: Result<Inserted>)
    requires Valid(db)
    ensures r.Failure? <==> exists i :: 0 <= i < |drafts| && !IsValid(drafts[i])
    ensures r.Failure? ==> r.error == ValidationFailed
    ensures r.Success? ==>
      && |r.value.items| == |drafts|
      && r.value.db.orders == db.orders
      && r.value.db.items == db.items + r.value.items
      && Valid(r.value.db)
    ensures r.Success? ==> forall i :: 0 <= i < |drafts| ==>
      && Some(r.value.items[i].orderId) == drafts[i].orderId
      && Some(r.value.items[i].name) == drafts[i].name
      && Some(r.value.items[i].price) == drafts[i].price
      && Some(r.value.items[i].quantity) == drafts[i].quantity
      && Some(r.value.items[i].restaurantId) == drafts[i].restaurantId
      && r.value.items[i].createdAt == StampOr(drafts[i].createdAt, now)
      && r.value.items[i].updatedAt == StampOr(drafts[i].updatedAt, now)
      && r.value.items[i].itemId.None?
    ensures r.Success? ==> forall i, j :: 0 <= i < |db.items| && 0 <= j < |drafts| ==>
      db.items[i].id != r.value.items[j].id
    ensures r.Success? ==> forall i, j :: 0 <= i < j < |drafts| ==>
      r.value.items[i].id != r.value.items[j].id
  {
    if AllValid(drafts) then
      var created := MaterializeAll(drafts, db.nextId, now);
      AppendFreshItems(db, created);
      Success(Inserted(db.(items := db.items + created, nextId := db.nextId + |created|), created))
    else
      Failure(ValidationFailed)
  }

  /** Saving one document. It is stored under the next id with the submitted
      fields; a submitted creation time is kept and a missing one becomes
      `now`, and saving a new document sets its update time to its creation
      time, whatever was submitted for it. */
  function Create(db: Db, draft: ItemDraft, now: int): (r: Result<Inserted>)
    requires Valid(db)
    ensures r.Failure? <==> !IsValid(draft)
    ensures r.Failure? ==> r.error == ValidationFailed
    ensures r.Success? ==>
      && |r.value.items| == 1
      && r.value.db.items == db.items + r.value.items
      && r.value.db.orders == db.orders
      && Valid(r.value.db)
    ensures r.Success? ==>
      var x := r.value.items[0];
      && x.id == db.nextId
      && (forall i :: 0 <= i < |db.items| ==> db.items[i].id != x.id)
      && Some(x.orderId) == draft.orderId && Some(x.name) == draft.name
      && Some(x.price) == draft.price && Some(x.quantity) == draft.quantity
      && Some(x.restaurantId) == draft.restaurantId
      && (draft.createdAt.Some? ==> x.createdAt == draft.createdAt.value)
      && (draft.createdAt.None? ==> x.createdAt == now)
      && x.updatedAt == x.createdAt
      && x.itemId.None?
  {
    if IsValid(draft) then
      var m := Materialize(draft, db.nextId, now);
      var x := m.(updatedAt := m.createdAt);
      AppendFreshItems(db, [x]);
      Success(Inserted(db.(items := db.items + [x], nextId := db.nextId + 1), [x]))
    else
      Failure(ValidationFailed)
  }

  /** The document with this id, or nothing. */
  function FindById(db: Db, id: Id): (r: Option<OrderItem>)
    ensures r.Some? ==> r.value in db.items && r.value.id == id
    ensures r.None? <==> forall i :: 0 <= i < |db.items| ==> db.items[i].id != id
  {
    match IndexWhere(db.items, (x: OrderItem) => x.id == id)
    case None => None
    case Some(i) => Some(db.items[i])
  }

  /** The items whose order reference is exactly this text, each as often as
      stored, newest first. */
  function FindByOrderId(db: Db, orderId: string): (r: seq<OrderItem>)
    ensures SortedDesc(r, CreatedAt)
    ensures forall x: OrderItem :: multiset(r)[x] == if x.orderId == orderId then multiset(db.items)[x] else 0
  {
    var m := Filter(db.items, OfOrder(orderId));
    FilterMultiset(db.items, OfOrder(orderId));
    SortDesc(m, CreatedAt)
  }

  /** Exactly the items of that restaurant, each as often as stored, newest
      first. */
  function FindByRestaurantId(db: Db, restaurantId: string): (r: seq<OrderItem>)
    ensures SortedDesc(r, CreatedAt)
    ensures forall x: OrderItem :: multiset(r)[x] == if x.restaurantId == restaurantId then multiset(db.items)[x] else 0
  {
    var m := Filter(db.items, OfRestaurant(restaurantId));
    FilterMultiset(db.items, OfRestaurant(restaurantId));
    SortDesc(m, CreatedAt)
  }

  /** A listing filter: each present field must equal the document's. */
  datatype ItemFilter = ItemFilter(orderId: Option<string>, restaurantId: Option<string>)

  predicate MatchesItem(x: OrderItem, f: ItemFilter)
  {
    && (f.orderId.Some? ==> x.orderId == f.orderId.value)
    && (f.restaurantId.Some? ==> x.restaurantId == f.restaurantId.value)
  }

  /** Selects the items a listing filter matches. */
  function Matching(f: ItemFilter): OrderItem -> bool
  {
    (x: OrderItem) => MatchesItem(x, f)
  }

  /** Every stored item the filter matches, each as often as stored, newest
      first. */
  function Listing(db: Db, filter: ItemFilter): (r: seq<OrderItem>)
    ensures SortedDesc(r, CreatedAt)
    ensures forall x: OrderItem :: multiset(r)[x] == if MatchesItem(x, filter) then multiset(db.items)[x] else 0
  {
    FilterMultiset(db.items, Matching(filter));
    SortDesc(Filter(db.items, Matching(filter)), CreatedAt)
  }

  /** The paginated listing: page `page` of the matching items newest first,
      skipping `(page - 1) * limit` of them and showing at most `limit`, with
      the count of every matching item regardless of the window. */
  function FindAll(db: Db, filter: ItemFilter, opts: PageOptions): (r: Result<Page<OrderItem>>)
    requires opts.limit >= 1
    ensures IsPageOf(r, Listing(db, filter), opts)
    ensures r.Success? ==>
      && r.value.total == |Filter(db.items, Matching(filter))|
      && r.value.page == opts.page
      && r.value.pages == PageCount(r.value.total, opts.limit)
      && |r.value.docs| <= opts.limit
      && (opts.page > r.value.pages ==> r.value.docs == [])
      && SortedDesc(r.value.docs, CreatedAt)
      && (forall k :: 0 <= k < |r.value.docs| ==>
            r.value.docs[k] in db.items && MatchesItem(r.value.docs[k], filter))
  {
    SortedListing(db.items, Matching(filter), CreatedAt, opts);
    Paginate(Listing(db, filter), opts)
  }

  /** An update document for items; named fields are set. */
  datatype ItemPatch = ItemPatch(
    orderId: Option<string>,
    name: Option<string>,
    price: Option<real>,
    quantity: Option<real>,
    restaurantId: Option<string>)

  /** Update validators: a required string may not be set to the empty string. */
  predicate PatchValid(p: ItemPatch)
  {
    && (p.orderId.Some? ==> p.orderId.value != "")
    && (p.name.Some? ==> p.name.value != "")
    && (p.restaurantId.Some? ==> p.restaurantId.value != "")
  }

  /** The document after an update at time `now`. */
  function ApplyItemPatch(x: OrderItem, p: ItemPatch, now: int): (r: OrderItem)
    ensures r.id == x.id && r.createdAt == x.createdAt && r.itemId == x.itemId
    ensures r.updatedAt == now
    ensures r.orderId == (if p.orderId.Some? then p.orderId.value else x.orderId)
    ensures r.name == (if p.name.Some? then p.name.value else x.name)
    ensures r.price == (if p.price.Some? then p.price.value else x.price)
    ensures r.quantity == (if p.quantity.Some? then p.quantity.value else x.quantity)
    ensures r.restaurantId == (if p.restaurantId.Some? then p.restaurantId.value else x.restaurantId)
  {
    x.(orderId := if p.orderId.Some? then p.orderId.value else x.orderId,
       name := if p.name.Some? then p.name.value else x.name,
       price := if p.price.Some? then p.price.value else x.price,
       quantity := if p.quantity.Some? then p.quantity.value else x.quantity,
       restaurantId := if p.restaurantId.Some? then p.restaurantId.value else x.restaurantId,
       updatedAt := now)
  }

  /** Result of a single-document update: the database and the updated document. */
  datatype ItemUpdated = ItemUpdated(db: Db, doc: Option<OrderItem>)

  /** Update of one document with validators on: a patch that blanks a required field
      fails; otherwise only the document with that id changes, and an unknown
      id changes nothing and yields nothing. */
  function UpdateById(db: Db, id: Id, patch: ItemPatch, now: int): (r: Result<ItemUpdated>)
    requires Valid(db)
    ensures r.Failure? <==> !PatchValid(patch)
    ensures r.Success? ==> Valid(r.value.db) && r.value.db.orders == db.orders
    ensures r.Success? ==> |r.value.db.items| == |db.items|
    ensures r.Success? ==> forall i :: 0 <= i < |db.items| ==>
      r.value.db.items[i] == (if db.items[i].id == id then ApplyItemPatch(db.items[i], patch, now) else db.items[i])
    ensures r.Success? ==>
      (r.value.doc.None? <==> forall i :: 0 <= i < |db.items| ==> db.items[i].id != id)
    ensures r.Success? && r.value.doc.None? ==> r.value.db == db
    ensures r.Success? && r.value.doc.Some? ==> r.value.doc.value.id == id && r.value.doc.value in r.value.db.items
  {
    if !PatchValid(patch) then Failure(ValidationFailed)
    else match IndexWhere(db.items, (x: OrderItem) => x.id == id)
      case None => Success(ItemUpdated(db, None))
      case Some(i) =>
        var updated := ApplyItemPatch(db.items[i], patch, now);
        var items := db.items[i := updated];
        assert forall j :: 0 <= j < |db.items| && j != i ==> db.items[j].id != id by {
          assert ItemKey(db.items[i]) == id;
        }
        assert DistinctBy(items, ItemKey) by {
          forall a, b | 0 <= a < b < |items| ensures ItemKey(items[a]) != ItemKey(items[b]) {
            assert ItemKey(items[a]) == ItemKey(db.items[a]) && ItemKey(items[b]) == ItemKey(db.items[b]);
          }
        }
        Success(ItemUpdated(db.(items := items), Some(updated)))
  }

  /** Result of a bulk update: the database and the number of matched documents. */
  datatype BulkUpdated = BulkUpdated(db: Db, matched: nat)

  /** Update of every item of one order with validators on: a patch that
      blanks a required field fails and changes nothing; otherwise exactly the
      items whose order reference is this text are patched and every other
      item is untouched. */
  function UpdateByOrderId(db: Db, orderId: string, patch: ItemPatch, now: int): (r: Result<BulkUpdated>)
    requires Valid(db)
    ensures r.Failure? <==> !PatchValid(patch)
    ensures r.Success? ==> Valid(r.value.db) && r.value.db.orders == db.orders
    ensures r.Success? ==> |r.value.db.items| == |db.items|
    ensures r.Success? ==> forall i :: 0 <= i < |db.items| && db.items[i].orderId != orderId ==>
      r.value.db.items[i] == db.items[i]
    ensures r.Success? ==> forall i :: 0 <= i < |db.items| && db.items[i].orderId == orderId ==>
      r.value.db.items[i] == ApplyItemPatch(db.items[i], patch, now)
    ensures r.Success? ==> r.value.matched == |Filter(db.items, OfOrder(orderId))|
  {
    if !PatchValid(patch) then Failure(ValidationFailed)
    else
      var items := seq(|db.items|, i requires 0 <= i < |db.items| =>
        if db.items[i].orderId == orderId then ApplyItemPatch(db.items[i], patch, now) else db.items[i]);
      assert DistinctBy(items, ItemKey) by {
        forall a, b | 0 <= a < b < |items| ensures ItemKey(items[a]) != ItemKey(items[b]) {
          assert ItemKey(items[a]) == ItemKey(db.items[a]) && ItemKey(items[b]) == ItemKey(db.items[b]);
        }
      }
      Success(BulkUpdated(db.(items := items), |Filter(db.items, OfOrder(orderId))|))
  }

  /** Result of a single-document deletion: the database and the removed document. */
  datatype ItemDeleted = ItemDeleted(db: Db, doc: Option<OrderItem>)

  /** Removes the document with this id, if any, and
      nothing else. */
  function DeleteById(db: Db, id: Id): (r: ItemDeleted)
    requires Valid(db)
    ensures Valid(r.db) && r.db.orders == db.orders && r.db.nextId == db.nextId
    ensures r.doc.None? <==> forall i :: 0 <= i < |db.items| ==> db.items[i].id != id
    ensures r.doc.None? ==> r.db == db
    ensures r.doc.Some? ==> r.doc.value.id == id && |r.db.items| + 1 == |db.items|
    ensures forall x :: x in r.db.items <==> x in db.items && x.id != id
  {
    match IndexWhere(db.items, (x: OrderItem) => x.id == id)
    case None => ItemDeleted(db, None)
    case Some(i) =>
      RemoveAtDistinctBy(db.items, i, ItemKey);
      RemoveAtMembers(db.items, i, ItemKey);
      ItemDeleted(db.(items := db.items[..i] + db.items[i + 1..]), Some(db.items[i]))
  }

  /** Result of a bulk deletion: the database and the number of removed documents. */
  datatype BulkDeleted = BulkDeleted(db: Db, deletedCount: nat)

  /** Bulk deletion by order reference: afterwards no item names this text as
      its order, and every other item is still there, as often as before. */
  function DeleteByOrderId(db: Db, orderId: string): (r: BulkDeleted)
    requires Valid(db)
    ensures Valid(r.db) && r.db.orders == db.orders && r.db.nextId == db.nextId
    ensures !HasItemsOf(r.db, orderId)
    ensures forall x: OrderItem :: x.orderId != orderId ==> multiset(r.db.items)[x] == multiset(db.items)[x]
    ensures forall x :: x in r.db.items <==> x in db.items && x.orderId != orderId
    ensures r.deletedCount == |db.items| - |r.db.items|
    ensures r.deletedCount == |Filter(db.items, OfOrder(orderId))|
  {
    var kept := Filter(db.items, NotOfOrder(orderId));
    FilterDistinctBy(db.items, NotOfOrder(orderId), ItemKey);
    FilterMultiset(db.items, NotOfOrder(orderId));
    FilterComplement(db.items, OfOrder(orderId), NotOfOrder(orderId));
    BulkDeleted(db.(items := kept), |Filter(db.items, OfOrder(orderId))|)
  }

  /** When `q` is the negation of `p`, the two filters together count every item once. */
  lemma {:induction false} FilterComplement<T(!new)>(s: seq<T>, p: T -> bool, q: T -> bool)
    requires forall x :: q(x) <==> !p(x)
    ensures |Filter(s, p)| + |Filter(s, q)| == |s|
  {
    if |s| != 0 {
      FilterComplement(s[1..], p, q);
    }
  }

  /** Selects the items carrying this `itemId`. */
  function WithItemId(itemId: string): OrderItem -> bool
  {
    (x: OrderItem) => x.itemId == Some(itemId)
  }

  /** The quantity aggregate: the total quantity of the items carrying this
      `itemId`, 0 when none does. */
  function GetTotalQuantityByItemId(db: Db, itemId: string): (total: real)
    ensures total == SumWhere(db.items, WithItemId(itemId), Quantity)
    ensures (forall i :: 0 <= i < |db.items| ==> db.items[i].itemId != Some(itemId)) ==> total == 0.0
  {
    var matched := Filter(db.items, WithItemId(itemId));
    SumOfFilter(db.items, WithItemId(itemId), Quantity);
    if |matched| > 0 then SumOf(matched, Quantity)
    else
      SumWhereNone(db.items, WithItemId(itemId), Quantity);
      0.0
  }

  /** No item written through the schema carries `itemId`, so the quantity
      aggregate over a database filled only by bulk insertions is always 0. */
  lemma QuantityByItemIdOfInserted(db: Db, drafts: seq<ItemDraft>, now: int, itemId: string)
    requires Valid(db)
    requires forall i :: 0 <= i < |db.items| ==> db.items[i].itemId.None?
    requires CreateMany(db, drafts, now).Success?
    ensures GetTotalQuantityByItemId(CreateMany(db, drafts, now).value.db, itemId) == 0.0
  {
    var r := CreateMany(db, drafts, now).value;
    forall i | 0 <= i < |r.db.items| ensures r.db.items[i].itemId.None? {
      if i >= |db.items| {
        assert r.db.items[i] == r.items[i - |db.items|];
      }
    }
  }

  /** Creation time within the optional inclusive bounds; an omitted bound
      leaves that side open. */
  predicate InWindow(t: int, start: Option<int>, end: Option<int>)
  {
    (start.None? || start.value <= t) && (end.None? || t <= end.value)
  }

  /** Revenue of a restaurant: money taken and units sold. */
  datatype RestaurantRevenue = RestaurantRevenue(totalRevenue: real, totalItems: real)

  /** Selects the items the revenue aggregate counts: this restaurant's items
      created within the bounds. */
  function RevenueMatch(restaurantId: string, start: Option<int>, end: Option<int>): OrderItem -> bool
  {
    (x: OrderItem) => x.restaurantId == restaurantId && InWindow(x.createdAt, start, end)
  }

  /** The revenue aggregate: over the restaurant's items created within the
      bounds, the sum of price times quantity and the sum of quantities; both
      0 when no item matches. */
  function GetRevenueByRestaurant(db: Db, restaurantId: string, start: Option<int>, end: Option<int>): (r: RestaurantRevenue)
    ensures r.totalRevenue == SumWhere(db.items, RevenueMatch(restaurantId, start, end), Takings)
    ensures r.totalItems == SumWhere(db.items, RevenueMatch(restaurantId, start, end), Quantity)
    ensures (forall i :: 0 <= i < |db.items| ==> !RevenueMatch(restaurantId, start, end)(db.items[i])) ==>
      r == RestaurantRevenue(0.0, 0.0)
  {
    var p := RevenueMatch(restaurantId, start, end);
    var matched := Filter(db.items, p);
    SumOfFilter(db.items, p, Takings);
    SumOfFilter(db.items, p, Quantity);
    if |matched| > 0 then
      RestaurantRevenue(SumOf(matched, Takings), SumOf(matched, Quantity))
    else
      SumWhereNone(db.items, p, Takings);
      SumWhereNone(db.items, p, Quantity);
      RestaurantRevenue(0.0, 0.0)
  }

  /** One more item of a restaurant adds its takings and units to that
      restaurant's revenue exactly when it was created within the bounds, both
      bounds included; otherwise the revenue is unchanged. */
  lemma RevenueByRestaurantAdd(db: Db, x: OrderItem, start: Option<int>, end: Option<int>)
    ensures var before := GetRevenueByRestaurant(db, x.restaurantId, start, end);
      var after := GetRevenueByRestaurant(db.(items := db.items + [x]), x.restaurantId, start, end);
      if InWindow(x.createdAt, start, end) then
        after.totalRevenue == before.totalRevenue + x.price * x.quantity
        && after.totalItems == before.totalItems + x.quantity
      else after == before
  {
    var p := RevenueMatch(x.restaurantId, start, end);
    SumWhereAppend(db.items, [x], p, Takings);
    SumWhereAppend(db.items, [x], p, Quantity);
    assert [x][1..] == [];
    assert p(x) <==> InWindow(x.createdAt, start, end);
    assert SumWhere([x], p, Takings) == if p(x) then x.price * x.quantity else 0.0;
    assert SumWhere([x], p, Quantity) == if p(x) then x.quantity else 0.0;
  }
}
