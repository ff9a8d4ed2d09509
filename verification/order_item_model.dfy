/** The order item document: five required fields plus the `createdAt` and
    `updatedAt` stamps that the schema's `timestamps` option adds. Those stamps
    are set only where the inserted document lacks them, so submitted times
    survive insertion. */
module OrderItemModel {
  import opened Basics

  /** An item as submitted to the store, before validation: any field may be
      missing. The owning order is referred to by its id's text, a plain string
      field. Prices and quantities are plain numbers; the schema puts no bound
      on their sign or integrality. A client may also submit the two timestamp
      paths, here already read as times. */
  datatype ItemDraft = ItemDraft(
    orderId: Option<string>,
    name: Option<string>,
    price: Option<real>,
    quantity: Option<real>,
    restaurantId: Option<string>,
    createdAt: Option<int>,
    updatedAt: Option<int>)

  /** A stored item. `itemId` stands for a field outside the schema: documents
      written through the schema never carry it (unknown fields are dropped). */
  datatype OrderItem = OrderItem(
    id: Id,
    orderId: string,
    name: string,
    price: real,
    quantity: real,
    restaurantId: string,
    createdAt: int,
    updatedAt: int,
    itemId: Option<string>)

  /** The schema's required fields. */
  datatype Field = OrderIdField | NameField | PriceField | QuantityField | RestaurantIdField

  /** A required string is present and non-empty (the required check on a
      string path rejects the empty string). */
  predicate RequiredString(v: Option<string>)
  {
    v.Some? && v.value != ""
  }

  /** The required fields a draft fails, one validation error per field. */
  function MissingFields(d: ItemDraft): (m: set<Field>)
    ensures OrderIdField in m <==> !RequiredString(d.orderId)
    ensures PriceField in m <==> d.price.None?
    ensures QuantityField in m <==> d.quantity.None?
    ensures NameField in m <==> !RequiredString(d.name)
    ensures RestaurantIdField in m <==> !RequiredString(d.restaurantId)
  {
    (if RequiredString(d.orderId) then {} else {OrderIdField})
    + (if RequiredString(d.name) then {} else {NameField})
    + (if d.price.None? then {PriceField} else {})
    + (if d.quantity.None? then {QuantityField} else {})
    + (if RequiredString(d.restaurantId) then {} else {RestaurantIdField})
  }

  /** A draft the schema accepts. */
  predicate IsValid(d: ItemDraft)
  {
    MissingFields(d) == {}
  }

  /** A timestamp path on insertion: a submitted time is kept, a missing one
      becomes the insertion time. */
  function StampOr(submitted: Option<int>, now: int): int
  {
    if submitted.Some? then submitted.value else now
  }

  /** The document a valid draft becomes when bulk-inserted with id `id` at
      time `now`: the timestamps initialised on bulk insertion keep each
      submitted time and fill each missing one with `now`. */
  function Materialize(d: ItemDraft, id: Id, now: int): (item: OrderItem)
    requires IsValid(d)
    ensures item.id == id
    ensures d.createdAt.Some? ==> item.createdAt == d.createdAt.value
    ensures d.createdAt.None? ==> item.createdAt == now
    ensures d.updatedAt.Some? ==> item.updatedAt == d.updatedAt.value
    ensures d.updatedAt.None? ==> item.updatedAt == now
    ensures item.itemId.None? && item.orderId != ""
    ensures Some(item.orderId) == d.orderId && Some(item.name) == d.name
    ensures Some(item.price) == d.price && Some(item.quantity) == d.quantity
    ensures Some(item.restaurantId) == d.restaurantId
  {
    assert PriceField !in MissingFields(d);
    OrderItem(id, d.orderId.value, d.name.value, d.price.value, d.quantity.value,
              d.restaurantId.value, StampOr(d.createdAt, now), StampOr(d.updatedAt, now), None)
  }

  /** Validity is field presence only: any price and any quantity, negative or
      fractional, pass validation once the other fields are present. */
  lemma ValidityIgnoresAmounts(d: ItemDraft, price: real, quantity: real)
    requires IsValid(d)
    ensures IsValid(d.(price := Some(price), quantity := Some(quantity)))
  {
    var e := d.(price := Some(price), quantity := Some(quantity));
    assert MissingFields(e) == MissingFields(d);
  }

  /** A draft is valid exactly when all five required fields are present. */
  lemma ValidIffComplete(d: ItemDraft)
    ensures IsValid(d) <==>
      RequiredString(d.orderId) && RequiredString(d.name) && d.price.Some?
      && d.quantity.Some? && RequiredString(d.restaurantId)
  {
    if !IsValid(d) {
      var f :| f in MissingFields(d);
    }
  }
}
