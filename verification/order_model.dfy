/** The order document as the order store reads and writes it: owner, amount,
    delivery address, the payment and cancellation flags, a status, the
    creation date and the ids of its items. */
module OrderModel {
  import opened Basics

  /** The structured delivery address. */
  datatype Address = Address(line1: string, city: string, state: string, postalCode: string, country: string)

  /** The status field. It normally holds a label; the admin cancel handler
      writes an object into it whose cancelled key is true, kept here as
      such. */
  datatype Status = Label(text: string) | StatusObject(cancelled: bool)

  /** Status of a freshly created order. */
  const InProcess := Label("In Process")

  datatype Order = Order(
    id: Id,
    userId: string,
    amount: real,
    address: Address,
    payment: bool,
    cancelled: bool,
    status: Status,
    date: int,
    items: seq<Id>)

  /** An update document: the fields it names are set, the others left alone. */
  datatype OrderPatch = OrderPatch(
    payment: Option<bool>,
    cancelled: Option<bool>,
    status: Option<Status>,
    items: Option<seq<Id>>)

  const EmptyPatch := OrderPatch(None, None, None, None)

  /** The order after an update: named fields take the patch's value, every
      other field keeps its value. */
  function ApplyPatch(o: Order, p: OrderPatch): (r: Order)
    ensures r.id == o.id && r.userId == o.userId && r.amount == o.amount
    ensures r.address == o.address && r.date == o.date
    ensures r.payment == (if p.payment.Some? then p.payment.value else o.payment)
    ensures r.cancelled == (if p.cancelled.Some? then p.cancelled.value else o.cancelled)
    ensures r.status == (if p.status.Some? then p.status.value else o.status)
    ensures r.items == (if p.items.Some? then p.items.value else o.items)
    ensures p == EmptyPatch ==> r == o
  {
    o.(payment := if p.payment.Some? then p.payment.value else o.payment,
       cancelled := if p.cancelled.Some? then p.cancelled.value else o.cancelled,
       status := if p.status.Some? then p.status.value else o.status,
       items := if p.items.Some? then p.items.value else o.items)
  }
}
