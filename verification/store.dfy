/** The database both stores share: the orders collection, the order items
    collection, and the id generator. */
module Store {
  import opened Basics
  import opened Seqs
  import opened OrderModel
  import opened OrderItemModel

  datatype Db = Db(orders: seq<Order>, items: seq<OrderItem>, nextId: Id)

  function OrderKey(o: Order): Id { o.id }

  function ItemKey(x: OrderItem): Id { x.id }

  /** Ids are unique within each collection and every id in use was issued. */
  predicate Valid(db: Db)
  {
    && DistinctBy(db.orders, OrderKey)
    && DistinctBy(db.items, ItemKey)
    && (forall i :: 0 <= i < |db.orders| ==> db.orders[i].id < db.nextId)
    && (forall i :: 0 <= i < |db.items| ==> db.items[i].id < db.nextId)
  }

  /** Whether an order with this id is stored. */
  predicate HasOrder(db: Db, id: Id)
  {
    exists i :: 0 <= i < |db.orders| && db.orders[i].id == id
  }

  /** Whether some item names this text as its order. */
  predicate HasItemsOf(db: Db, orderId: string)
  {
    exists i :: 0 <= i < |db.items| && db.items[i].orderId == orderId
  }
}
