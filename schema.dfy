/** The rows the storefront's API routes read and write, and the store that holds
    them. The relational database is abstracted to in-memory collections:
    products by id (with the order in which they were created), and the
    orders, stock movements and product requests in insertion order. */
module Schema {
  import opened Basics

  /** The authenticated caller, as the session provider reports it. The role is
      kept as the raw string because the routes compare it with different
      spellings ("admin" and "ADMIN"). */
  datatype Session = Session(userId: int, role: string)

  /** The failures a route reports, in place of HTTP status codes:
      401 Unauthorized, 404 NotFound, 400 InsufficientStock, 500 Unexpected. */
  datatype Error = Unauthorized | NotFound | InsufficientStock | Unexpected

  datatype Result<T> = Ok(value: T) | Err(error: Error)

  datatype Product = Product(
    id: int,
    name: string,
    description: string,
    category: string,
    unitPrice: real,
    currentStock: int)

  datatype MovementType = StockAdded | StockRemoved | Purchase

  /** One entry of the append-only stock audit log. */
  datatype Movement = Movement(
    productId: int,
    movementType: MovementType,
    quantity: int,
    userId: int,
    notes: string)

  datatype Order = Order(
    userId: int,
    productId: int,
    quantity: int,
    unitPrice: real,
    totalPrice: real,
    status: string)

  /** The statuses a product request moves through. */
  const PendingStatus := "pending"
  const ApprovedStatus := "approved"
  const RejectedStatus := "rejected"
  const FulfilledStatus := "fulfilled"

  /** A product request joined with the user ids of its supporters. */
  datatype ProductRequest = ProductRequest(
    id: int,
    userId: int,
    productName: string,
    description: string,
    priceRange: Option<string>,
    amountWanted: Option<real>,
    goal: Option<int>,
    adminNotes: Option<string>,
    status: string,
    supporters: seq<int>)

  /** The whole store. `productIds` lists product ids in creation order;
      `nextProductId` and `nextRequestId` are the autoincrement counters. */
  datatype Db = Db(
    products: map<int, Product>,
    productIds: seq<int>,
    nextProductId: int,
    orders: seq<Order>,
    movements: seq<Movement>,
    requests: seq<ProductRequest>,
    nextRequestId: int)

  /** What a writing route returns together with the store it leaves behind. */
  datatype Step<T> = Step(result: Result<T>, db: Db)

  /** The empty store: autoincrement ids start at 1. */
  function EmptyDb(): Db {
    Db(map[], [], 1, [], [], [], 1)
  }

  /** The referential facts the database guarantees: every product is stored
      under its own id, which the autoincrement counter has passed; the creation
      list names each product exactly once; orders and movements reference
      existing products; request ids are below their counter. */
  ghost predicate WellFormed(db: Db) {
    (forall id :: id in db.products ==> db.products[id].id == id && id < db.nextProductId) &&
    (forall i :: 0 <= i < |db.productIds| ==> db.productIds[i] in db.products) &&
    (forall id :: id in db.products ==> id in db.productIds) &&
    (forall i, j :: 0 <= i < j < |db.productIds| ==> db.productIds[i] != db.productIds[j]) &&
    (forall i :: 0 <= i < |db.orders| ==> db.orders[i].productId in db.products) &&
    (forall i :: 0 <= i < |db.movements| ==> db.movements[i].productId in db.products) &&
    (forall i :: 0 <= i < |db.requests| ==> db.requests[i].id < db.nextRequestId)
  }
}
