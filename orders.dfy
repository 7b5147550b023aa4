/** The orders route: placing an order (POST) and listing orders (GET). */
module Orders {
  import opened Basics
  import opened Schema

  /** The role string the listing compares against: upper case, unlike the
      "admin" spelling used everywhere else in the application. */
  const ListingAdminRole := "ADMIN"

  const ConfirmedStatus := "confirmed"

  function PurchaseNotes(quantity: int): string {
    "Order purchase - " + IntToString(quantity) + " units"
  }

  /** POST /api/orders. The guards run in order: session, product lookup, stock.
      The quantity is taken as sent: nothing checks that it is positive, so a
      negative quantity passes the stock guard and raises the stock. The
      transaction (order insert, stock decrement, movement insert) is one atomic
      step; `txFails` stands for the database rejecting it, in which case none of
      the three writes happens. */
  function PlaceOrder(db: Db, session: Option<Session>, productId: int, quantity: int, txFails: bool): (s: Step<Order>)
    ensures session.None? ==> s.result == Err(Unauthorized)
    ensures session.Some? && productId !in db.products ==> s.result == Err(NotFound)
    ensures session.Some? && productId in db.products && db.products[productId].currentStock < quantity ==>
              s.result == Err(InsufficientStock)
    ensures s.result.Ok? <==>
              session.Some? && productId in db.products &&
              quantity <= db.products[productId].currentStock && !txFails
    ensures s.result.Err? ==> s.db == db
    ensures s.result.Ok? ==>
              var order := s.result.value;
              var before := db.products[productId];
              // exactly one order, carrying the caller, the product, the quantity and a price snapshot
              order.userId == session.value.userId && order.productId == productId &&
              order.quantity == quantity && order.unitPrice == before.unitPrice &&
              order.totalPrice == before.unitPrice * quantity as real &&
              order.status == ConfirmedStatus &&
              s.db.orders == db.orders + [order] &&
              // exactly one purchase movement for the same product, quantity and user
              s.db.movements == db.movements +
                [Movement(productId, Purchase, quantity, session.value.userId, PurchaseNotes(quantity))] &&
              // the product's stock drops by exactly the quantity; nothing else changes
              s.db.products.Keys == db.products.Keys &&
              s.db.products[productId] == before.(currentStock := before.currentStock - quantity) &&
              (forall id :: id in db.products && id != productId ==> s.db.products[id] == db.products[id]) &&
              s.db.productIds == db.productIds && s.db.nextProductId == db.nextProductId &&
              s.db.requests == db.requests && s.db.nextRequestId == db.nextRequestId
  {
    if session.None? then Step(Err(Unauthorized), db)
    else if productId !in db.products then Step(Err(NotFound), db)
    else
      var product := db.products[productId];
      if product.currentStock < quantity then Step(Err(InsufficientStock), db)
      else if txFails then Step(Err(Unexpected), db)
      else
        var order := OrderRow(productId, product, session.value.userId, quantity);
        Step(Ok(order), Placed(db, order))
  }

  /** The order row: the caller, the product, the quantity, the product's price
      at this moment and the resulting total. */
  function OrderRow(productId: int, product: Product, userId: int, quantity: int): Order {
    Order(userId, productId, quantity, product.unitPrice, product.unitPrice * quantity as real, ConfirmedStatus)
  }

  /** The store after the transaction's three writes for `order`. */
  function Placed(db: Db, order: Order): Db
    requires order.productId in db.products
  {
    var product := db.products[order.productId];
    db.(orders := db.orders + [order],
        products := db.products[order.productId := product.(currentStock := product.currentStock - order.quantity)],
        movements := db.movements + [Movement(order.productId, Purchase, order.quantity, order.userId,
                                              PurchaseNotes(order.quantity))])
  }

  /** An order keeps the store's referential facts: it references an existing
      product and adds no product. */
  lemma PlaceOrderKeepsWellFormed(db: Db, session: Option<Session>, productId: int, quantity: int, txFails: bool)
    requires WellFormed(db)
    ensures WellFormed(PlaceOrder(db, session, productId, quantity, txFails).db)
  {
    var s := PlaceOrder(db, session, productId, quantity, txFails);
    if s.result.Ok? {
      var after := s.db;
      forall i | 0 <= i < |after.orders|
        ensures after.orders[i].productId in after.products
      {
        if i < |db.orders| { assert after.orders[i] == db.orders[i]; }
      }
      forall i | 0 <= i < |after.movements|
        ensures after.movements[i].productId in after.products
      {
        if i < |db.movements| { assert after.movements[i] == db.movements[i]; }
      }
    }
  }

  /** Stock stays non-negative only for a non-negative quantity: the route itself
      never checks the sign. */
  lemma OrderKeepsStockNonNegative(db: Db, session: Option<Session>, productId: int, quantity: int, txFails: bool)
    requires forall id :: id in db.products ==> db.products[id].currentStock >= 0
    requires quantity >= 0
    ensures var after := PlaceOrder(db, session, productId, quantity, txFails).db;
            forall id :: id in after.products ==> after.products[id].currentStock >= 0
  {
  }

  /** Without the sign check, an order for a negative quantity is accepted and
      puts stock back. */
  lemma NegativeQuantityRaisesStock(db: Db, userId: int, role: string, productId: int, quantity: int)
    requires productId in db.products && db.products[productId].currentStock >= 0 && quantity < 0
    ensures var s := PlaceOrder(db, Some(Session(userId, role)), productId, quantity, false);
            s.result.Ok? && s.db.products[productId].currentStock > db.products[productId].currentStock
  {
  }

  /** The orders a non-listing-admin caller may see: its own. */
  function OwnedBy(userId: int): Order -> bool {
    (o: Order) => o.userId == userId
  }

  /** GET /api/orders: no session is Unauthorized; the role exactly "ADMIN" sees
      every order, any other role (including "admin") only its own; newest first. */
  function ListOrders(session: Option<Session>, orders: seq<Order>): (r: Result<seq<Order>>)
    ensures session.None? <==> r == Err(Unauthorized)
    ensures r.Ok? ==>
              forall o :: o in r.value <==>
                o in orders && (session.value.role == ListingAdminRole || o.userId == session.value.userId)
    ensures r.Ok? && session.value.role == ListingAdminRole ==> r.value == NewestFirst(orders)
    ensures r.Ok? && session.value.role != ListingAdminRole ==>
              r.value == NewestFirst(Filter(orders, OwnedBy(session.value.userId)))
  {
    if session.None? then Err(Unauthorized)
    else if session.value.role == ListingAdminRole then
      Ok(NewestFirst(orders))
    else
      var own := OwnedBy(session.value.userId);
      assert forall o :: own(o) <==> o.userId == session.value.userId;
      Ok(NewestFirst(Filter(orders, own)))
  }
}
