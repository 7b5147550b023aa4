/** The store as the routes see it: one object whose tables the writing routes
    update in place. Each method makes the route's writes one after the other and
    is proved to leave exactly the store its specification function describes,
    so the ledger lemmas carry over to it. */
module Database {
  import opened Basics
  import opened Schema
  import Orders
  import Products
  import Requests
  import Ledger

  class Store {
    var products: map<int, Product>
    var productIds: seq<int>
    var nextProductId: int
    var orders: seq<Order>
    var movements: seq<Movement>
    var requests: seq<ProductRequest>
    var nextRequestId: int

    /** The store's tables as one value. */
    function Snapshot(): Db
      reads this
    {
      Db(products, productIds, nextProductId, orders, movements, requests, nextRequestId)
    }

    /** The referential facts the database itself enforces hold of the current
        tables. Every write keeps them, a partial product creation included; the
        ledger balance is not part of it, since the routes never check it. */
    ghost predicate Valid()
      reads this
    {
      WellFormed(Snapshot())
    }

    constructor ()
      ensures Snapshot() == EmptyDb()
      ensures Valid() && Ledger.Consistent(Snapshot())
    {
      products, productIds, nextProductId := map[], [], 1;
      orders, movements := [], [];
      requests, nextRequestId := [], 1;
      Ledger.EmptyIsConsistent();
    }

    /** POST /api/orders: the guards, then the transaction's three writes. */
    method PlaceOrder(session: Option<Session>, productId: int, quantity: int, txFails: bool)
      returns (result: Result<Order>)
      requires Valid()
      modifies this
      ensures Valid()
      ensures old(Ledger.Consistent(Snapshot())) ==> Ledger.Consistent(Snapshot())
      ensures result == Orders.PlaceOrder(old(Snapshot()), session, productId, quantity, txFails).result
      ensures Snapshot() == Orders.PlaceOrder(old(Snapshot()), session, productId, quantity, txFails).db
    {
      ghost var before := Snapshot();
      ghost var spec := Orders.PlaceOrder(before, session, productId, quantity, txFails);
      Orders.PlaceOrderKeepsWellFormed(before, session, productId, quantity, txFails);
      if Ledger.Consistent(before) {
        Ledger.PlaceOrderKeepsLedger(before, session, productId, quantity, txFails);
      }
      if session.None? {
        result := Err(Unauthorized);
        assert spec == Step(result, before);
      } else if productId !in products {
        result := Err(NotFound);
        assert spec == Step(result, before);
      } else if products[productId].currentStock < quantity {
        result := Err(InsufficientStock);
        assert spec == Step(result, before);
      } else if txFails {
        result := Err(Unexpected);
        assert spec == Step(result, before);
      } else {
        var product := products[productId];
        var order := Orders.OrderRow(productId, product, session.value.userId, quantity);
        orders := orders + [order];
        products := products[productId := product.(currentStock := product.currentStock - quantity)];
        movements := movements + [Movement(productId, Purchase, quantity, order.userId, Orders.PurchaseNotes(quantity))];
        result := Ok(order);
        assert spec == Step(result, Orders.Placed(before, order));
        assert Snapshot() == Orders.Placed(before, order);
      }
    }

    /** POST /api/products: the role check, the product insert, then the
        separate movement insert. */
    method CreateProduct(session: Option<Session>, input: Products.NewProduct, parsedStock: Option<int>,
                         productInsertFails: bool, movementInsertFails: bool)
      returns (result: Result<Product>)
      requires Valid()
      modifies this
      ensures Valid()
      ensures old(Ledger.Consistent(Snapshot())) && !movementInsertFails ==> Ledger.Consistent(Snapshot())
      ensures result == Products.CreateProduct(old(Snapshot()), session, input, parsedStock,
                                               productInsertFails, movementInsertFails).result
      ensures Snapshot() == Products.CreateProduct(old(Snapshot()), session, input, parsedStock,
                                                   productInsertFails, movementInsertFails).db
    {
      ghost var before := Snapshot();
      Products.CreateProductKeepsWellFormed(before, session, input, parsedStock, productInsertFails, movementInsertFails);
      if Ledger.Consistent(before) && !movementInsertFails {
        Ledger.CreateProductKeepsLedger(before, session, input, parsedStock, productInsertFails);
      }
      if session.None? || session.value.role != Products.CreatorRole {
        return Err(Unauthorized);
      }
      if productInsertFails {
        return Err(Unexpected);
      }
      var stock := Products.InitialStock(parsedStock);
      var product := Product(nextProductId, input.name, input.description, input.category, input.unitPrice, stock);
      products := products[product.id := product];
      productIds := productIds + [product.id];
      nextProductId := nextProductId + 1;
      if movementInsertFails {
        return Err(Unexpected);
      }
      movements := movements + [Movement(product.id, StockAdded, stock, session.value.userId, Products.InitialStockNotes)];
      result := Ok(product);
    }

    /** POST /api/requests: the session check, then one insert. */
    method CreateRequest(session: Option<Session>, input: Requests.NewRequest, insertFails: bool)
      returns (result: Result<ProductRequest>)
      requires Valid()
      modifies this
      ensures Valid()
      ensures old(Ledger.Consistent(Snapshot())) ==> Ledger.Consistent(Snapshot())
      ensures result == Requests.CreateRequest(old(Snapshot()), session, input, insertFails).result
      ensures Snapshot() == Requests.CreateRequest(old(Snapshot()), session, input, insertFails).db
    {
      ghost var before := Snapshot();
      Requests.CreateRequestKeepsWellFormed(before, session, input, insertFails);
      if Ledger.Consistent(before) {
        Ledger.CreateRequestKeepsLedger(before, session, input, insertFails);
      }
      if session.None? {
        return Err(Unauthorized);
      }
      if insertFails {
        return Err(Unexpected);
      }
      var row := Requests.RequestRow(Snapshot(), session.value.userId, input);
      requests := requests + [row];
      nextRequestId := nextRequestId + 1;
      result := Ok(row);
    }
  }
}
