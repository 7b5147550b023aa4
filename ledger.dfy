/** The stock ledger: the movement log read as signed stock changes, and the
    invariant that the log accounts for every product's current stock as long as
    product creation and order placement are the only writers. */
module Ledger {
  import opened Basics
  import opened Schema
  import Orders
  import Products
  import Requests

  /** A movement's effect on stock: additions count up, removals and purchases down. */
  function Delta(m: Movement): int {
    match m.movementType
    case StockAdded => m.quantity
    case StockRemoved => -m.quantity
    case Purchase => -m.quantity
  }

  /** The signed sum of the movements of one product. */
  function Balance(movements: seq<Movement>, productId: int): int {
    if movements == [] then 0
    else
      var last := movements[|movements| - 1];
      Balance(movements[..|movements| - 1], productId) + (if last.productId == productId then Delta(last) else 0)
  }

  /** Appending one movement changes only its own product's balance, by its delta. */
  lemma BalanceAppend(movements: seq<Movement>, m: Movement, productId: int)
    ensures Balance(movements + [m], productId) ==
            Balance(movements, productId) + (if m.productId == productId then Delta(m) else 0)
  {
    assert (movements + [m])[..|movements|] == movements;
  }

  /** A product that no movement mentions has balance 0. */
  lemma {:induction false} BalanceOfUnmentioned(movements: seq<Movement>, productId: int)
    requires forall i :: 0 <= i < |movements| ==> movements[i].productId != productId
    ensures Balance(movements, productId) == 0
  {
    if movements != [] {
      BalanceOfUnmentioned(movements[..|movements| - 1], productId);
    }
  }

  /** The ledger invariant: the store is well formed and, for every product, the
      stock_added quantities minus the stock_removed and purchase quantities equal
      its current stock. */
  ghost predicate Consistent(db: Db) {
    WellFormed(db) &&
    forall id :: id in db.products ==> Balance(db.movements, id) == db.products[id].currentStock
  }

  lemma EmptyIsConsistent()
    ensures Consistent(EmptyDb())
  {
  }

  /** Placing an order keeps the ledger balanced: the purchase movement it
      appends matches the decrement, whether or not the quantity is positive. */
  lemma PlaceOrderKeepsLedger(db: Db, session: Option<Session>, productId: int, quantity: int, txFails: bool)
    requires Consistent(db)
    ensures Consistent(Orders.PlaceOrder(db, session, productId, quantity, txFails).db)
  {
    var s := Orders.PlaceOrder(db, session, productId, quantity, txFails);
    Orders.PlaceOrderKeepsWellFormed(db, session, productId, quantity, txFails);
    if s.result.Ok? {
      var m := s.db.movements[|db.movements|];
      assert s.db.movements == db.movements + [m];
      forall id | id in s.db.products
        ensures Balance(s.db.movements, id) == s.db.products[id].currentStock
      {
        BalanceAppend(db.movements, m, id);
      }
    }
  }

  /** Creating a product whose movement insert succeeds keeps the ledger
      balanced: the new product's only movement records its initial stock. */
  lemma CreateProductKeepsLedger(db: Db, session: Option<Session>, input: Products.NewProduct,
                                 parsedStock: Option<int>, productInsertFails: bool)
    requires Consistent(db)
    ensures Consistent(Products.CreateProduct(db, session, input, parsedStock, productInsertFails, false).db)
  {
    var s := Products.CreateProduct(db, session, input, parsedStock, productInsertFails, false);
    Products.CreateProductKeepsWellFormed(db, session, input, parsedStock, productInsertFails, false);
    if s.result.Ok? {
      var p := Products.ProductRow(db, input, parsedStock);
      NewProductBalanced(db.movements, db.products, p, s.db.movements[|db.movements|]);
    }
  }

  /** A fresh product whose only movement adds its whole stock leaves every
      balance equal to its product's stock. */
  lemma NewProductBalanced(movements: seq<Movement>, products: map<int, Product>, p: Product, m: Movement)
    requires forall id :: id in products ==> Balance(movements, id) == products[id].currentStock
    requires forall i :: 0 <= i < |movements| ==> movements[i].productId in products
    requires p.id !in products
    requires m.productId == p.id && m.movementType == StockAdded && m.quantity == p.currentStock
    ensures forall id :: id in products[p.id := p] ==>
              Balance(movements + [m], id) == products[p.id := p][id].currentStock
  {
    BalanceOfUnmentioned(movements, p.id);
    forall id | id in products[p.id := p]
      ensures Balance(movements + [m], id) == products[p.id := p][id].currentStock
    {
      BalanceAppend(movements, m, id);
    }
  }

  /** The two writes of product creation are separate: when the movement insert
      fails after the product insert, a product with non-zero initial stock is
      left without the movement that accounts for it. */
  lemma PartialCreateBreaksLedger(db: Db, session: Option<Session>, input: Products.NewProduct, parsedStock: Option<int>)
    requires Consistent(db)
    requires Products.MayCreate(session)
    requires parsedStock.Some? && parsedStock.value != 0
    ensures var s := Products.CreateProduct(db, session, input, parsedStock, false, true);
            s.result == Err(Unexpected) && db.nextProductId in s.db.products &&
            !Consistent(s.db)
  {
    var s := Products.CreateProduct(db, session, input, parsedStock, false, true);
    var newId := db.nextProductId;
    assert newId !in db.products;
    BalanceOfUnmentioned(db.movements, newId);
    assert s.db.products[newId].currentStock == parsedStock.value;
  }

  /** Creating a request touches neither products nor movements. */
  lemma CreateRequestKeepsLedger(db: Db, session: Option<Session>, input: Requests.NewRequest, insertFails: bool)
    requires Consistent(db)
    ensures Consistent(Requests.CreateRequest(db, session, input, insertFails).db)
  {
    Requests.CreateRequestKeepsWellFormed(db, session, input, insertFails);
  }

  /** One call of a writing route, with the outcome of each database write it
      makes. Product creation appears only with its movement insert succeeding. */
  datatype Operation =
    | PlaceOrderOp(session: Option<Session>, productId: int, quantity: int, txFails: bool)
    | CreateProductOp(session: Option<Session>, input: Products.NewProduct, parsedStock: Option<int>,
                      productInsertFails: bool)
    | CreateRequestOp(session: Option<Session>, request: Requests.NewRequest, insertFails: bool)

  function Apply(db: Db, op: Operation): Db {
    match op
    case PlaceOrderOp(session, productId, quantity, txFails) =>
      Orders.PlaceOrder(db, session, productId, quantity, txFails).db
    case CreateProductOp(session, input, parsedStock, productInsertFails) =>
      Products.CreateProduct(db, session, input, parsedStock, productInsertFails, false).db
    case CreateRequestOp(session, request, insertFails) =>
      Requests.CreateRequest(db, session, request, insertFails).db
  }

  /** The store after the operations, applied in order. */
  function Run(db: Db, ops: seq<Operation>): Db
    decreases |ops|
  {
    if ops == [] then db else Run(Apply(db, ops[0]), ops[1..])
  }

  /** Whatever sequence of orders, product creations and request creations runs,
      starting from a consistent store, every product's movements still add up
      to its current stock. */
  lemma {:induction false} LedgerHoldsAlongHistory(db: Db, ops: seq<Operation>)
    requires Consistent(db)
    ensures Consistent(Run(db, ops))
    decreases |ops|
  {
    if ops != [] {
      match ops[0] {
        case PlaceOrderOp(session, productId, quantity, txFails) =>
          PlaceOrderKeepsLedger(db, session, productId, quantity, txFails);
        case CreateProductOp(session, input, parsedStock, productInsertFails) =>
          CreateProductKeepsLedger(db, session, input, parsedStock, productInsertFails);
        case CreateRequestOp(session, request, insertFails) =>
          CreateRequestKeepsLedger(db, session, request, insertFails);
      }
      LedgerHoldsAlongHistory(Apply(db, ops[0]), ops[1..]);
    }
  }

  /** From the empty store, the ledger invariant holds after any history. */
  lemma LedgerHoldsFromEmpty(ops: seq<Operation>)
    ensures Consistent(Run(EmptyDb(), ops))
  {
    EmptyIsConsistent();
    LedgerHoldsAlongHistory(EmptyDb(), ops);
  }
}
