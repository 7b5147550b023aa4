/** The products route: creating a product (POST, admin only) and listing all
    products (GET). */
module Products {
  import opened Basics
  import opened Schema

  /** The role string product creation demands: lower case. */
  const CreatorRole := "admin"

  const InitialStockNotes := "Initial stock"

  /** The fields of the request body that are stored as they come. */
  datatype NewProduct = NewProduct(name: string, description: string, category: string, unitPrice: real)

  predicate MayCreate(session: Option<Session>) {
    session.Some? && session.value.role == CreatorRole
  }

  /** `parseInt(currentStock) || 0`: the parsed integer, with a failed parse
      (None, JavaScript's NaN) and zero both giving 0. */
  function InitialStock(parsed: Option<int>): (n: int)
    ensures parsed.None? ==> n == 0
    ensures parsed.Some? ==> n == parsed.value
  {
    match parsed
    case None => 0
    case Some(v) => if v == 0 then 0 else v
  }

  /** The row the product insert writes. */
  function ProductRow(db: Db, input: NewProduct, parsedStock: Option<int>): Product {
    Product(db.nextProductId, input.name, input.description, input.category, input.unitPrice,
            InitialStock(parsedStock))
  }

  /** POST /api/products. After the role check the route makes two separate
      writes: the product insert and then the `stock_added` movement insert.
      `productInsertFails` and `movementInsertFails` stand for the database
      rejecting either write. A failed movement insert leaves the product in place
      and reports a failure: the two writes are not one transaction. */
  function CreateProduct(db: Db, session: Option<Session>, input: NewProduct, parsedStock: Option<int>,
                         productInsertFails: bool, movementInsertFails: bool): (s: Step<Product>)
    ensures !MayCreate(session) ==> s == Step(Err(Unauthorized), db)
    ensures MayCreate(session) && productInsertFails ==> s == Step(Err(Unexpected), db)
    ensures s.result.Ok? <==> MayCreate(session) && !productInsertFails && !movementInsertFails
    ensures MayCreate(session) && !productInsertFails ==>
              var p := ProductRow(db, input, parsedStock);
              // the new row: a fresh id, the body's fields, the parsed stock or 0
              p.id == db.nextProductId && p.name == input.name && p.description == input.description &&
              p.category == input.category && p.unitPrice == input.unitPrice &&
              p.currentStock == (if parsedStock.Some? then parsedStock.value else 0) &&
              s.db.products == db.products[p.id := p] &&
              s.db.productIds == db.productIds + [p.id] &&
              s.db.nextProductId == db.nextProductId + 1 &&
              // exactly one stock_added movement for the new product, by the actor,
              // for its initial stock, unless that second write fails
              s.db.movements == (if movementInsertFails then db.movements
                                 else db.movements + [Movement(p.id, StockAdded, p.currentStock,
                                                               session.value.userId, InitialStockNotes)]) &&
              s.result == (if movementInsertFails then Err(Unexpected) else Ok(p)) &&
              // nothing else changes
              s.db.orders == db.orders && s.db.requests == db.requests &&
              s.db.nextRequestId == db.nextRequestId
  {
    if !MayCreate(session) then Step(Err(Unauthorized), db)
    else if productInsertFails then Step(Err(Unexpected), db)
    else
      var product := ProductRow(db, input, parsedStock);
      var withProduct := db.(products := db.products[product.id := product],
                             productIds := db.productIds + [product.id],
                             nextProductId := db.nextProductId + 1);
      if movementInsertFails then Step(Err(Unexpected), withProduct)
      else
        var movement := Movement(product.id, StockAdded, InitialStock(parsedStock),
                                 session.value.userId, InitialStockNotes);
        Step(Ok(product), withProduct.(movements := withProduct.movements + [movement]))
  }

  /** Creating a product keeps the store's referential facts, whether or not the
      movement insert goes through. */
  lemma CreateProductKeepsWellFormed(db: Db, session: Option<Session>, input: NewProduct, parsedStock: Option<int>,
                                     productInsertFails: bool, movementInsertFails: bool)
    requires WellFormed(db)
    ensures WellFormed(CreateProduct(db, session, input, parsedStock, productInsertFails, movementInsertFails).db)
  {
    var s := CreateProduct(db, session, input, parsedStock, productInsertFails, movementInsertFails);
    if MayCreate(session) && !productInsertFails {
      var id := db.nextProductId;
      var after := s.db;
      assert id !in db.products;
      assert id !in db.productIds;
      forall i, j | 0 <= i < j < |after.productIds|
        ensures after.productIds[i] != after.productIds[j]
      {
        if j == |db.productIds| {
          assert after.productIds[i] == db.productIds[i];
        }
      }
      forall i | 0 <= i < |after.movements|
        ensures after.movements[i].productId in after.products
      {
        if i < |db.movements| { assert after.movements[i] == db.movements[i]; }
      }
    }
  }

  /** The products named by `ids`, in that order, skipping ids with no product. */
  function ProductsInOrder(ids: seq<int>, products: map<int, Product>): (r: seq<Product>)
    ensures (forall i :: 0 <= i < |ids| ==> ids[i] in products) ==>
              |r| == |ids| && forall i :: 0 <= i < |ids| ==> r[i] == products[ids[i]]
  {
    if ids == [] then []
    else (if ids[0] in products then [products[ids[0]]] else []) + ProductsInOrder(ids[1..], products)
  }

  /** GET /api/products: every product, newest first. */
  function ListProducts(db: Db): seq<Product> {
    NewestFirst(ProductsInOrder(db.productIds, db.products))
  }

  /** The listing holds one entry per product, the most recently created first. */
  lemma ListProductsNewestFirst(db: Db)
    requires WellFormed(db)
    ensures |ListProducts(db)| == |db.productIds|
    ensures forall i :: 0 <= i < |db.productIds| ==>
              ListProducts(db)[i] == db.products[db.productIds[|db.productIds| - 1 - i]]
  {
    NewestProductsFirst(db.productIds, db.products);
  }

  lemma NewestProductsFirst(ids: seq<int>, products: map<int, Product>)
    requires forall i :: 0 <= i < |ids| ==> ids[i] in products
    ensures |NewestFirst(ProductsInOrder(ids, products))| == |ids|
    ensures forall i :: 0 <= i < |ids| ==> NewestFirst(ProductsInOrder(ids, products))[i] == products[ids[|ids| - 1 - i]]
  {
    var inOrder := ProductsInOrder(ids, products);
    assert |inOrder| == |ids|;
    forall i | 0 <= i < |ids|
      ensures NewestFirst(inOrder)[i] == products[ids[|ids| - 1 - i]]
    {
      var k := |ids| - 1 - i;
      assert inOrder[k] == products[ids[k]];
      NewestFirstAt(inOrder, i);
    }
  }
}
