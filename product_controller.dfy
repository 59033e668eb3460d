/** The catalog handlers (backend/controllers/productController.js): guarded
    create / update / delete of a product, the stock adjustment, and the
    low-stock listing. */
module ProductController {
  import opened Common
  import opened Store
  import opened Stock
  import opened Sorting
  import opened Listing
  import opened CatalogStats

  /** The body of a create; `stock` and `categoryId` may be omitted. */
  datatype NewProduct = NewProduct(name: string, price: nat, stock: Option<nat>, categoryId: Option<CategoryId>)

  /** The body of an update: every field may be omitted. */
  datatype ProductPatch = ProductPatch(name: Option<string>, price: Option<nat>,
                                       stock: Option<nat>, categoryId: Option<CategoryId>)

  /** What a stock adjustment answers. */
  datatype StockChange = StockChange(oldStock: int, newStock: int)

  /** An optional category reference names an existing category. */
  predicate CategoryKnown(categories: map<CategoryId, Category>, categoryId: Option<CategoryId>) {
    categoryId.Some? ==> categoryId.value in categories
  }

  /** `COALESCE(?, column)` on every column: a supplied field replaces the
      stored one, an omitted field keeps it. */
  function Patched(p: Product, patch: ProductPatch): Product {
    Product(patch.name.GetOr(p.name),
            patch.price.GetOr(p.price),
            if patch.stock.Some? then patch.stock.value else p.stock,
            if patch.categoryId.Some? then patch.categoryId else p.categoryId)
  }

  /** An update that supplies nothing leaves the product as it was. */
  lemma EmptyPatchKeepsProduct(p: Product)
    ensures Patched(p, ProductPatch(None, None, None, None)) == p
  {
  }

  /** Repeating an update changes nothing more. */
  lemma PatchIdempotent(p: Product, patch: ProductPatch)
    ensures Patched(Patched(p, patch), patch) == Patched(p, patch)
  {
  }

  /** An update can move a product to another category but never detach it. */
  lemma PatchKeepsCategorySet(p: Product, patch: ProductPatch)
    ensures p.categoryId.Some? ==> Patched(p, patch).categoryId.Some?
  {
  }

  /** Some sale line refers to the product (`SELECT ... FROM sale_items WHERE product_id = ?`). */
  predicate HasSalesHistory(items: seq<SaleItem>, productId: ProductId) {
    exists i | 0 <= i < |items| :: items[i].productId == productId
  }

  /** POST /api/products. `productId` is the uuid the handler generates; the
      route validator guarantees a name of at least two characters. */
  method CreateProduct(db: Db, body: NewProduct, productId: ProductId) returns (r: Response<Product>)
    requires db.Valid()
    requires |body.name| >= 2
    requires productId !in db.products
    modifies db
    ensures db.Valid()
    ensures r.Err? <==> !CategoryKnown(old(db.categories), body.categoryId)
    ensures r.Err? ==> r == Err(BadRequest, CategoryNotFound) && unchanged(db)
    ensures r.Ok? ==>
      && r.value == Product(body.name, body.price, body.stock.GetOr(0), body.categoryId)
      && db.products == old(db.products)[productId := r.value]
      && db.categories == old(db.categories) && db.users == old(db.users) && db.staff == old(db.staff)
      && db.sales == old(db.sales) && db.saleItems == old(db.saleItems)
  {
    if body.categoryId.Some? && body.categoryId.value !in db.categories {
      return Err(BadRequest, CategoryNotFound);
    }
    var product := Product(body.name, body.price, body.stock.GetOr(0), body.categoryId);
    db.products := db.products[productId := product];
    r := Ok(product);
  }

  /** PUT /api/products/:id. */
  method UpdateProduct(db: Db, id: ProductId, patch: ProductPatch) returns (r: Response<()>)
    requires db.Valid()
    requires patch.name.Some? ==> |patch.name.value| >= 2
    modifies db
    ensures db.Valid()
    ensures r.Err? ==> unchanged(db)
    ensures id !in old(db.products) ==> r == Err(NotFound, ProductNotFound(id))
    ensures id in old(db.products) && !CategoryKnown(old(db.categories), patch.categoryId) ==>
      r == Err(BadRequest, CategoryNotFound)
    ensures r.Ok? <==> id in old(db.products) && CategoryKnown(old(db.categories), patch.categoryId)
    ensures r.Ok? ==>
      && db.products == old(db.products)[id := Patched(old(db.products)[id], patch)]
      && db.categories == old(db.categories) && db.users == old(db.users) && db.staff == old(db.staff)
      && db.sales == old(db.sales) && db.saleItems == old(db.saleItems)
  {
    if id !in db.products {
      return Err(NotFound, ProductNotFound(id));
    }
    if patch.categoryId.Some? && patch.categoryId.value !in db.categories {
      return Err(BadRequest, CategoryNotFound);
    }
    db.products := db.products[id := Patched(db.products[id], patch)];
    r := Ok(());
  }

  /** DELETE /api/products/:id. A product with sales history is kept, so
      that every stored sale line still names an existing product. */
  method DeleteProduct(db: Db, id: ProductId) returns (r: Response<()>)
    requires db.Valid()
    modifies db
    ensures db.Valid()
    ensures r.Err? ==> unchanged(db)
    ensures id !in old(db.products) ==> r == Err(NotFound, ProductNotFound(id))
    ensures id in old(db.products) && HasSalesHistory(old(db.saleItems), id) ==> r == Err(BadRequest, ProductHasSales)
    ensures r.Ok? <==> id in old(db.products) && !HasSalesHistory(old(db.saleItems), id)
    ensures r.Ok? ==>
      && db.products == old(db.products) - {id}
      && db.categories == old(db.categories) && db.users == old(db.users) && db.staff == old(db.staff)
      && db.sales == old(db.sales) && db.saleItems == old(db.saleItems)
  {
    if id !in db.products {
      return Err(NotFound, ProductNotFound(id));
    }
    if HasSalesHistory(db.saleItems, id) {
      return Err(BadRequest, ProductHasSales);
    }
    db.products := db.products - {id};
    r := Ok(());
  }

  /** PUT /api/products/:id/stock. The route validator guarantees a
      non-negative integer amount. */
  method UpdateStock(db: Db, id: ProductId, amount: nat, operation: string) returns (r: Response<StockChange>)
    requires db.Valid()
    modifies db
    ensures db.Valid()
    ensures r.Err? ==> unchanged(db)
    ensures id !in old(db.products) ==> r == Err(NotFound, ProductNotFound(id))
    ensures id in old(db.products) && ParseOp(operation).None? ==> r == Err(BadRequest, InvalidOperation)
    ensures r.Ok? <==> id in old(db.products) && ParseOp(operation).Some?
    ensures r.Ok? ==>
      && r.value.oldStock == old(db.products)[id].stock
      && r.value.newStock == NewStock(ParseOp(operation).value, r.value.oldStock, amount)
      && db.products == old(db.products)[id := old(db.products)[id].(stock := r.value.newStock)]
      && db.categories == old(db.categories) && db.users == old(db.users) && db.staff == old(db.staff)
      && db.sales == old(db.sales) && db.saleItems == old(db.saleItems)
  {
    if id !in db.products {
      return Err(NotFound, ProductNotFound(id));
    }
    var current := db.products[id].stock;
    var op := ParseOp(operation);
    if op.None? {
      return Err(BadRequest, InvalidOperation);
    }
    var next := NewStock(op.value, current, amount);
    db.products := db.products[id := db.products[id].(stock := next)];
    r := Ok(StockChange(current, next));
  }

  // ----- GET /api/products/low-stock -----

  /** The low-stock listing: exactly the products at or below the threshold,
      each once, by ascending stock. */
  method GetLowStockProducts(db: Db, threshold: Option<int>) returns (rows: seq<Row<ProductId, Product>>)
    ensures RowsWhere(rows, db.products, StockAtMost(Threshold(threshold)))
    ensures SortedBy(rows, ByStock)
    ensures |rows| == |KeysWhere(db.products, StockAtMost(Threshold(threshold)))|
  {
    var keep := StockAtMost(Threshold(threshold));
    var all := ScanTable(db.products);
    WhereLists(all, db.products, keep);
    ByStockPreorder();
    rows := Sort(Where(all, keep), ByStock);
    SortKeepsListing(Where(all, keep), db.products, keep, ByStock);
    ListingCount(rows, db.products, keep);
  }
}
