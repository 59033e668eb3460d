/** The inventory routes (backend/routes/inventory.js): the sequential bulk
    stock update, the overview statistics and the stock alerts. */
module Inventory {
  import opened Common
  import opened Store
  import opened Stock
  import opened Sorting
  import opened Listing
  import opened CatalogStats
  import ProductController

  // ----- PUT /api/inventory/bulk-update -----

  /** One element of the `updates` array; each field may be missing. */
  datatype BulkEntry = BulkEntry(productId: Option<ProductId>, stock: Option<int>, operation: Option<string>)

  /** One element of the reported `results`. */
  datatype BulkResult = BulkResult(productId: ProductId, oldStock: int, newStock: int, operation: string)

  datatype BulkReport = BulkReport(updated: nat, results: seq<BulkResult>)

  /** The entry's operation as reported: `set` when it is missing. */
  function OperationName(e: BulkEntry): string {
    e.operation.GetOr("set")
  }

  /** The operation applied: an unrecognised name falls through to `set` like a missing one. */
  function EntryOp(e: BulkEntry): (op: StockOp)
    ensures op == Add <==> OperationName(e) == "add"
    ensures op == Subtract <==> OperationName(e) == "subtract"
    ensures op == Set <==> OperationName(e) != "add" && OperationName(e) != "subtract"
  {
    ParseOp(OperationName(e)).GetOr(Set)
  }

  /** The entry is applied: it has a non-empty product id and a stock value,
      and the product exists. Only the table's keys matter. */
  predicate Applies(known: set<ProductId>, e: BulkEntry) {
    e.productId.Some? && e.productId.value != "" && e.stock.Some? && e.productId.value in known
  }

  /** The products table and the results reported so far. */
  datatype BulkState = BulkState(products: map<ProductId, Product>, results: seq<BulkResult>)

  /** One iteration of the loop: read the current stock, overwrite it, report both. */
  function Step(s: BulkState, e: BulkEntry): (r: BulkState)
    ensures r.products.Keys == s.products.Keys
  {
    if Applies(s.products.Keys, e) then
      var id := e.productId.value;
      var current := s.products[id].stock;
      var next := NewStock(EntryOp(e), current, e.stock.value);
      BulkState(s.products[id := s.products[id].(stock := next)],
                s.results + [BulkResult(id, current, next, OperationName(e))])
    else s
  }

  /** The loop over `entries`, in order. */
  function Run(s: BulkState, entries: seq<BulkEntry>): (r: BulkState)
    ensures r.products.Keys == s.products.Keys
  {
    if entries == [] then s else Step(Run(s, entries[..|entries| - 1]), entries[|entries| - 1])
  }

  /** The entries that the loop applies. */
  function Applying(known: set<ProductId>, entries: seq<BulkEntry>): (r: seq<BulkEntry>)
    ensures |r| <= |entries|
    ensures forall e | e in r :: e in entries && Applies(known, e)
    ensures forall e | e in entries && Applies(known, e) :: e in r
  {
    if entries == [] then []
    else
      var last := entries[|entries| - 1];
      var front := entries[..|entries| - 1];
      assert entries == front + [last];
      Applying(known, front) + (if Applies(known, last) then [last] else [])
  }

  /** Running two batches one after the other is running their concatenation. */
  lemma {:induction false} RunAppend(s: BulkState, a: seq<BulkEntry>, b: seq<BulkEntry>)
    ensures Run(s, a + b) == Run(Run(s, a), b)
  {
    if b == [] {
      assert a + b == a;
    } else {
      assert (a + b)[..|a + b| - 1] == a + b[..|b| - 1];
      assert (a + b)[|a + b| - 1] == b[|b| - 1];
      RunAppend(s, a, b[..|b| - 1]);
    }
  }

  /** The loop adds no product, removes none, and touches nothing but stock. */
  lemma {:induction false} RunKeepsShape(s: BulkState, entries: seq<BulkEntry>)
    ensures forall p | p in s.products :: Run(s, entries).products[p] == s.products[p].(stock := Run(s, entries).products[p].stock)
  {
    if entries != [] {
      RunKeepsShape(s, entries[..|entries| - 1]);
    }
  }

  /** One result per applied entry, appended after those already reported. */
  lemma {:induction false} RunCount(s: BulkState, entries: seq<BulkEntry>)
    ensures |Run(s, entries).results| == |s.results| + |Applying(s.products.Keys, entries)|
    ensures Run(s, entries).results[..|s.results|] == s.results
  {
    if entries != [] {
      var front := entries[..|entries| - 1];
      RunCount(s, front);
      RunKeepsShape(s, front);
    }
  }

  /** The k-th new result reports the k-th applied entry: its product, its
      operation as named in the request, and a new stock that is that
      operation applied to the reported old stock and the entry's amount. */
  lemma {:induction false} RunResultsMatch(s: BulkState, entries: seq<BulkEntry>)
    ensures var rs := Run(s, entries).results;
      var ap := Applying(s.products.Keys, entries);
      && |rs| == |s.results| + |ap|
      && forall k | 0 <= k < |ap| ::
        && Applies(s.products.Keys, ap[k])
        && rs[|s.results| + k].productId == ap[k].productId.value
        && rs[|s.results| + k].operation == OperationName(ap[k])
        && rs[|s.results| + k].newStock == NewStock(EntryOp(ap[k]), rs[|s.results| + k].oldStock, ap[k].stock.value)
  {
    RunCount(s, entries);
    var ap := Applying(s.products.Keys, entries);
    assert forall k | 0 <= k < |ap| :: ap[k] in ap;
    if entries != [] {
      var front := entries[..|entries| - 1];
      RunResultsMatch(s, front);
      RunCount(s, front);
    }
  }

  /** A product that no entry names keeps its stock. */
  lemma {:induction false} RunUntouched(s: BulkState, entries: seq<BulkEntry>, p: ProductId)
    requires p in s.products
    requires forall i | 0 <= i < |entries| :: entries[i].productId != Some(p)
    ensures Run(s, entries).products[p] == s.products[p]
  {
    if entries != [] {
      RunUntouched(s, entries[..|entries| - 1], p);
    }
  }

  /** The results as a log: each writes its new stock over its product. */
  function Replay(products: map<ProductId, Product>, results: seq<BulkResult>): (r: map<ProductId, Product>)
    ensures r.Keys == products.Keys
  {
    if results == [] then products
    else
      var before := Replay(products, results[..|results| - 1]);
      var last := results[|results| - 1];
      if last.productId in before then before[last.productId := before[last.productId].(stock := last.newStock)]
      else before
  }

  /** Each result's old stock is the stock its product had after the
      results before it were replayed. */
  ghost predicate OldStocksLogged(products: map<ProductId, Product>, rs: seq<BulkResult>) {
    forall j | 0 <= j < |rs| ::
      rs[j].productId in products && Replay(products, rs[..j])[rs[j].productId].stock == rs[j].oldStock
  }

  /** The report is a faithful log of the loop: replaying the results in order
      rebuilds the final table, and each result's old stock is the stock its
      product had after the results before it (so a later entry for the same
      product starts from the value an earlier one wrote). */
  lemma {:induction false} RunLogsChanges(s: BulkState, entries: seq<BulkEntry>)
    requires s.results == []
    ensures Run(s, entries).products == Replay(s.products, Run(s, entries).results)
    ensures OldStocksLogged(s.products, Run(s, entries).results)
  {
    RunReplays(s, entries);
    if entries != [] {
      var front := entries[..|entries| - 1];
      var e := entries[|entries| - 1];
      RunLogsChanges(s, front);
      var mid := Run(s, front);
      if Applies(mid.products.Keys, e) {
        var rs := Run(s, entries).results;
        assert rs == mid.results + [rs[|rs| - 1]];
        LogExtends(s.products, mid.results, rs[|rs| - 1]);
      }
    }
  }

  /** Proof helper: replaying the results rebuilds the table the loop leaves. */
  lemma {:induction false} RunReplays(s: BulkState, entries: seq<BulkEntry>)
    requires s.results == []
    ensures Run(s, entries).products == Replay(s.products, Run(s, entries).results)
  {
    if entries != [] {
      var front := entries[..|entries| - 1];
      RunReplays(s, front);
      var mid := Run(s, front);
      if Applies(mid.products.Keys, entries[|entries| - 1]) {
        var rs := Run(s, entries).results;
        assert rs[..|rs| - 1] == mid.results;
      }
    }
  }

  /** Proof helper: a log stays faithful when the next result starts from
      the stock the log so far leaves. */
  lemma LogExtends(products: map<ProductId, Product>, log: seq<BulkResult>, last: BulkResult)
    requires OldStocksLogged(products, log)
    requires last.productId in products && Replay(products, log)[last.productId].stock == last.oldStock
    ensures OldStocksLogged(products, log + [last])
  {
    var rs := log + [last];
    forall j | 0 <= j < |rs|
      ensures rs[j].productId in products && Replay(products, rs[..j])[rs[j].productId].stock == rs[j].oldStock
    {
      if j < |log| {
        assert rs[..j] == log[..j];
      } else {
        assert rs[..j] == log;
      }
    }
  }

  /** An example on one concrete input (RunLogsChanges states the general
      fact): two `add` entries for the same product accumulate, the second
      starting from the value the first wrote. */
  lemma EntriesForOneProductAccumulate()
    ensures var r := Run(BulkState(map["milk" := Product("Milk", 250, 5, None)], []),
                         [BulkEntry(Some("milk"), Some(3), Some("add")), BulkEntry(Some("milk"), Some(4), Some("add"))]);
      && r.products["milk"].stock == 12
      && r.results == [BulkResult("milk", 5, 8, "add"), BulkResult("milk", 8, 12, "add")]
  {
    var entries := [BulkEntry(Some("milk"), Some(3), Some("add")), BulkEntry(Some("milk"), Some(4), Some("add"))];
    assert entries[..1] == [entries[0]];
    assert entries[..0] == [];
  }

  /** PUT /api/inventory/bulk-update. `updates` is None when the body's
      `updates` is not an array. */
  method BulkUpdate(db: Db, updates: Option<seq<BulkEntry>>) returns (r: Response<BulkReport>)
    requires db.Valid()
    modifies db
    ensures db.Valid()
    ensures r.Err? <==> updates.None? || updates.value == []
    ensures r.Err? ==> r == Err(BadRequest, UpdatesRequired) && unchanged(db)
    ensures r.Ok? ==>
      var after := Run(BulkState(old(db.products), []), updates.value);
      && db.products == after.products
      && r.value == BulkReport(|after.results|, after.results)
      && r.value.updated == |Applying(old(db.products).Keys, updates.value)|
      && db.categories == old(db.categories) && db.users == old(db.users) && db.staff == old(db.staff)
      && db.sales == old(db.sales) && db.saleItems == old(db.saleItems)
  {
    if updates.None? || updates.value == [] {
      return Err(BadRequest, UpdatesRequired);
    }
    ghost var before := db.products;
    var results := ApplyEntries(db, updates.value);
    RunKeepsShape(BulkState(before, []), updates.value);
    RunCount(BulkState(before, []), updates.value);
    r := Ok(BulkReport(|results|, results));
  }

  /** The loop itself: each entry reads the stock its predecessors left. */
  method ApplyEntries(db: Db, entries: seq<BulkEntry>) returns (results: seq<BulkResult>)
    modifies db
    ensures BulkState(db.products, results) == Run(BulkState(old(db.products), []), entries)
    ensures db.categories == old(db.categories) && db.users == old(db.users) && db.staff == old(db.staff)
    ensures db.sales == old(db.sales) && db.saleItems == old(db.saleItems)
  {
    ghost var start := BulkState(db.products, []);
    results := [];
    for i := 0 to |entries|
      invariant BulkState(db.products, results) == Run(start, entries[..i])
      invariant db.categories == old(db.categories) && db.users == old(db.users) && db.staff == old(db.staff)
      invariant db.sales == old(db.sales) && db.saleItems == old(db.saleItems)
    {
      var e := entries[i];
      assert entries[..i + 1][..i] == entries[..i];
      if e.productId.Some? && e.productId.value != "" && e.stock.Some? && e.productId.value in db.products {
        var id := e.productId.value;
        var current := db.products[id].stock;
        var operation := e.operation.GetOr("set");
        var next;
        if operation == "add" {
          next := current + e.stock.value;
        } else if operation == "subtract" {
          next := if current - e.stock.value > 0 then current - e.stock.value else 0;
        } else {
          next := e.stock.value;
        }
        assert next == NewStock(EntryOp(e), current, e.stock.value);
        db.products := db.products[id := db.products[id].(stock := next)];
        results := results + [BulkResult(id, current, next, operation)];
      }
    }
    assert entries[..|entries|] == entries;
  }

  // ----- GET /api/inventory/overview -----

  /** The overview: every product by name, every category by name, the
      products at or below 10 by stock, the statistics, and one figure per
      category in the order of the category list. */
  method Overview(db: Db)
    returns (products: seq<Row<ProductId, Product>>, categories: seq<Row<CategoryId, Category>>,
             lowStockProducts: seq<Row<ProductId, Product>>, stats: InventoryStats, categoryStats: seq<CategoryStat>)
    ensures RowsOf(products, db.products) && SortedBy(products, ByName)
    ensures RowsOf(categories, db.categories) && SortedBy(categories, ByCategoryName)
    ensures RowsWhere(lowStockProducts, db.products, StockAtMost(LowStockLevel)) && SortedBy(lowStockProducts, ByStock)
    ensures stats.totalProducts == |db.products|
    ensures stats.totalStock == TotalOf(products, StockOf)
    ensures stats.lowStock == |KeysWhere(db.products, StockAtMost(LowStockLevel))| == |lowStockProducts|
    ensures stats.outOfStock == |KeysWhere(db.products, OutOfStock())|
    ensures stats.outOfStock <= stats.lowStock <= stats.totalProducts
    ensures |categoryStats| == |categories|
    ensures forall i | 0 <= i < |categories| ::
      && categoryStats[i].categoryId == categories[i].id
      && categoryStats[i].name == categories[i].value.name
      && categoryStats[i].productCount == |KeysWhere(db.products, InCategory(categories[i].id))|
      && categoryStats[i].totalStock == TotalOf(Where(products, InCategory(categories[i].id)), StockOf)
  {
    products := ProductsByName(db);
    categories := CategoriesByName(db);
    lowStockProducts := ProductController.GetLowStockProducts(db, None);

    stats := StatsOf(products);
    StatsOrdered(products);
    StatsCountTable(products, db.products);

    categoryStats := seq(|categories|, i requires 0 <= i < |categories| => CategoryStatOf(products, categories[i]));
    CategoryFigures(products, db.products, categories, categoryStats);
  }

  /** The overview's product query: every product, `ORDER BY p.name`. */
  method ProductsByName(db: Db) returns (products: seq<Row<ProductId, Product>>)
    ensures RowsOf(products, db.products) && SortedBy(products, ByName)
  {
    var scanned := ScanTable(db.products);
    ByNamePreorder();
    products := Sort(scanned, ByName);
    SortKeepsRows(scanned, db.products, ByName);
  }

  /** The overview's category query: every category, `ORDER BY name`. */
  method CategoriesByName(db: Db) returns (categories: seq<Row<CategoryId, Category>>)
    ensures RowsOf(categories, db.categories) && SortedBy(categories, ByCategoryName)
  {
    var scanned := ScanTable(db.categories);
    ByCategoryNamePreorder();
    categories := Sort(scanned, ByCategoryName);
    SortKeepsRows(scanned, db.categories, ByCategoryName);
  }

  /** Proof helper: the per-category figures of the overview, one per
      category row, count that category's products and sum their stock. */
  lemma CategoryFigures(products: seq<Row<ProductId, Product>>, table: map<ProductId, Product>,
                        categories: seq<Row<CategoryId, Category>>, categoryStats: seq<CategoryStat>)
    requires RowsOf(products, table)
    requires |categoryStats| == |categories|
    requires forall k | 0 <= k < |categories| :: categoryStats[k] == CategoryStatOf(products, categories[k])
    ensures forall i | 0 <= i < |categories| ::
      && categoryStats[i].categoryId == categories[i].id
      && categoryStats[i].name == categories[i].value.name
      && categoryStats[i].productCount == |KeysWhere(table, InCategory(categories[i].id))|
      && categoryStats[i].totalStock == TotalOf(Where(products, InCategory(categories[i].id)), StockOf)
  {
    forall i | 0 <= i < |categories|
      ensures categoryStats[i].productCount == |KeysWhere(table, InCategory(categories[i].id))|
    {
      CategoryStatCounts(products, table, categories[i]);
    }
  }

  // ----- GET /api/inventory/alerts -----

  /** The alerts: products in stock but at or below the threshold, by stock,
      and products with no stock, by name. No product is in both lists. */
  method Alerts(db: Db, threshold: Option<int>)
    returns (lowStock: seq<Row<ProductId, Product>>, outOfStock: seq<Row<ProductId, Product>>,
             lowStockCount: nat, outOfStockCount: nat)
    ensures RowsWhere(lowStock, db.products, LowButInStock(Threshold(threshold))) && SortedBy(lowStock, ByStock)
    ensures RowsWhere(outOfStock, db.products, OutOfStock()) && SortedBy(outOfStock, ByName)
    ensures lowStockCount == |lowStock| == |KeysWhere(db.products, LowButInStock(Threshold(threshold)))|
    ensures outOfStockCount == |outOfStock| == |KeysWhere(db.products, OutOfStock())|
    ensures forall i, j | 0 <= i < |lowStock| && 0 <= j < |outOfStock| :: lowStock[i].id != outOfStock[j].id
  {
    var all := ScanTable(db.products);
    var low := LowButInStock(Threshold(threshold));
    WhereLists(all, db.products, low);
    ByStockPreorder();
    lowStock := Sort(Where(all, low), ByStock);
    SortKeepsListing(Where(all, low), db.products, low, ByStock);
    ListingCount(lowStock, db.products, low);

    WhereLists(all, db.products, OutOfStock());
    ByNamePreorder();
    outOfStock := Sort(Where(all, OutOfStock()), ByName);
    SortKeepsListing(Where(all, OutOfStock()), db.products, OutOfStock(), ByName);
    ListingCount(outOfStock, db.products, OutOfStock());

    lowStockCount, outOfStockCount := |lowStock|, |outOfStock|;
  }
}
