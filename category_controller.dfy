/** The category handlers (backend/controllers/categoryController.js): create
    and rename under a unique-name rule, delete only while no product refers
    to the category, and the per-category statistics. */
module CategoryController {
  import opened Common
  import opened Store
  import opened Sorting
  import opened Listing
  import opened CatalogStats

  /** Some category other than `except` is called `name` (`WHERE name = ? AND category_id != ?`);
      with `except` None, any category counts. */
  predicate NameTaken(categories: map<CategoryId, Category>, name: string, except: Option<CategoryId>) {
    exists c | c in categories && Some(c) != except :: categories[c].name == name
  }

  /** Some product refers to the category (`SELECT product_id FROM products WHERE category_id = ?`). */
  predicate HasProducts(products: map<ProductId, Product>, id: CategoryId) {
    exists p | p in products :: products[p].categoryId == Some(id)
  }

  /** POST /api/categories. `categoryId` is the uuid the handler generates;
      the route validator guarantees a name of at least two characters. */
  method CreateCategory(db: Db, name: string, categoryId: CategoryId) returns (r: Response<Row<CategoryId, Category>>)
    requires db.Valid()
    requires |name| >= 2
    requires categoryId !in db.categories
    modifies db
    ensures db.Valid()
    ensures r.Err? <==> NameTaken(old(db.categories), name, None)
    ensures r.Err? ==> r == Err(BadRequest, CategoryNameExists) && unchanged(db)
    ensures r.Ok? ==>
      && r.value == Row(categoryId, Category(name))
      && db.categories == old(db.categories)[categoryId := Category(name)]
      && db.products == old(db.products) && db.users == old(db.users) && db.staff == old(db.staff)
      && db.sales == old(db.sales) && db.saleItems == old(db.saleItems)
  {
    if exists c | c in db.categories :: db.categories[c].name == name {
      return Err(BadRequest, CategoryNameExists);
    }
    db.categories := db.categories[categoryId := Category(name)];
    r := Ok(Row(categoryId, Category(name)));
  }

  /** PUT /api/categories/:id. Keeping the current name is not a clash. */
  method UpdateCategory(db: Db, id: CategoryId, name: string) returns (r: Response<()>)
    requires db.Valid()
    requires |name| >= 2
    modifies db
    ensures db.Valid()
    ensures r.Err? ==> unchanged(db)
    ensures id !in old(db.categories) ==> r == Err(NotFound, CategoryNotFound)
    ensures id in old(db.categories) && NameTaken(old(db.categories), name, Some(id)) ==>
      r == Err(BadRequest, CategoryNameExists)
    ensures r.Ok? <==> id in old(db.categories) && !NameTaken(old(db.categories), name, Some(id))
    ensures id in old(db.categories) && name == old(db.categories)[id].name ==> r.Ok?
    ensures r.Ok? ==>
      && db.categories == old(db.categories)[id := Category(name)]
      && db.products == old(db.products) && db.users == old(db.users) && db.staff == old(db.staff)
      && db.sales == old(db.sales) && db.saleItems == old(db.saleItems)
  {
    if id !in db.categories {
      return Err(NotFound, CategoryNotFound);
    }
    if exists c | c in db.categories && c != id :: db.categories[c].name == name {
      return Err(BadRequest, CategoryNameExists);
    }
    db.categories := db.categories[id := Category(name)];
    r := Ok(());
  }

  /** DELETE /api/categories/:id. */
  method DeleteCategory(db: Db, id: CategoryId) returns (r: Response<()>)
    requires db.Valid()
    modifies db
    ensures db.Valid()
    ensures r.Err? ==> unchanged(db)
    ensures id !in old(db.categories) ==> r == Err(NotFound, CategoryNotFound)
    ensures id in old(db.categories) && HasProducts(old(db.products), id) ==> r == Err(BadRequest, CategoryHasProducts)
    ensures r.Ok? <==> id in old(db.categories) && !HasProducts(old(db.products), id)
    ensures r.Ok? ==>
      && db.categories == old(db.categories) - {id}
      && db.products == old(db.products) && db.users == old(db.users) && db.staff == old(db.staff)
      && db.sales == old(db.sales) && db.saleItems == old(db.saleItems)
  {
    if id !in db.categories {
      return Err(NotFound, CategoryNotFound);
    }
    if exists p | p in db.products :: db.products[p].categoryId == Some(id) {
      return Err(BadRequest, CategoryHasProducts);
    }
    db.categories := db.categories - {id};
    r := Ok(());
  }

  // ----- GET /api/categories/stats -----

  /** `ORDER BY product_count DESC`. */
  predicate ByCountDesc(a: CategoryStat, b: CategoryStat) {
    a.productCount >= b.productCount
  }

  lemma ByCountDescPreorder()
    ensures TotalPreorder(ByCountDesc)
  {
  }

  /** `s` is the row of the grouped join for one existing category: its name,
      the number of products carrying its id, and the sum of their stock
      (0 when there are none). */
  ghost predicate StatDescribes(products: map<ProductId, Product>, categories: map<CategoryId, Category>, s: CategoryStat) {
    && s.categoryId in categories
    && s.name == categories[s.categoryId].name
    && s.productCount == |KeysWhere(products, InCategory(s.categoryId))|
    && (s.productCount == 0 ==> s.totalStock == 0)
    && exists members :: RowsWhere(members, products, InCategory(s.categoryId)) && s.totalStock == TotalOf(members, StockOf)
  }

  /** The statistics: one row per category, each describing it, by
      descending product count. */
  method GetCategoryStats(db: Db) returns (stats: seq<CategoryStat>)
    ensures |stats| == |db.categories|
    ensures forall i | 0 <= i < |stats| :: StatDescribes(db.products, db.categories, stats[i])
    ensures forall c | c in db.categories :: exists i | 0 <= i < |stats| :: stats[i].categoryId == c
    ensures forall i, j | 0 <= i < j < |stats| :: stats[i].categoryId != stats[j].categoryId
    ensures SortedBy(stats, ByCountDesc)
  {
    var grouped, categories := GroupByCategory(db);
    ByCountDescPreorder();
    stats := Sort(grouped, ByCountDesc);
    ReorderKeepsTable(grouped, stats, categories, db.products, db.categories);
  }

  /** Reordering the grouped rows keeps one row per category, each describing it. */
  lemma ReorderKeepsTable(grouped: seq<CategoryStat>, stats: seq<CategoryStat>,
                          categoryRows: seq<Row<CategoryId, Category>>,
                          products: map<ProductId, Product>, categories: map<CategoryId, Category>)
    requires multiset(stats) == multiset(grouped) && |stats| == |grouped|
    requires NoDuplicates(grouped) ==> NoDuplicates(stats)
    requires RowsOf(categoryRows, categories)
    requires |grouped| == |categoryRows|
    requires forall k | 0 <= k < |grouped| :: grouped[k].categoryId == categoryRows[k].id
    requires forall k | 0 <= k < |grouped| :: StatDescribes(products, categories, grouped[k])
    ensures |stats| == |categories|
    ensures forall i | 0 <= i < |stats| :: StatDescribes(products, categories, stats[i])
    ensures forall c | c in categories :: exists i | 0 <= i < |stats| :: stats[i].categoryId == c
    ensures forall i, j | 0 <= i < j < |stats| :: stats[i].categoryId != stats[j].categoryId
  {
    assert NoDuplicates(grouped);
    ReorderKeepsStats(grouped, stats, products, categories);
    ReorderKeepsCover(grouped, stats, categoryRows, categories);
    ReorderKeepsDistinct(grouped, stats, categoryRows);
    ScanCount(categoryRows, categories);
  }

  /** Reordering keeps every row describing its category. */
  lemma ReorderKeepsStats(grouped: seq<CategoryStat>, stats: seq<CategoryStat>,
                          products: map<ProductId, Product>, categories: map<CategoryId, Category>)
    requires multiset(stats) == multiset(grouped)
    requires forall k | 0 <= k < |grouped| :: StatDescribes(products, categories, grouped[k])
    ensures forall i | 0 <= i < |stats| :: StatDescribes(products, categories, stats[i])
  {
    forall i | 0 <= i < |stats|
      ensures StatDescribes(products, categories, stats[i])
    {
      assert stats[i] in multiset(grouped);
    }
  }

  /** Reordering keeps a row for every category. */
  lemma ReorderKeepsCover(grouped: seq<CategoryStat>, stats: seq<CategoryStat>,
                          categoryRows: seq<Row<CategoryId, Category>>, categories: map<CategoryId, Category>)
    requires multiset(stats) == multiset(grouped)
    requires RowsOf(categoryRows, categories)
    requires |grouped| == |categoryRows|
    requires forall k | 0 <= k < |grouped| :: grouped[k].categoryId == categoryRows[k].id
    ensures forall c | c in categories :: exists i | 0 <= i < |stats| :: stats[i].categoryId == c
  {
    forall c | c in categories
      ensures exists i | 0 <= i < |stats| :: stats[i].categoryId == c
    {
      var k :| 0 <= k < |categoryRows| && categoryRows[k].id == c;
      assert grouped[k] in multiset(stats);
      var i :| 0 <= i < |stats| && stats[i] == grouped[k];
    }
  }

  /** Reordering rows of distinct categories keeps them distinct. */
  lemma ReorderKeepsDistinct(grouped: seq<CategoryStat>, stats: seq<CategoryStat>,
                             categoryRows: seq<Row<CategoryId, Category>>)
    requires multiset(stats) == multiset(grouped) && NoDuplicates(stats)
    requires |grouped| == |categoryRows|
    requires forall k | 0 <= k < |grouped| :: grouped[k].categoryId == categoryRows[k].id
    requires forall a, b | 0 <= a < b < |categoryRows| :: categoryRows[a].id != categoryRows[b].id
    ensures forall i, j | 0 <= i < j < |stats| :: stats[i].categoryId != stats[j].categoryId
  {
    forall i, j | 0 <= i < j < |stats|
      ensures stats[i].categoryId != stats[j].categoryId
    {
      assert stats[i] in multiset(grouped) && stats[j] in multiset(grouped);
      var a :| 0 <= a < |grouped| && grouped[a] == stats[i];
      var b :| 0 <= b < |grouped| && grouped[b] == stats[j];
      if a != b {
        assert categoryRows[a].id != categoryRows[b].id;
      }
    }
  }

  /** The figures computed from a full scan of the products describe the category. */
  lemma StatOfScanDescribes(products: seq<Row<ProductId, Product>>, productTable: map<ProductId, Product>,
                            categories: map<CategoryId, Category>, c: Row<CategoryId, Category>)
    requires RowsOf(products, productTable)
    requires c.id in categories && categories[c.id] == c.value
    ensures StatDescribes(productTable, categories, CategoryStatOf(products, c))
  {
    CategoryStatCounts(products, productTable, c);
  }

  lemma ScanStatsDescribe(products: seq<Row<ProductId, Product>>, categoryRows: seq<Row<CategoryId, Category>>,
                          grouped: seq<CategoryStat>,
                          productTable: map<ProductId, Product>, categories: map<CategoryId, Category>)
    requires RowsOf(products, productTable) && RowsOf(categoryRows, categories)
    requires |grouped| == |categoryRows|
    requires forall m | 0 <= m < |grouped| :: grouped[m] == CategoryStatOf(products, categoryRows[m])
    ensures forall m | 0 <= m < |grouped| :: grouped[m].categoryId == categoryRows[m].id
    ensures forall m | 0 <= m < |grouped| :: StatDescribes(productTable, categories, grouped[m])
  {
    forall m | 0 <= m < |grouped|
      ensures StatDescribes(productTable, categories, grouped[m])
    {
      StatOfScanDescribes(products, productTable, categories, categoryRows[m]);
    }
  }

  /** The grouped join before ordering: one row per category, in the order
      of a scan of the categories table (returned alongside). */
  method GroupByCategory(db: Db) returns (grouped: seq<CategoryStat>, ghost categories: seq<Row<CategoryId, Category>>)
    ensures RowsOf(categories, db.categories)
    ensures |grouped| == |categories|
    ensures forall k | 0 <= k < |grouped| :: grouped[k].categoryId == categories[k].id
    ensures forall k | 0 <= k < |grouped| :: StatDescribes(db.products, db.categories, grouped[k])
  {
    var products := ScanTable(db.products);
    var categoryRows := ScanTable(db.categories);
    categories := categoryRows;
    grouped := seq(|categoryRows|, k requires 0 <= k < |categoryRows| => CategoryStatOf(products, categoryRows[k]));
    ScanStatsDescribe(products, categoryRows, grouped, db.products, db.categories);
  }
}
