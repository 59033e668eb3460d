/** Conditions, orderings and aggregates over the products table, shared by
    the low-stock listing, the inventory overview and alerts, and the
    category statistics. */
module CatalogStats {
  import opened Common
  import opened Store
  import opened Sorting
  import opened Listing

  /** The stock level at or below which a product counts as low (the default
      threshold of the listings, and the fixed one of the overview). */
  const LowStockLevel := 10

  function StockOf(p: Product): int {
    p.stock
  }

  /** `stock <= threshold`. */
  function StockAtMost(threshold: int): Product -> bool {
    (p: Product) => p.stock <= threshold
  }

  /** `stock = 0`. */
  function OutOfStock(): Product -> bool {
    (p: Product) => p.stock == 0
  }

  /** `stock <= threshold AND stock > 0`. */
  function LowButInStock(threshold: int): Product -> bool {
    (p: Product) => 0 < p.stock <= threshold
  }

  /** `category_id = c`. */
  function InCategory(c: CategoryId): Product -> bool {
    (p: Product) => p.categoryId == Some(c)
  }

  /** `ORDER BY stock ASC`. */
  predicate ByStock(a: Row<ProductId, Product>, b: Row<ProductId, Product>) {
    a.value.stock <= b.value.stock
  }

  /** `ORDER BY name ASC`. */
  predicate ByName(a: Row<ProductId, Product>, b: Row<ProductId, Product>) {
    StrLe(a.value.name, b.value.name)
  }

  /** `ORDER BY name ASC` on categories. */
  predicate ByCategoryName(a: Row<CategoryId, Category>, b: Row<CategoryId, Category>) {
    StrLe(a.value.name, b.value.name)
  }

  /** Proof helper: `ORDER BY stock` is a total preorder, so `Sort` applies. */
  lemma ByStockPreorder()
    ensures TotalPreorder(ByStock)
  {
  }

  lemma ByNamePreorder()
    ensures TotalPreorder(ByName)
  {
    forall a, b ensures ByName(a, b) || ByName(b, a) {
      StrLeTotal(a.value.name, b.value.name);
    }
    forall a, b, c | ByName(a, b) && ByName(b, c) ensures ByName(a, c) {
      StrLeTransitive(a.value.name, b.value.name, c.value.name);
    }
  }

  lemma ByCategoryNamePreorder()
    ensures TotalPreorder(ByCategoryName)
  {
    forall a, b ensures ByCategoryName(a, b) || ByCategoryName(b, a) {
      StrLeTotal(a.value.name, b.value.name);
    }
    forall a, b, c | ByCategoryName(a, b) && ByCategoryName(b, c) ensures ByCategoryName(a, c) {
      StrLeTransitive(a.value.name, b.value.name, c.value.name);
    }
  }

  /** The threshold a request uses: the query parameter, or 10 when absent. */
  function Threshold(threshold: Option<int>): (t: int)
    ensures threshold.None? ==> t == LowStockLevel
    ensures threshold.Some? ==> t == threshold.value
  {
    threshold.GetOr(LowStockLevel)
  }

  /** The overview's `stats` (without the floating-point `totalValue`). */
  datatype InventoryStats = InventoryStats(totalProducts: nat, totalStock: int, lowStock: nat, outOfStock: nat)

  function StatsOf(products: seq<Row<ProductId, Product>>): InventoryStats {
    InventoryStats(|products|, TotalOf(products, StockOf),
                   |Where(products, StockAtMost(LowStockLevel))|, |Where(products, OutOfStock())|)
  }

  /** Out-of-stock products are among the low-stock ones, which are among all products. */
  lemma StatsOrdered(products: seq<Row<ProductId, Product>>)
    ensures StatsOf(products).outOfStock <= StatsOf(products).lowStock <= StatsOf(products).totalProducts
  {
    WhereMonotone(products, OutOfStock(), StockAtMost(LowStockLevel));
  }

  /** The counts of the overview depend only on the table, not on the order of the scan. */
  lemma StatsCountTable(products: seq<Row<ProductId, Product>>, table: map<ProductId, Product>)
    requires RowsOf(products, table)
    ensures StatsOf(products).totalProducts == |table|
    ensures StatsOf(products).lowStock == |KeysWhere(table, StockAtMost(LowStockLevel))|
    ensures StatsOf(products).outOfStock == |KeysWhere(table, OutOfStock())|
  {
    ScanCount(products, table);
    CountWhere(products, table, StockAtMost(LowStockLevel));
    CountWhere(products, table, OutOfStock());
  }

  lemma CountWhere(products: seq<Row<ProductId, Product>>, table: map<ProductId, Product>, keep: Product -> bool)
    requires RowsOf(products, table)
    ensures |Where(products, keep)| == |KeysWhere(table, keep)|
  {
    WhereLists(products, table, keep);
    ListingCount(Where(products, keep), table, keep);
  }

  /** One category's figures: the products carrying its id, and their summed stock. */
  datatype CategoryStat = CategoryStat(categoryId: CategoryId, name: string, productCount: nat, totalStock: int)

  function CategoryStatOf(products: seq<Row<ProductId, Product>>, c: Row<CategoryId, Category>): CategoryStat {
    var members := Where(products, InCategory(c.id));
    CategoryStat(c.id, c.value.name, |members|, TotalOf(members, StockOf))
  }

  /** A category's count is the number of products referencing it, and a
      category without products has total stock 0. */
  lemma CategoryStatCounts(products: seq<Row<ProductId, Product>>, table: map<ProductId, Product>,
                           c: Row<CategoryId, Category>)
    requires RowsOf(products, table)
    ensures CategoryStatOf(products, c).productCount == |KeysWhere(table, InCategory(c.id))|
    ensures CategoryStatOf(products, c).productCount == 0 ==> CategoryStatOf(products, c).totalStock == 0
    ensures RowsWhere(Where(products, InCategory(c.id)), table, InCategory(c.id))
  {
    WhereLists(products, table, InCategory(c.id));
    ListingCount(Where(products, InCategory(c.id)), table, InCategory(c.id));
  }
}
