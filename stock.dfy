/** Stock arithmetic shared by the product controller, the inventory routes
    and the sale controller: the add / subtract / set adjustment, and runs of
    `UPDATE products SET stock = stock + ? WHERE product_id = ?` statements. */
module Stock {
  import opened Common
  import opened Store

  datatype StockOp = Add | Subtract | Set

  /** The request's `operation` string, when it names one of the three. */
  function ParseOp(s: string): (r: Option<StockOp>)
    ensures r.Some? <==> s == "add" || s == "subtract" || s == "set"
  {
    if s == "add" then Some(Add)
    else if s == "subtract" then Some(Subtract)
    else if s == "set" then Some(Set)
    else None
  }

  function OpName(op: StockOp): (s: string)
    ensures ParseOp(s) == Some(op)
  {
    match op
    case Add => "add"
    case Subtract => "subtract"
    case Set => "set"
  }

  /** The new stock level for `operation` applied to `current` with amount `n`. */
  function NewStock(op: StockOp, current: int, n: int): (r: int)
    ensures op == Subtract ==> r >= 0 && (r > 0 ==> r == current - n)
    ensures op == Subtract && n >= 0 && current >= 0 ==> r <= current
    ensures op == Add && n >= 0 ==> r >= current
  {
    match op
    case Add => current + n
    case Subtract => if current - n > 0 then current - n else 0
    case Set => n
  }

  /** Subtracting what was just added gives the old level back when it was not negative. */
  lemma SubtractUndoesAdd(current: int, n: int)
    requires current >= 0 && n >= 0
    ensures NewStock(Subtract, NewStock(Add, current, n), n) == current
  {
  }

  /** Add raises the stock by exactly the amount, whatever its sign or the old level. */
  lemma AddExact(current: int, n: int)
    ensures NewStock(Add, current, n) - current == n
  {
  }

  /** The floor at zero: subtract yields exactly `current - n` when that is not negative. */
  lemma SubtractExact(current: int, n: int)
    ensures NewStock(Subtract, current, n) == current - n <==> current - n >= 0
  {
  }

  /** Setting forgets the previous level: set after anything is set. */
  lemma SetOverrides(op: StockOp, current: int, n: int, m: int)
    ensures NewStock(Set, NewStock(op, current, n), m) == NewStock(Set, current, m) == m
  {
  }

  // ----- Runs of relative stock updates -----

  /** One `UPDATE products SET stock = stock + amount WHERE product_id = ?`. */
  datatype StockDelta = StockDelta(productId: ProductId, amount: int)

  /** One relative update; a missing product matches no row and nothing changes. */
  function Shift(products: map<ProductId, Product>, d: StockDelta): (r: map<ProductId, Product>)
    ensures r.Keys == products.Keys
  {
    if d.productId in products then
      products[d.productId := products[d.productId].(stock := products[d.productId].stock + d.amount)]
    else products
  }

  /** The sum of the amounts that `ds` applies to product `p`. */
  function NetDelta(ds: seq<StockDelta>, p: ProductId): int {
    if ds == [] then 0
    else NetDelta(ds[..|ds| - 1], p) + (if ds[|ds| - 1].productId == p then ds[|ds| - 1].amount else 0)
  }

  /** The updates of `ds` executed in order. */
  function ShiftAll(products: map<ProductId, Product>, ds: seq<StockDelta>): (r: map<ProductId, Product>)
    ensures r.Keys == products.Keys
  {
    if ds == [] then products
    else Shift(ShiftAll(products, ds[..|ds| - 1]), ds[|ds| - 1])
  }

  /** Whatever the order of the updates, each product's stock moves by its net
      amount, and nothing else about it changes. */
  lemma {:induction false} ShiftAllAt(products: map<ProductId, Product>, ds: seq<StockDelta>, p: ProductId)
    requires p in products
    ensures ShiftAll(products, ds)[p] == products[p].(stock := products[p].stock + NetDelta(ds, p))
  {
    if ds != [] {
      ShiftAllAt(products, ds[..|ds| - 1], p);
    }
  }

  /** Net amounts add up over concatenation. */
  lemma {:induction false} NetDeltaAppend(a: seq<StockDelta>, b: seq<StockDelta>, p: ProductId)
    ensures NetDelta(a + b, p) == NetDelta(a, p) + NetDelta(b, p)
  {
    if b == [] {
      assert a + b == a;
    } else {
      assert (a + b)[..|a + b| - 1] == a + b[..|b| - 1];
      assert (a + b)[|a + b| - 1] == b[|b| - 1];
      NetDeltaAppend(a, b[..|b| - 1], p);
    }
  }

  /** Two runs whose net amounts cancel, product by product, restore every stock level. */
  lemma ShiftAllCancels(products: map<ProductId, Product>, ds: seq<StockDelta>, es: seq<StockDelta>)
    requires forall p | p in products :: NetDelta(es, p) == -NetDelta(ds, p)
    ensures ShiftAll(ShiftAll(products, ds), es) == products
  {
    var mid := ShiftAll(products, ds);
    var back := ShiftAll(mid, es);
    assert back.Keys == products.Keys;
    forall p | p in products
      ensures back[p] == products[p]
    {
      ShiftAllAt(products, ds, p);
      ShiftAllAt(mid, es, p);
    }
  }

  /** Stock updates change no key and no category reference. */
  lemma ShiftAllKeepsReferences(products: map<ProductId, Product>, ds: seq<StockDelta>,
                                categories: map<CategoryId, Category>, items: seq<SaleItem>)
    ensures ProductCategoriesExist(products, categories) ==> ProductCategoriesExist(ShiftAll(products, ds), categories)
    ensures ItemsReferToProducts(items, products) ==> ItemsReferToProducts(items, ShiftAll(products, ds))
  {
    var r := ShiftAll(products, ds);
    forall p | p in r
      ensures r[p].categoryId == products[p].categoryId
    {
      ShiftAllAt(products, ds, p);
    }
  }
}
