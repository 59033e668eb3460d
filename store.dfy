/** The relational store the controllers query: one table per entity, held by
    a single `Db` object that the handlers update in place, and the
    consistency rules the handlers' guards are there to keep. */
module Store {
  import opened Common

  /** Prices and totals are integer cents. `stock` is an `int`: the checkout
      can drive it below zero (see `SaleController.OversellWhenProductRepeats`). */
  datatype Product = Product(name: string, price: nat, stock: int, categoryId: Option<CategoryId>)

  datatype Category = Category(name: string)

  /** A customer. */
  datatype User = User(name: string, email: Option<string>, phone: Option<string>, address: Option<string>)

  datatype Role = Admin | Manager | Cashier

  datatype StaffMember = StaffMember(name: string, email: string, passwordHash: string, role: Role)

  /** A sale header; `userId` is None for a walk-in sale. */
  datatype Sale = Sale(userId: Option<UserId>, total: int)

  /** One line of a sale, with the unit price captured at checkout. */
  datatype SaleItem = SaleItem(id: SaleItemId, saleId: SaleId, productId: ProductId,
                               quantity: int, price: nat, subtotal: int)

  /** A row returned by a `SELECT`: the key and the stored record. */
  datatype Row<K, V> = Row(id: K, value: V)

  // ----- Consistency rules -----

  predicate CategoryNamesDistinct(categories: map<CategoryId, Category>) {
    forall a, b | a in categories && b in categories && categories[a].name == categories[b].name :: a == b
  }

  predicate UserEmailsDistinct(users: map<UserId, User>) {
    forall a, b | a in users && b in users && users[a].email.Some? && users[a].email == users[b].email :: a == b
  }

  predicate StaffEmailsDistinct(staff: map<StaffId, StaffMember>) {
    forall a, b | a in staff && b in staff && staff[a].email == staff[b].email :: a == b
  }

  predicate ProductCategoriesExist(products: map<ProductId, Product>, categories: map<CategoryId, Category>) {
    forall p | p in products && products[p].categoryId.Some? :: products[p].categoryId.value in categories
  }

  predicate ItemsReferToSales(items: seq<SaleItem>, sales: map<SaleId, Sale>) {
    forall i | 0 <= i < |items| :: items[i].saleId in sales
  }

  predicate ItemsReferToProducts(items: seq<SaleItem>, products: map<ProductId, Product>) {
    forall i | 0 <= i < |items| :: items[i].productId in products
  }

  /** Every stored line has a positive quantity and subtotal = quantity * price. */
  predicate ItemsPriced(items: seq<SaleItem>) {
    forall i | 0 <= i < |items| :: items[i].quantity >= 1 && items[i].subtotal == items[i].quantity * items[i].price
  }

  /** Every sale's total is the sum of its lines' subtotals. */
  predicate SalesBalanced(sales: map<SaleId, Sale>, items: seq<SaleItem>) {
    forall s | s in sales :: sales[s].total == SubtotalSum(ItemsOf(items, s))
  }

  // ----- Queries on the sale_items table -----

  /** `SELECT ... FROM sale_items WHERE sale_id = ?`, in table order. */
  function ItemsOf(items: seq<SaleItem>, saleId: SaleId): (r: seq<SaleItem>)
  {
    if items == [] then []
    else
      var last := items[|items| - 1];
      var front := items[..|items| - 1];
      ItemsOf(front, saleId) + (if last.saleId == saleId then [last] else [])
  }

  /** What `DELETE FROM sale_items WHERE sale_id = ?` leaves, in table order. */
  function ItemsNotOf(items: seq<SaleItem>, saleId: SaleId): (r: seq<SaleItem>)
  {
    if items == [] then []
    else
      var last := items[|items| - 1];
      var front := items[..|items| - 1];
      ItemsNotOf(front, saleId) + (if last.saleId != saleId then [last] else [])
  }

  /** The select lists exactly the stored lines of `saleId`. */
  lemma {:induction false} ItemsOfMembers(items: seq<SaleItem>, saleId: SaleId)
    ensures forall x | x in ItemsOf(items, saleId) :: x in items && x.saleId == saleId
    ensures forall x | x in items && x.saleId == saleId :: x in ItemsOf(items, saleId)
  {
    if items != [] {
      var n := |items| - 1;
      ItemsOfMembers(items[..n], saleId);
      assert items == items[..n] + [items[n]];
    }
  }

  /** The delete leaves exactly the stored lines of other sales. */
  lemma {:induction false} ItemsNotOfMembers(items: seq<SaleItem>, saleId: SaleId)
    ensures forall x | x in ItemsNotOf(items, saleId) :: x in items && x.saleId != saleId
    ensures forall x | x in items && x.saleId != saleId :: x in ItemsNotOf(items, saleId)
  {
    if items != [] {
      var n := |items| - 1;
      ItemsNotOfMembers(items[..n], saleId);
      assert items == items[..n] + [items[n]];
    }
  }

  function SubtotalSum(items: seq<SaleItem>): int {
    if items == [] then 0 else SubtotalSum(items[..|items| - 1]) + items[|items| - 1].subtotal
  }

  lemma {:induction false} ItemsOfAppend(a: seq<SaleItem>, b: seq<SaleItem>, saleId: SaleId)
    ensures ItemsOf(a + b, saleId) == ItemsOf(a, saleId) + ItemsOf(b, saleId)
  {
    if b == [] {
      assert a + b == a;
    } else {
      var front := b[..|b| - 1];
      var last := b[|b| - 1];
      assert (a + b)[..|a + b| - 1] == a + front;
      assert (a + b)[|a + b| - 1] == last;
      ItemsOfAppend(a, front, saleId);
      var tail := if last.saleId == saleId then [last] else [];
      calc {
        ItemsOf(a + b, saleId);
        ItemsOf(a + front, saleId) + tail;
        ItemsOf(a, saleId) + ItemsOf(front, saleId) + tail;
        ItemsOf(a, saleId) + (ItemsOf(front, saleId) + tail);
        ItemsOf(a, saleId) + ItemsOf(b, saleId);
      }
    }
  }

  lemma {:induction false} ItemsNotOfAppend(a: seq<SaleItem>, b: seq<SaleItem>, saleId: SaleId)
    ensures ItemsNotOf(a + b, saleId) == ItemsNotOf(a, saleId) + ItemsNotOf(b, saleId)
  {
    if b == [] {
      assert a + b == a;
    } else {
      var front := b[..|b| - 1];
      var last := b[|b| - 1];
      assert (a + b)[..|a + b| - 1] == a + front;
      assert (a + b)[|a + b| - 1] == last;
      ItemsNotOfAppend(a, front, saleId);
      var tail := if last.saleId != saleId then [last] else [];
      calc {
        ItemsNotOf(a + b, saleId);
        ItemsNotOf(a + front, saleId) + tail;
        ItemsNotOf(a, saleId) + ItemsNotOf(front, saleId) + tail;
        ItemsNotOf(a, saleId) + (ItemsNotOf(front, saleId) + tail);
        ItemsNotOf(a, saleId) + ItemsNotOf(b, saleId);
      }
    }
  }

  /** A sale id that no line mentions selects no lines. */
  lemma ItemsOfUnmentioned(items: seq<SaleItem>, saleId: SaleId)
    requires forall i | 0 <= i < |items| :: items[i].saleId != saleId
    ensures ItemsOf(items, saleId) == []
    ensures ItemsNotOf(items, saleId) == items
  {
    ItemsOfNoneOf(items, saleId);
    ItemsNotOfUnmentioned(items, saleId);
  }

  /** Proof helper: the select keeps no line when none carries `saleId`. */
  lemma {:induction false} ItemsOfNoneOf(items: seq<SaleItem>, saleId: SaleId)
    requires forall i | 0 <= i < |items| :: items[i].saleId != saleId
    ensures ItemsOf(items, saleId) == []
  {
    if items != [] {
      var n := |items| - 1;
      ItemsOfNoneOf(items[..n], saleId);
    }
  }

  /** Proof helper: the delete keeps every line when none carries `saleId`. */
  lemma {:induction false} ItemsNotOfUnmentioned(items: seq<SaleItem>, saleId: SaleId)
    requires forall i | 0 <= i < |items| :: items[i].saleId != saleId
    ensures ItemsNotOf(items, saleId) == items
  {
    if items != [] {
      var n := |items| - 1;
      ItemsNotOfUnmentioned(items[..n], saleId);
      assert items[..n] + [items[n]] == items;
    }
  }

  /** Lines that all carry `saleId` are selected whole. */
  lemma ItemsOfAllMentioned(items: seq<SaleItem>, saleId: SaleId)
    requires forall i | 0 <= i < |items| :: items[i].saleId == saleId
    ensures ItemsOf(items, saleId) == items
    ensures ItemsNotOf(items, saleId) == []
  {
    ItemsNotOfNoneOf(items, saleId);
    ItemsOfAllOf(items, saleId);
  }

  /** Proof helper: the delete keeps no line when all carry `saleId`. */
  lemma {:induction false} ItemsNotOfNoneOf(items: seq<SaleItem>, saleId: SaleId)
    requires forall i | 0 <= i < |items| :: items[i].saleId == saleId
    ensures ItemsNotOf(items, saleId) == []
  {
    if items != [] {
      var n := |items| - 1;
      ItemsNotOfNoneOf(items[..n], saleId);
    }
  }

  /** Proof helper: the select keeps every line when all carry `saleId`. */
  lemma {:induction false} ItemsOfAllOf(items: seq<SaleItem>, saleId: SaleId)
    requires forall i | 0 <= i < |items| :: items[i].saleId == saleId
    ensures ItemsOf(items, saleId) == items
  {
    if items != [] {
      var n := |items| - 1;
      ItemsOfAllOf(items[..n], saleId);
      assert items[..n] + [items[n]] == items;
    }
  }

  /** The whole store is consistent. */
  predicate Consistent(products: map<ProductId, Product>, categories: map<CategoryId, Category>,
                       users: map<UserId, User>, staff: map<StaffId, StaffMember>,
                       sales: map<SaleId, Sale>, items: seq<SaleItem>)
  {
    && CategoryNamesDistinct(categories)
    && UserEmailsDistinct(users)
    && StaffEmailsDistinct(staff)
    && ProductCategoriesExist(products, categories)
    && ItemsReferToSales(items, sales)
    && ItemsReferToProducts(items, products)
    && ItemsPriced(items)
    && SalesBalanced(sales, items)
  }

  /** The database: the six tables the controllers read and write. */
  class Db {
    var products: map<ProductId, Product>
    var categories: map<CategoryId, Category>
    var users: map<UserId, User>
    var staff: map<StaffId, StaffMember>
    var sales: map<SaleId, Sale>
    var saleItems: seq<SaleItem>

    ghost predicate Valid()
      reads this
    {
      Consistent(products, categories, users, staff, sales, saleItems)
    }

    constructor ()
      ensures Valid()
      ensures products == map[] && categories == map[] && users == map[]
      ensures staff == map[] && sales == map[] && saleItems == []
    {
      products, categories, users := map[], map[], map[];
      staff, sales, saleItems := map[], map[], [];
    }
  }

  // ----- Reading a whole table -----

  /** `rows` lists every entry of `table` exactly once. */
  ghost predicate RowsOf<K, V>(rows: seq<Row<K, V>>, table: map<K, V>) {
    && (forall i | 0 <= i < |rows| :: rows[i].id in table && table[rows[i].id] == rows[i].value)
    && (forall k | k in table :: exists i | 0 <= i < |rows| :: rows[i].id == k)
    && (forall i, j | 0 <= i < j < |rows| :: rows[i].id != rows[j].id)
  }

  /** `SELECT * FROM table`: the rows in an order the store chooses. */
  method ScanTable<K, V>(table: map<K, V>) returns (rows: seq<Row<K, V>>)
    ensures RowsOf(rows, table)
  {
    rows := [];
    var remaining := table.Keys;
    while remaining != {}
      invariant remaining <= table.Keys
      invariant forall i | 0 <= i < |rows| :: rows[i].id in table && table[rows[i].id] == rows[i].value
      invariant forall i | 0 <= i < |rows| :: rows[i].id !in remaining
      invariant forall k | k in table && k !in remaining :: exists i | 0 <= i < |rows| :: rows[i].id == k
      invariant forall i, j | 0 <= i < j < |rows| :: rows[i].id != rows[j].id
      decreases remaining
    {
      var k :| k in remaining;
      ghost var before := rows;
      rows := rows + [Row(k, table[k])];
      remaining := remaining - {k};
      assert rows[|rows| - 1].id == k;
      assert forall i | 0 <= i < |before| :: rows[i] == before[i];
    }
  }
}
