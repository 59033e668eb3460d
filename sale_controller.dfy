/** Checkout and refund (backend/controllers/saleController.js): the two
    handlers that change the catalog and the ledger together, inside one
    transaction, and the page arithmetic of the sales listing. */
module SaleController {
  import opened Common
  import opened Store
  import opened Stock

  /** One entry of the request's `items` array. */
  datatype LineRequest = LineRequest(productId: ProductId, quantity: int)

  /** What a successful checkout answers: the new sale's id and its total. */
  datatype Receipt = Receipt(saleId: SaleId, total: int)

  // ----- The validation pass -----

  /** The line names an existing product whose stock covers the quantity. */
  predicate LineAvailable(products: map<ProductId, Product>, line: LineRequest) {
    line.productId in products && products[line.productId].stock >= line.quantity
  }

  predicate AllAvailable(products: map<ProductId, Product>, items: seq<LineRequest>) {
    forall i | 0 <= i < |items| :: LineAvailable(products, items[i])
  }

  /** The error the validation pass throws for an unavailable line. */
  function LineFailure(products: map<ProductId, Product>, line: LineRequest): (e: Reason)
    requires !LineAvailable(products, line)
    ensures e.ProductNotFound? <==> line.productId !in products
    ensures e.ProductNotFound? ==> e.productId == line.productId
    ensures line.productId in products ==>
      && e.InsufficientStock?
      && e.name == products[line.productId].name
      && e.available == products[line.productId].stock
    ensures e.InsufficientStock? ==> e.available < line.quantity
  {
    if line.productId !in products then ProductNotFound(line.productId)
    else InsufficientStock(products[line.productId].name, products[line.productId].stock)
  }

  /** The position of the line the validation pass stops at. */
  function FirstUnavailable(products: map<ProductId, Product>, items: seq<LineRequest>): (k: nat)
    requires !AllAvailable(products, items)
    ensures k < |items| && !LineAvailable(products, items[k])
    ensures AllAvailable(products, items[..k])
  {
    if !LineAvailable(products, items[0]) then 0
    else
      var k := FirstUnavailable(products, items[1..]);
      assert forall i | 0 <= i < k + 1 :: items[..k + 1][i] == items[i];
      assert forall i | 1 <= i < k + 1 :: items[i] == items[1..][..k][i - 1];
      k + 1
  }

  /** Sum over the lines of price * quantity, at the products' current prices. */
  function LinesTotal(products: map<ProductId, Product>, items: seq<LineRequest>): int
    requires forall i | 0 <= i < |items| :: items[i].productId in products
  {
    if items == [] then 0
    else
      var last := items[|items| - 1];
      LinesTotal(products, items[..|items| - 1]) + products[last.productId].price * last.quantity
  }

  /** Total quantity the request asks of product `p`, over all its lines. */
  function QuantityFor(items: seq<LineRequest>, p: ProductId): int {
    if items == [] then 0
    else QuantityFor(items[..|items| - 1], p) + (if items[|items| - 1].productId == p then items[|items| - 1].quantity else 0)
  }

  /** The stock decrements of the write pass, one per line, in request order. */
  function Withdrawals(items: seq<LineRequest>): (ds: seq<StockDelta>)
    ensures |ds| == |items|
  {
    if items == [] then []
    else
      var last := items[|items| - 1];
      Withdrawals(items[..|items| - 1]) + [StockDelta(last.productId, -last.quantity)]
  }

  /** Each product's stock drops by the total quantity the request asks of it. */
  lemma {:induction false} WithdrawalsNet(items: seq<LineRequest>, p: ProductId)
    ensures NetDelta(Withdrawals(items), p) == -QuantityFor(items, p)
  {
    if items != [] {
      var n := |items| - 1;
      var ws := Withdrawals(items);
      WithdrawalsNet(items[..n], p);
      assert ws[..n] == Withdrawals(items[..n]);
    }
  }

  /** The stock increments of a refund, one per stored line. */
  function Restocks(lines: seq<SaleItem>): (ds: seq<StockDelta>)
    ensures |ds| == |lines|
  {
    if lines == [] then []
    else Restocks(lines[..|lines| - 1]) + [StockDelta(lines[|lines| - 1].productId, lines[|lines| - 1].quantity)]
  }

  /** The sale_items row the write pass inserts for one request line, at the
      price it reads back from the catalog. The first pass has checked that
      every product exists, so the write pass never meets a missing one and
      the zero price below is never stored. */
  function LineRecord(saleId: SaleId, itemId: SaleItemId, line: LineRequest, products: map<ProductId, Product>): SaleItem
  {
    var price := if line.productId in products then products[line.productId].price else 0;
    SaleItem(itemId, saleId, line.productId, line.quantity, price, price * line.quantity)
  }

  /** The rows the write pass inserts, in request order. */
  function SaleLines(saleId: SaleId, itemIds: seq<SaleItemId>, items: seq<LineRequest>,
                     products: map<ProductId, Product>): (lines: seq<SaleItem>)
    requires |itemIds| == |items|
    ensures |lines| == |items|
  {
    if items == [] then []
    else
      var n := |items| - 1;
      SaleLines(saleId, itemIds[..n], items[..n], products) + [LineRecord(saleId, itemIds[n], items[n], products)]
  }

  /** The k-th inserted row records the k-th request line under the k-th generated id. */
  lemma {:induction false} SaleLinesAt(saleId: SaleId, itemIds: seq<SaleItemId>, items: seq<LineRequest>,
                                      products: map<ProductId, Product>)
    requires |itemIds| == |items|
    ensures var lines := SaleLines(saleId, itemIds, items, products);
            forall k | 0 <= k < |items| :: lines[k] == LineRecord(saleId, itemIds[k], items[k], products)
  {
    if items != [] {
      var n := |items| - 1;
      SaleLinesAt(saleId, itemIds[..n], items[..n], products);
    }
  }

  // ----- Properties of a checkout -----

  /** Conservation: the stored total is the sum of the stored subtotals, and
      each stored line is priced at quantity * captured price. */
  lemma {:induction false} SaleLinesConserve(saleId: SaleId, itemIds: seq<SaleItemId>, items: seq<LineRequest>,
                                            products: map<ProductId, Product>)
    requires |itemIds| == |items|
    requires forall i | 0 <= i < |items| :: items[i].productId in products
    ensures SubtotalSum(SaleLines(saleId, itemIds, items, products)) == LinesTotal(products, items)
  {
    if items != [] {
      var n := |items| - 1;
      var lines := SaleLines(saleId, itemIds, items, products);
      SaleLinesConserve(saleId, itemIds[..n], items[..n], products);
      assert lines[..n] == SaleLines(saleId, itemIds[..n], items[..n], products);
    }
  }

  /** A refund of the lines a checkout stored gives back exactly what the checkout took. */
  lemma {:induction false} RestocksCancelWithdrawals(saleId: SaleId, itemIds: seq<SaleItemId>, items: seq<LineRequest>,
                                                    products: map<ProductId, Product>, p: ProductId)
    requires |itemIds| == |items|
    ensures NetDelta(Restocks(SaleLines(saleId, itemIds, items, products)), p) == QuantityFor(items, p)
  {
    if items != [] {
      var n := |items| - 1;
      var lines := SaleLines(saleId, itemIds, items, products);
      var front := SaleLines(saleId, itemIds[..n], items[..n], products);
      RestocksCancelWithdrawals(saleId, itemIds[..n], items[..n], products, p);
      assert lines[..n] == front;
      var rs := Restocks(lines);
      assert rs == Restocks(front) + [StockDelta(items[n].productId, items[n].quantity)];
      assert rs[..n] == Restocks(front);
    }
  }

  predicate DistinctProducts(items: seq<LineRequest>) {
    forall i, j | 0 <= i < j < |items| :: items[i].productId != items[j].productId
  }

  /** With distinct product ids, the quantity asked of a product is that of its one line. */
  lemma {:induction false} QuantityForDistinct(items: seq<LineRequest>, k: nat)
    requires k < |items| && DistinctProducts(items)
    ensures QuantityFor(items, items[k].productId) == items[k].quantity
  {
    var n := |items| - 1;
    var p := items[k].productId;
    if k == n {
      QuantityForAbsent(items[..n], p);
    } else {
      QuantityForDistinct(items[..n], k);
    }
  }

  lemma {:induction false} QuantityForAbsent(items: seq<LineRequest>, p: ProductId)
    requires forall i | 0 <= i < |items| :: items[i].productId != p
    ensures QuantityFor(items, p) == 0
  {
    if items != [] {
      QuantityForAbsent(items[..|items| - 1], p);
    }
  }

  /** No oversell when every product appears once: a successful checkout leaves
      every stock that was non-negative non-negative. */
  lemma CheckoutKeepsStockNonNegative(products: map<ProductId, Product>, items: seq<LineRequest>)
    requires AllAvailable(products, items) && DistinctProducts(items)
    requires forall p | p in products :: products[p].stock >= 0
    ensures forall p | p in products :: ShiftAll(products, Withdrawals(items))[p].stock >= 0
  {
    forall p | p in products
      ensures ShiftAll(products, Withdrawals(items))[p].stock >= 0
    {
      ShiftAllAt(products, Withdrawals(items), p);
      WithdrawalsNet(items, p);
      if k :| 0 <= k < |items| && items[k].productId == p {
        QuantityForDistinct(items, k);
        assert LineAvailable(products, items[k]);
      } else {
        QuantityForAbsent(items, p);
      }
    }
  }

  /** The per-line check reads the stock as it was before the checkout, while
      the decrements add up: the same product on two lines each within stock
      drives the stock below zero. */
  lemma OversellWhenProductRepeats()
    ensures var products := map["milk" := Product("Milk", 250, 1, None)];
            var items := [LineRequest("milk", 1), LineRequest("milk", 1)];
            && AllAvailable(products, items)
            && ShiftAll(products, Withdrawals(items))["milk"].stock == -1
  {
    var products := map["milk" := Product("Milk", 250, 1, None)];
    var items := [LineRequest("milk", 1), LineRequest("milk", 1)];
    assert items[..1] == [LineRequest("milk", 1)];
    assert items[..1][..0] == [];
    assert QuantityFor(items, "milk") == 2;
    WithdrawalsNet(items, "milk");
    ShiftAllAt(products, Withdrawals(items), "milk");
  }

  /** A checkout keeps the store consistent: the new lines point at the new
      sale and at existing products, and the new sale's total balances its lines. */
  lemma CheckoutKeepsConsistent(products: map<ProductId, Product>, categories: map<CategoryId, Category>,
                                users: map<UserId, User>, staff: map<StaffId, StaffMember>,
                                sales: map<SaleId, Sale>, stored: seq<SaleItem>,
                                userId: Option<UserId>, items: seq<LineRequest>,
                                saleId: SaleId, itemIds: seq<SaleItemId>)
    requires Consistent(products, categories, users, staff, sales, stored)
    requires AllAvailable(products, items)
    requires forall i | 0 <= i < |items| :: items[i].quantity >= 1
    requires saleId !in sales && |itemIds| == |items|
    ensures var lines := SaleLines(saleId, itemIds, items, products);
            Consistent(ShiftAll(products, Withdrawals(items)), categories, users, staff,
                       sales[saleId := Sale(userId, LinesTotal(products, items))], stored + lines)
  {
    var lines := SaleLines(saleId, itemIds, items, products);
    var sales' := sales[saleId := Sale(userId, LinesTotal(products, items))];
    ShiftAllKeepsReferences(products, Withdrawals(items), categories, stored);
    CheckoutLinesWellFormed(products, sales, stored, userId, items, saleId, itemIds);
    CheckoutBalances(products, sales, stored, userId, items, saleId, itemIds);
  }

  /** The stored lines after a checkout refer to existing sales and products and are priced. */
  lemma CheckoutLinesWellFormed(products: map<ProductId, Product>, sales: map<SaleId, Sale>, stored: seq<SaleItem>,
                                userId: Option<UserId>, items: seq<LineRequest>,
                                saleId: SaleId, itemIds: seq<SaleItemId>)
    requires ItemsReferToSales(stored, sales) && ItemsReferToProducts(stored, products) && ItemsPriced(stored)
    requires AllAvailable(products, items)
    requires forall i | 0 <= i < |items| :: items[i].quantity >= 1
    requires |itemIds| == |items|
    ensures var lines := SaleLines(saleId, itemIds, items, products);
            && ItemsReferToSales(stored + lines, sales[saleId := Sale(userId, LinesTotal(products, items))])
            && ItemsReferToProducts(stored + lines, products)
            && ItemsPriced(stored + lines)
  {
    var lines := SaleLines(saleId, itemIds, items, products);
    var stored' := stored + lines;
    SaleLinesAt(saleId, itemIds, items, products);
    forall i | 0 <= i < |stored'|
      ensures stored'[i].saleId == saleId || stored'[i].saleId in sales
      ensures stored'[i].productId in products
      ensures stored'[i].quantity >= 1 && stored'[i].subtotal == stored'[i].quantity * stored'[i].price
    {
      if i >= |stored| {
        var k := i - |stored|;
        assert stored'[i] == LineRecord(saleId, itemIds[k], items[k], products);
        assert LineAvailable(products, items[k]);
      }
    }
  }

  /** After a checkout every sale, the new one included, balances its lines. */
  lemma CheckoutBalances(products: map<ProductId, Product>, sales: map<SaleId, Sale>, stored: seq<SaleItem>,
                         userId: Option<UserId>, items: seq<LineRequest>,
                         saleId: SaleId, itemIds: seq<SaleItemId>)
    requires ItemsReferToSales(stored, sales) && SalesBalanced(sales, stored)
    requires AllAvailable(products, items)
    requires saleId !in sales && |itemIds| == |items|
    ensures var lines := SaleLines(saleId, itemIds, items, products);
            SalesBalanced(sales[saleId := Sale(userId, LinesTotal(products, items))], stored + lines)
  {
    var lines := SaleLines(saleId, itemIds, items, products);
    var sales' := sales[saleId := Sale(userId, LinesTotal(products, items))];
    SaleLinesAt(saleId, itemIds, items, products);
    forall s | s in sales'
      ensures sales'[s].total == SubtotalSum(ItemsOf(stored + lines, s))
    {
      if s == saleId {
        NewSaleSelectsItsLines(stored, sales, lines, saleId);
        SaleLinesConserve(saleId, itemIds, items, products);
      } else {
        assert sales'[s] == sales[s];
        OtherSaleKeepsItsLines(stored, lines, saleId, s);
      }
    }
  }

  /** Selecting the new sale's id after appending its lines yields exactly those lines. */
  lemma NewSaleSelectsItsLines(stored: seq<SaleItem>, sales: map<SaleId, Sale>, lines: seq<SaleItem>, saleId: SaleId)
    requires ItemsReferToSales(stored, sales) && saleId !in sales
    requires forall i | 0 <= i < |lines| :: lines[i].saleId == saleId
    ensures ItemsOf(stored + lines, saleId) == lines
  {
    ItemsOfAppend(stored, lines, saleId);
    ItemsOfUnmentioned(stored, saleId);
    ItemsOfAllMentioned(lines, saleId);
  }

  /** Proof helper: every inserted row carries the new sale's id. */
  lemma SaleLinesCarrySale(lines: seq<SaleItem>, saleId: SaleId, itemIds: seq<SaleItemId>, items: seq<LineRequest>,
                           products: map<ProductId, Product>)
    requires |itemIds| == |items| && lines == SaleLines(saleId, itemIds, items, products)
    ensures forall i | 0 <= i < |lines| :: lines[i].saleId == saleId
  {
    SaleLinesAt(saleId, itemIds, items, products);
  }

  /** Proof helper: deleting a new sale's lines leaves the table as it was before them. */
  lemma NewLinesDeleted(stored: seq<SaleItem>, sales: map<SaleId, Sale>, lines: seq<SaleItem>, saleId: SaleId)
    requires ItemsReferToSales(stored, sales) && saleId !in sales
    requires forall i | 0 <= i < |lines| :: lines[i].saleId == saleId
    ensures ItemsNotOf(stored + lines, saleId) == stored
  {
    ItemsNotOfAppend(stored, lines, saleId);
    ItemsOfUnmentioned(stored, saleId);
    ItemsOfAllMentioned(lines, saleId);
  }

  /** Appending another sale's lines leaves the selection of sale `s` unchanged. */
  lemma OtherSaleKeepsItsLines(stored: seq<SaleItem>, lines: seq<SaleItem>, saleId: SaleId, s: SaleId)
    requires s != saleId
    requires forall i | 0 <= i < |lines| :: lines[i].saleId == saleId
    ensures ItemsOf(stored + lines, s) == ItemsOf(stored, s)
  {
    ItemsOfAppend(stored, lines, s);
    ItemsOfUnmentioned(lines, s);
  }

  /** Deleting a sale's lines leaves the lines of every other sale as they were. */
  lemma {:induction false} ItemsOfAfterRemoval(items: seq<SaleItem>, removed: SaleId, s: SaleId)
    requires s != removed
    ensures ItemsOf(ItemsNotOf(items, removed), s) == ItemsOf(items, s)
  {
    if items != [] {
      var n := |items| - 1;
      ItemsOfAfterRemoval(items[..n], removed, s);
      var tail := if items[n].saleId != removed then [items[n]] else [];
      assert ItemsNotOf(items, removed) == ItemsNotOf(items[..n], removed) + tail;
      ItemsOfAppend(ItemsNotOf(items[..n], removed), tail, s);
    }
  }

  /** A refund keeps the store consistent. */
  lemma RefundKeepsConsistent(products: map<ProductId, Product>, categories: map<CategoryId, Category>,
                              users: map<UserId, User>, staff: map<StaffId, StaffMember>,
                              sales: map<SaleId, Sale>, stored: seq<SaleItem>, saleId: SaleId)
    requires Consistent(products, categories, users, staff, sales, stored)
    ensures Consistent(ShiftAll(products, Restocks(ItemsOf(stored, saleId))), categories, users, staff,
                       sales - {saleId}, ItemsNotOf(stored, saleId))
  {
    ShiftAllKeepsReferences(products, Restocks(ItemsOf(stored, saleId)), categories, stored);
    RefundLinesWellFormed(products, sales, stored, saleId);
    var stored' := ItemsNotOf(stored, saleId);
    forall s | s in sales - {saleId}
      ensures (sales - {saleId})[s].total == SubtotalSum(ItemsOf(stored', s))
    {
      ItemsOfAfterRemoval(stored, saleId, s);
    }
  }

  /** The lines a refund leaves still refer to remaining sales and to products, and are priced. */
  lemma RefundLinesWellFormed(products: map<ProductId, Product>, sales: map<SaleId, Sale>,
                              stored: seq<SaleItem>, saleId: SaleId)
    requires ItemsReferToSales(stored, sales) && ItemsReferToProducts(stored, products) && ItemsPriced(stored)
    ensures var stored' := ItemsNotOf(stored, saleId);
            && ItemsReferToSales(stored', sales - {saleId})
            && ItemsReferToProducts(stored', products)
            && ItemsPriced(stored')
  {
    var stored' := ItemsNotOf(stored, saleId);
    ItemsNotOfMembers(stored, saleId);
    forall i | 0 <= i < |stored'|
      ensures stored'[i].saleId in sales - {saleId}
      ensures stored'[i].productId in products
      ensures stored'[i].quantity >= 1 && stored'[i].subtotal == stored'[i].quantity * stored'[i].price
    {
      assert stored'[i] in stored';
      var j :| 0 <= j < |stored| && stored[j] == stored'[i];
    }
  }

  /** Refunding a sale right after it was checked out puts every table back as it was. */
  lemma RefundUndoesCheckout(products: map<ProductId, Product>, sales: map<SaleId, Sale>, stored: seq<SaleItem>,
                             userId: Option<UserId>, items: seq<LineRequest>,
                             saleId: SaleId, itemIds: seq<SaleItemId>)
    requires ItemsReferToSales(stored, sales)
    requires AllAvailable(products, items)
    requires saleId !in sales && |itemIds| == |items|
    ensures var lines := SaleLines(saleId, itemIds, items, products);
            && ItemsOf(stored + lines, saleId) == lines
            && ItemsNotOf(stored + lines, saleId) == stored
            && ShiftAll(ShiftAll(products, Withdrawals(items)), Restocks(lines)) == products
            && sales[saleId := Sale(userId, LinesTotal(products, items))] - {saleId} == sales
  {
    var lines := SaleLines(saleId, itemIds, items, products);
    SaleLinesCarrySale(lines, saleId, itemIds, items, products);
    NewSaleSelectsItsLines(stored, sales, lines, saleId);
    NewLinesDeleted(stored, sales, lines, saleId);
    RestocksRestore(products, items, saleId, itemIds);
    DropNewSale(sales, saleId, Sale(userId, LinesTotal(products, items)));
  }

  /** Proof helper: deleting a sale just added gives back the sales table. */
  lemma DropNewSale(sales: map<SaleId, Sale>, saleId: SaleId, sale: Sale)
    requires saleId !in sales
    ensures sales[saleId := sale] - {saleId} == sales
  {
  }

  /** Proof helper: restocking a checkout's lines undoes its decrements. */
  lemma RestocksRestore(products: map<ProductId, Product>, items: seq<LineRequest>,
                        saleId: SaleId, itemIds: seq<SaleItemId>)
    requires |itemIds| == |items|
    ensures ShiftAll(ShiftAll(products, Withdrawals(items)), Restocks(SaleLines(saleId, itemIds, items, products))) == products
  {
    var lines := SaleLines(saleId, itemIds, items, products);
    forall p | p in products
      ensures NetDelta(Restocks(lines), p) == -NetDelta(Withdrawals(items), p)
    {
      RestocksCancelWithdrawals(saleId, itemIds, items, products, p);
      WithdrawalsNet(items, p);
    }
    ShiftAllCancels(products, Withdrawals(items), Restocks(lines));
  }

  // ----- The handlers -----

  /** The optional customer reference names an existing customer. */
  predicate CustomerKnown(users: map<UserId, User>, userId: Option<UserId>) {
    userId.Some? ==> userId.value in users
  }

  /** POST /api/sales. `saleId` and `itemIds` are the uuids the handler generates.
      The route validator guarantees every quantity is at least 1. */
  method CreateSale(db: Db, userId: Option<UserId>, items: seq<LineRequest>,
                    saleId: SaleId, itemIds: seq<SaleItemId>) returns (r: Response<Receipt>)
    requires db.Valid()
    requires forall i | 0 <= i < |items| :: items[i].quantity >= 1
    requires saleId !in db.sales && |itemIds| == |items|
    modifies db
    ensures db.Valid()
    ensures r.Err? ==> unchanged(db)
    ensures items == [] ==> r == Err(BadRequest, ItemsRequired)
    ensures items != [] && !CustomerKnown(old(db.users), userId) ==> r == Err(BadRequest, UserNotFound)
    ensures items != [] && CustomerKnown(old(db.users), userId) && !AllAvailable(old(db.products), items) ==>
      r == Err(ServerError, LineFailure(old(db.products), items[FirstUnavailable(old(db.products), items)]))
    ensures r.Ok? <==> items != [] && CustomerKnown(old(db.users), userId) && AllAvailable(old(db.products), items)
    ensures r.Ok? ==>
      && r.value == Receipt(saleId, LinesTotal(old(db.products), items))
      && db.sales == old(db.sales)[saleId := Sale(userId, r.value.total)]
      && db.saleItems == old(db.saleItems) + SaleLines(saleId, itemIds, items, old(db.products))
      && db.products == ShiftAll(old(db.products), Withdrawals(items))
      && db.categories == old(db.categories) && db.users == old(db.users) && db.staff == old(db.staff)
  {
    if items == [] {
      return Err(BadRequest, ItemsRequired);
    }
    if userId.Some? && userId.value !in db.users {
      return Err(BadRequest, UserNotFound);
    }
    // START TRANSACTION
    var checked := CheckLines(db, items);
    if checked.Err? {
      // The thrown error rolls back; nothing has been written yet.
      return Err(checked.status, checked.reason);
    }
    var total := checked.value;
    db.sales := db.sales[saleId := Sale(userId, total)];
    WriteLines(db, saleId, itemIds, items, db.products);
    CheckoutKeepsConsistent(old(db.products), db.categories, db.users, db.staff, old(db.sales), old(db.saleItems),
                            userId, items, saleId, itemIds);
    // COMMIT
    r := Ok(Receipt(saleId, total));
  }

  /** The checkout's first pass: look every line up, stop at the first missing
      product or short stock, and otherwise add up the total. */
  method CheckLines(db: Db, items: seq<LineRequest>) returns (r: Response<int>)
    ensures r.Ok? <==> AllAvailable(db.products, items)
    ensures r.Ok? ==> r.value == LinesTotal(db.products, items)
    ensures r.Err? ==> r == Err(ServerError, LineFailure(db.products, items[FirstUnavailable(db.products, items)]))
  {
    var total := 0;
    var i := 0;
    while i < |items|
      invariant 0 <= i <= |items|
      invariant AllAvailable(db.products, items[..i])
      invariant total == LinesTotal(db.products, items[..i])
    {
      var item := items[i];
      if item.productId !in db.products || db.products[item.productId].stock < item.quantity {
        FirstUnavailableAt(db.products, items, i);
        return Err(ServerError, LineFailure(db.products, item));
      }
      var product := db.products[item.productId];
      total := total + product.price * item.quantity;
      assert items[..i + 1][..i] == items[..i];
      i := i + 1;
    }
    assert items[..|items|] == items;
    r := Ok(total);
  }

  /** The checkout's second pass: per line, read the price again, insert the
      sale_items row and decrement the stock. `before` is the catalog as the
      first pass saw it. */
  method WriteLines(db: Db, saleId: SaleId, itemIds: seq<SaleItemId>, items: seq<LineRequest>,
                    ghost before: map<ProductId, Product>)
    requires db.products == before
    requires forall i | 0 <= i < |items| :: items[i].productId in before
    requires |itemIds| == |items|
    modifies db
    ensures db.saleItems == old(db.saleItems) + SaleLines(saleId, itemIds, items, before)
    ensures db.products == ShiftAll(before, Withdrawals(items))
    ensures db.sales == old(db.sales) && db.categories == old(db.categories)
    ensures db.users == old(db.users) && db.staff == old(db.staff)
  {
    ghost var stored0 := db.saleItems;
    for i := 0 to |items|
      invariant db.saleItems == stored0 + SaleLines(saleId, itemIds[..i], items[..i], before)
      invariant db.products == ShiftAll(before, Withdrawals(items[..i]))
      invariant db.sales == old(db.sales) && db.categories == old(db.categories)
      invariant db.users == old(db.users) && db.staff == old(db.staff)
    {
      ghost var storedBefore, productsBefore := db.saleItems, db.products;
      WriteLine(db, saleId, itemIds[i], items[i]);
      WriteLinesStep(saleId, itemIds, items, before, i, stored0, storedBefore, db.saleItems, productsBefore, db.products);
    }
    assert items[..|items|] == items;
    assert itemIds[..|items|] == itemIds;
  }

  /** Proof helper: one iteration of the write pass keeps its invariant,
      because the price read again is the price before the pass. */
  lemma WriteLinesStep(saleId: SaleId, itemIds: seq<SaleItemId>, items: seq<LineRequest>,
                       before: map<ProductId, Product>, i: nat, stored0: seq<SaleItem>,
                       storedBefore: seq<SaleItem>, storedAfter: seq<SaleItem>,
                       productsBefore: map<ProductId, Product>, productsAfter: map<ProductId, Product>)
    requires i < |items| == |itemIds|
    requires items[i].productId in before
    requires storedBefore == stored0 + SaleLines(saleId, itemIds[..i], items[..i], before)
    requires productsBefore == ShiftAll(before, Withdrawals(items[..i]))
    requires storedAfter == storedBefore + [SaleItem(itemIds[i], saleId, items[i].productId, items[i].quantity,
                                                     productsBefore[items[i].productId].price,
                                                     productsBefore[items[i].productId].price * items[i].quantity)]
    requires productsAfter == Shift(productsBefore, StockDelta(items[i].productId, -items[i].quantity))
    ensures storedAfter == stored0 + SaleLines(saleId, itemIds[..i + 1], items[..i + 1], before)
    ensures productsAfter == ShiftAll(before, Withdrawals(items[..i + 1]))
  {
    ShiftAllAt(before, Withdrawals(items[..i]), items[i].productId);
    WriteStep(saleId, itemIds, items, before, i);
    WithdrawStep(before, items, i);
  }

  /** One line of the write pass: read the price again, insert the row, decrement the stock. */
  method WriteLine(db: Db, saleId: SaleId, itemId: SaleItemId, item: LineRequest)
    requires item.productId in db.products
    modifies db
    ensures db.saleItems == old(db.saleItems) + [SaleItem(itemId, saleId, item.productId, item.quantity,
                                                          old(db.products)[item.productId].price,
                                                          old(db.products)[item.productId].price * item.quantity)]
    ensures db.products == Shift(old(db.products), StockDelta(item.productId, -item.quantity))
    ensures db.sales == old(db.sales) && db.categories == old(db.categories)
    ensures db.users == old(db.users) && db.staff == old(db.staff)
  {
    var price := db.products[item.productId].price;
    db.saleItems := db.saleItems + [SaleItem(itemId, saleId, item.productId, item.quantity, price, price * item.quantity)];
    db.products := Shift(db.products, StockDelta(item.productId, -item.quantity));
  }

  /** One more line written: one more row. */
  lemma WriteStep(saleId: SaleId, itemIds: seq<SaleItemId>, items: seq<LineRequest>,
                  products: map<ProductId, Product>, i: nat)
    requires i < |items| == |itemIds|
    ensures SaleLines(saleId, itemIds[..i + 1], items[..i + 1], products)
            == SaleLines(saleId, itemIds[..i], items[..i], products) + [LineRecord(saleId, itemIds[i], items[i], products)]
  {
    assert items[..i + 1][..i] == items[..i];
    assert itemIds[..i + 1][..i] == itemIds[..i];
  }

  /** One more line written: one more decrement. */
  lemma WithdrawStep(products: map<ProductId, Product>, items: seq<LineRequest>, i: nat)
    requires i < |items|
    ensures ShiftAll(products, Withdrawals(items[..i + 1]))
            == Shift(ShiftAll(products, Withdrawals(items[..i])), StockDelta(items[i].productId, -items[i].quantity))
  {
    assert items[..i + 1][..i] == items[..i];
    var ws := Withdrawals(items[..i + 1]);
    assert ws == Withdrawals(items[..i]) + [StockDelta(items[i].productId, -items[i].quantity)];
    assert ws[..i] == Withdrawals(items[..i]);
  }

  /** One more line refunded: one more increment. */
  lemma RestockStep(products: map<ProductId, Product>, lines: seq<SaleItem>, i: nat)
    requires i < |lines|
    ensures ShiftAll(products, Restocks(lines[..i + 1]))
            == Shift(ShiftAll(products, Restocks(lines[..i])), StockDelta(lines[i].productId, lines[i].quantity))
  {
    assert lines[..i + 1][..i] == lines[..i];
    var rs := Restocks(lines[..i + 1]);
    assert rs == Restocks(lines[..i]) + [StockDelta(lines[i].productId, lines[i].quantity)];
    assert rs[..i] == Restocks(lines[..i]);
  }

  lemma FirstUnavailableAt(products: map<ProductId, Product>, items: seq<LineRequest>, i: nat)
    requires i < |items| && AllAvailable(products, items[..i]) && !LineAvailable(products, items[i])
    ensures !AllAvailable(products, items) && FirstUnavailable(products, items) == i
  {
  }

  /** DELETE /api/sales/:id — the refund. */
  method DeleteSale(db: Db, saleId: SaleId) returns (r: Response<()>)
    requires db.Valid()
    modifies db
    ensures db.Valid()
    ensures r.Err? <==> saleId !in old(db.sales)
    ensures r.Err? ==> r == Err(NotFound, SaleNotFound) && unchanged(db)
    ensures r.Ok? ==>
      && db.products == ShiftAll(old(db.products), Restocks(ItemsOf(old(db.saleItems), saleId)))
      && db.saleItems == ItemsNotOf(old(db.saleItems), saleId)
      && db.sales == old(db.sales) - {saleId}
      && db.categories == old(db.categories) && db.users == old(db.users) && db.staff == old(db.staff)
  {
    if saleId !in db.sales {
      return Err(NotFound, SaleNotFound);
    }
    // START TRANSACTION
    RestoreStock(db, ItemsOf(db.saleItems, saleId));
    db.saleItems := ItemsNotOf(db.saleItems, saleId);
    db.sales := db.sales - {saleId};
    RefundKeepsConsistent(old(db.products), db.categories, db.users, db.staff, old(db.sales), old(db.saleItems), saleId);
    // COMMIT
    r := Ok(());
  }

  /** The refund's loop: give each line's quantity back to its product; a
      product deleted since matches no row. */
  method RestoreStock(db: Db, lines: seq<SaleItem>)
    modifies db
    ensures db.products == ShiftAll(old(db.products), Restocks(lines))
    ensures db.saleItems == old(db.saleItems) && db.sales == old(db.sales) && db.categories == old(db.categories)
    ensures db.users == old(db.users) && db.staff == old(db.staff)
  {
    var i := 0;
    while i < |lines|
      invariant 0 <= i <= |lines|
      invariant db.products == ShiftAll(old(db.products), Restocks(lines[..i]))
      invariant db.saleItems == old(db.saleItems) && db.sales == old(db.sales) && db.categories == old(db.categories)
      invariant db.users == old(db.users) && db.staff == old(db.staff)
    {
      db.products := Shift(db.products, StockDelta(lines[i].productId, lines[i].quantity));
      RestockStep(old(db.products), lines, i);
      i := i + 1;
    }
    assert lines[..|lines|] == lines;
  }

  /** A checkout followed by the refund of the sale it created leaves every
      table as it was, and a second refund of the same id is refused. */
  method CheckoutThenRefund(db: Db, userId: Option<UserId>, items: seq<LineRequest>,
                            saleId: SaleId, itemIds: seq<SaleItemId>)
    returns (checkout: Response<Receipt>, refund: Response<()>, again: Response<()>)
    requires db.Valid()
    requires forall i | 0 <= i < |items| :: items[i].quantity >= 1
    requires saleId !in db.sales && |itemIds| == |items|
    modifies db
    ensures refund.Ok? <==> checkout.Ok?
    ensures again == Err(NotFound, SaleNotFound)
    ensures db.products == old(db.products) && db.sales == old(db.sales) && db.saleItems == old(db.saleItems)
  {
    checkout := CreateSale(db, userId, items, saleId, itemIds);
    if checkout.Ok? {
      RefundUndoesCheckout(old(db.products), old(db.sales), old(db.saleItems), userId, items, saleId, itemIds);
    }
    refund := DeleteSale(db, saleId);
    again := DeleteSale(db, saleId);
  }

  // ----- GET /api/sales pagination -----

  /** `OFFSET` of a page: the rows on earlier pages. */
  function PageOffset(page: int, limit: int): int {
    (page - 1) * limit
  }

  /** `Math.ceil(total / limit)`: the fewest pages of `limit` rows that hold `total` rows. */
  function PageCount(total: nat, limit: int): (pages: nat)
    requires limit >= 1
    ensures pages * limit >= total
    ensures pages > 0 ==> (pages - 1) * limit < total
  {
    (total + limit - 1) / limit
  }

  /** A page number from 1 to the page count is exactly one whose offset falls inside the rows. */
  lemma PageInRange(total: nat, limit: int, page: int)
    requires limit >= 1 && page >= 1
    ensures page <= PageCount(total, limit) <==> PageOffset(page, limit) < total
  {
    var pages := PageCount(total, limit);
    if page <= pages {
      assert (page - 1) * limit <= (pages - 1) * limit by {
        MulMonotone(page - 1, pages - 1, limit);
      }
    } else {
      assert pages * limit <= (page - 1) * limit by {
        MulMonotone(pages, page - 1, limit);
      }
    }
  }

  /** Proof helper (arithmetic): multiplying by a non-negative factor keeps order. */
  lemma MulMonotone(a: int, b: int, c: int)
    requires a <= b && c >= 0
    ensures a * c <= b * c
  {
  }
}
