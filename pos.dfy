/** The point-of-sale page (frontend/src/pages/POS.jsx): the cart and the
    selected customer are state cells that each handler replaces with a new
    value; here every handler is a function from the old state to the new
    one, and the checkout handler yields the request it posts. */
module Pos {
  import opened Common
  import opened Store
  import SaleController

  /** A product as the page fetched it. */
  datatype PosProduct = PosProduct(productId: ProductId, name: string, price: nat, stock: int)

  /** A cart line: the product's fields copied when it was added, and the quantity. */
  datatype CartLine = CartLine(productId: ProductId, name: string, price: nat, quantity: int, stock: int)

  /** The page's state: the fetched products, the cart, and the selected
      customer id ("" for a walk-in sale). */
  datatype PosState = PosState(products: seq<PosProduct>, cart: seq<CartLine>, selectedCustomer: string)

  /** The body posted to /api/sales. */
  datatype SaleRequest = SaleRequest(userId: Option<UserId>, items: seq<SaleController.LineRequest>)

  // ----- Lookups -----

  /** `products.find(p => p.product_id === id)`: the first product with that id. */
  function FindProduct(products: seq<PosProduct>, id: ProductId): (r: Option<PosProduct>)
    ensures r.Some? ==> r.value in products && r.value.productId == id
    ensures r.None? <==> forall i | 0 <= i < |products| :: products[i].productId != id
  {
    if products == [] then None
    else if products[0].productId == id then Some(products[0])
    else FindProduct(products[1..], id)
  }

  /** `cart.find(item => item.product_id === id)`: the first line for that product.
      The same search as `FindProduct`, over cart lines instead of fetched
      products; the page runs two separate `find`s over two differently shaped
      lists, and a generic lookup would need a projection argument in every
      lemma about the cart, so each list keeps its own lookup. */
  function FindLine(cart: seq<CartLine>, id: ProductId): (r: Option<CartLine>)
    ensures r.Some? ==> r.value in cart && r.value.productId == id
    ensures r.None? <==> forall i | 0 <= i < |cart| :: cart[i].productId != id
  {
    if cart == [] then None
    else if cart[0].productId == id then Some(cart[0])
    else FindLine(cart[1..], id)
  }

  predicate CatalogDistinct(products: seq<PosProduct>) {
    forall i, j | 0 <= i < j < |products| :: products[i].productId != products[j].productId
  }

  predicate LinesDistinct(cart: seq<CartLine>) {
    forall i, j | 0 <= i < j < |cart| :: cart[i].productId != cart[j].productId
  }

  /** In a catalog without repeated ids, the lookup finds the product itself. */
  lemma {:induction false} FindProductOf(products: seq<PosProduct>, p: PosProduct)
    requires CatalogDistinct(products) && p in products
    ensures FindProduct(products, p.productId) == Some(p)
  {
    if products[0] != p {
      assert p in products[1..];
      FindProductOf(products[1..], p);
    }
  }

  /** In a cart without repeated products, the lookup finds the line at its index. */
  lemma {:induction false} FindLineAt(cart: seq<CartLine>, k: nat)
    requires LinesDistinct(cart) && k < |cart|
    ensures FindLine(cart, cart[k].productId) == Some(cart[k])
  {
    if k > 0 {
      FindLineAt(cart[1..], k - 1);
    }
  }

  // ----- Cart arithmetic -----

  /** `cart.reduce((total, item) => total + item.price * item.quantity, 0)`. */
  function GetTotal(cart: seq<CartLine>): int {
    if cart == [] then 0 else GetTotal(cart[..|cart| - 1]) + cart[|cart| - 1].price * cart[|cart| - 1].quantity
  }

  /** The quantity of product `id` over all lines of the cart. */
  function QuantityOf(cart: seq<CartLine>, id: ProductId): int {
    if cart == [] then 0
    else QuantityOf(cart[..|cart| - 1], id) + (if cart[|cart| - 1].productId == id then cart[|cart| - 1].quantity else 0)
  }

  /** With one line per product, a product's quantity is that of its line. */
  lemma {:induction false} QuantityOfAt(cart: seq<CartLine>, k: nat)
    requires LinesDistinct(cart) && k < |cart|
    ensures QuantityOf(cart, cart[k].productId) == cart[k].quantity
  {
    var n := |cart| - 1;
    if k < n {
      QuantityOfAt(cart[..n], k);
    } else {
      QuantityOfAbsent(cart[..n], cart[k].productId);
    }
  }

  lemma {:induction false} QuantityOfAbsent(cart: seq<CartLine>, id: ProductId)
    requires forall i | 0 <= i < |cart| :: cart[i].productId != id
    ensures QuantityOf(cart, id) == 0
  {
    if cart != [] {
      QuantityOfAbsent(cart[..|cart| - 1], id);
    }
  }

  /** `cart.map(item => item.product_id === id ? { ...item, quantity: f(item.quantity) } : item)`. */
  function Bump(cart: seq<CartLine>, id: ProductId, f: int -> int): (r: seq<CartLine>)
    ensures |r| == |cart|
  {
    if cart == [] then []
    else
      var last := cart[|cart| - 1];
      Bump(cart[..|cart| - 1], id, f) + [if last.productId == id then last.(quantity := f(last.quantity)) else last]
  }

  lemma {:induction false} BumpAt(cart: seq<CartLine>, id: ProductId, f: int -> int)
    ensures forall i | 0 <= i < |cart| ::
      Bump(cart, id, f)[i] == if cart[i].productId == id then cart[i].(quantity := f(cart[i].quantity)) else cart[i]
  {
    if cart != [] {
      BumpAt(cart[..|cart| - 1], id, f);
    }
  }

  lemma BumpKeepsDistinct(cart: seq<CartLine>, id: ProductId, f: int -> int)
    requires LinesDistinct(cart)
    ensures LinesDistinct(Bump(cart, id, f))
  {
    BumpAt(cart, id, f);
    assert forall i | 0 <= i < |cart| :: Bump(cart, id, f)[i].productId == cart[i].productId;
  }

  /** The changed line carries the new quantity. */
  lemma BumpQuantity(cart: seq<CartLine>, k: nat, f: int -> int)
    requires LinesDistinct(cart) && k < |cart|
    ensures QuantityOf(Bump(cart, cart[k].productId, f), cart[k].productId) == f(cart[k].quantity)
  {
    BumpKeepsDistinct(cart, cart[k].productId, f);
    BumpAt(cart, cart[k].productId, f);
    QuantityOfAt(Bump(cart, cart[k].productId, f), k);
  }

  /** One more unit on one product's line raises the total by that line's price. */
  lemma {:induction false} OneMoreTotal(cart: seq<CartLine>, k: nat)
    requires LinesDistinct(cart) && k < |cart|
    ensures GetTotal(Bump(cart, cart[k].productId, OneMore)) == GetTotal(cart) + cart[k].price
  {
    var n := |cart| - 1;
    var id := cart[k].productId;
    var front := Bump(cart[..n], id, OneMore);
    var last := if cart[n].productId == id then cart[n].(quantity := cart[n].quantity + 1) else cart[n];
    assert Bump(cart, id, OneMore) == front + [last];
    TotalAppend(front, last);
    if k < n {
      OneMoreTotal(cart[..n], k);
      assert last == cart[n];
    } else {
      BumpAt(cart[..n], id, OneMore);
      assert front == cart[..n];
      Distribute(cart[k].price, cart[k].quantity);
    }
  }

  /** Proof helper: the total of a cart with one more line at the end. */
  lemma TotalAppend(cart: seq<CartLine>, line: CartLine)
    ensures GetTotal(cart + [line]) == GetTotal(cart) + line.price * line.quantity
  {
    assert (cart + [line])[..|cart|] == cart;
  }

  /** Proof helper (arithmetic): one more unit costs one more price. */
  lemma Distribute(a: int, b: int)
    ensures a * (b + 1) == a * b + a
  {
  }

  /** Changing one product's line leaves every other product's quantity alone. */
  lemma {:induction false} BumpOther(cart: seq<CartLine>, id: ProductId, f: int -> int, x: ProductId)
    requires x != id
    ensures QuantityOf(Bump(cart, id, f), x) == QuantityOf(cart, x)
  {
    if cart != [] {
      var n := |cart| - 1;
      assert Bump(cart, id, f)[..n] == Bump(cart[..n], id, f);
      BumpOther(cart[..n], id, f, x);
    }
  }

  /** `item.quantity + 1`. */
  function OneMore(q: int): int {
    q + 1
  }

  /** `quantity: newQuantity`, whatever the old quantity. */
  function SetTo(n: int): int -> int {
    (q: int) => n
  }

  /** `cart.filter(item => item.product_id !== id)`. */
  function WithoutProduct(cart: seq<CartLine>, id: ProductId): seq<CartLine> {
    if cart == [] then []
    else
      var last := cart[|cart| - 1];
      WithoutProduct(cart[..|cart| - 1], id) + (if last.productId != id then [last] else [])
  }

  /** Removal keeps exactly the lines of the other products. */
  lemma {:induction false} WithoutMembers(cart: seq<CartLine>, id: ProductId)
    ensures forall x | x in WithoutProduct(cart, id) :: x in cart && x.productId != id
    ensures forall x | x in cart && x.productId != id :: x in WithoutProduct(cart, id)
  {
    if cart != [] {
      var n := |cart| - 1;
      WithoutMembers(cart[..n], id);
      assert cart == cart[..n] + [cart[n]];
    }
  }

  /** Proof helper: a product's quantity in a cart with one more line at the end. */
  lemma QuantityOfAppend(cart: seq<CartLine>, line: CartLine, x: ProductId)
    ensures QuantityOf(cart + [line], x) == QuantityOf(cart, x) + (if line.productId == x then line.quantity else 0)
  {
    assert (cart + [line])[..|cart|] == cart;
  }

  /** Removal keeps the other products' quantities. */
  lemma {:induction false} WithoutOther(cart: seq<CartLine>, id: ProductId, x: ProductId)
    requires x != id
    ensures QuantityOf(WithoutProduct(cart, id), x) == QuantityOf(cart, x)
  {
    if cart != [] {
      var n := |cart| - 1;
      var front := WithoutProduct(cart[..n], id);
      WithoutOther(cart[..n], id, x);
      if cart[n].productId != id {
        QuantityOfAppend(front, cart[n], x);
      } else {
        assert WithoutProduct(cart, id) == front;
      }
    }
  }

  /** Without a line for the product, removal changes nothing. */
  lemma {:induction false} WithoutAbsent(cart: seq<CartLine>, id: ProductId)
    requires forall k | 0 <= k < |cart| :: cart[k].productId != id
    ensures WithoutProduct(cart, id) == cart
  {
    if cart != [] {
      var n := |cart| - 1;
      WithoutAbsent(cart[..n], id);
      assert cart[..n] + [cart[n]] == cart;
    }
  }

  /** With one line per product, removal cuts exactly that line out and
      keeps the others in their order. */
  lemma {:induction false} WithoutAt(cart: seq<CartLine>, k: nat)
    requires LinesDistinct(cart) && k < |cart|
    ensures WithoutProduct(cart, cart[k].productId) == cart[..k] + cart[k + 1..]
  {
    var n := |cart| - 1;
    var id := cart[k].productId;
    if k == n {
      WithoutAbsent(cart[..n], id);
      assert WithoutProduct(cart, id) == cart[..n] + [];
    } else {
      WithoutAt(cart[..n], k);
      assert cart[..n][..k] == cart[..k];
      assert cart[..n][k + 1..] + [cart[n]] == cart[k + 1..];
    }
  }

  lemma {:induction false} WithoutKeepsDistinct(cart: seq<CartLine>, id: ProductId)
    requires LinesDistinct(cart)
    ensures LinesDistinct(WithoutProduct(cart, id))
  {
    if cart != [] {
      var n := |cart| - 1;
      var front := WithoutProduct(cart[..n], id);
      WithoutKeepsDistinct(cart[..n], id);
      WithoutMembers(cart[..n], id);
      forall i | 0 <= i < |front|
        ensures front[i].productId != cart[n].productId
      {
        assert front[i] in front;
      }
    }
  }

  // ----- The cart invariant -----

  /** A line fits the catalog: its product is listed, its quantity is at
      least 1 and at most that product's stock, and it carries the product's price. */
  predicate LineFits(products: seq<PosProduct>, line: CartLine) {
    var p := FindProduct(products, line.productId);
    p.Some? && 1 <= line.quantity <= p.value.stock && line.price == p.value.price
  }

  /** The cart holds at most one line per product, and every line fits. */
  predicate CartValid(s: PosState) {
    LinesDistinct(s.cart) && forall i | 0 <= i < |s.cart| :: LineFits(s.products, s.cart[i])
  }

  // ----- The handlers -----

  /** addToCart: a product already in the cart gets one more unit unless its
      quantity has reached the stock; a new product gets a line of quantity 1
      unless it is out of stock. */
  function AddToCart(s: PosState, product: PosProduct): PosState {
    match FindLine(s.cart, product.productId)
    case Some(existing) =>
      if existing.quantity >= product.stock then s
      else s.(cart := Bump(s.cart, product.productId, OneMore))
    case None =>
      if product.stock <= 0 then s
      else s.(cart := s.cart + [CartLine(product.productId, product.name, product.price, 1, product.stock)])
  }

  /** updateQuantity: a quantity of 0 or less removes the line; more than the
      fetched product's stock changes nothing; otherwise the line takes the new
      quantity. An id missing from the fetched products makes the handler fail
      before it sets the cart, so the state stays as it was. */
  function UpdateQuantity(s: PosState, id: ProductId, newQuantity: int): PosState {
    if newQuantity <= 0 then RemoveFromCart(s, id)
    else
      match FindProduct(s.products, id)
      case None => s
      case Some(p) =>
        if newQuantity > p.stock then s
        else s.(cart := Bump(s.cart, id, SetTo(newQuantity)))
  }

  function RemoveFromCart(s: PosState, id: ProductId): PosState {
    s.(cart := WithoutProduct(s.cart, id))
  }

  /** clearCart: an empty cart and a walk-in customer. */
  function ClearCart(s: PosState): (r: PosState)
    ensures r.cart == [] && r.selectedCustomer == ""
    ensures CartValid(r) && GetTotal(r.cart) == 0 && CheckoutRequest(r).None?
    ensures r.products == s.products
  {
    s.(cart := [], selectedCustomer := "")
  }

  /** The `items` of the posted body: the cart lines in order. */
  function Payload(cart: seq<CartLine>): (items: seq<SaleController.LineRequest>)
    ensures |items| == |cart|
  {
    if cart == [] then []
    else Payload(cart[..|cart| - 1]) + [SaleController.LineRequest(cart[|cart| - 1].productId, cart[|cart| - 1].quantity)]
  }

  lemma {:induction false} PayloadAt(cart: seq<CartLine>)
    ensures forall i | 0 <= i < |cart| :: Payload(cart)[i] == SaleController.LineRequest(cart[i].productId, cart[i].quantity)
  {
    if cart != [] {
      PayloadAt(cart[..|cart| - 1]);
    }
  }

  /** handleCheckout's request: nothing for an empty cart, otherwise the
      selected customer (null for walk-in) and the cart lines. */
  function CheckoutRequest(s: PosState): (r: Option<SaleRequest>)
    ensures r.None? <==> s.cart == []
    ensures r.Some? ==> |r.value.items| == |s.cart| && (r.value.userId.None? <==> s.selectedCustomer == "")
  {
    if s.cart == [] then None
    else Some(SaleRequest(if s.selectedCustomer == "" then None else Some(s.selectedCustomer), Payload(s.cart)))
  }

  /** The cart is cleared only once the sale was accepted. */
  function AfterCheckout(s: PosState, accepted: bool): PosState {
    if accepted then ClearCart(s) else s
  }

  // ----- Properties -----

  /** Adding a product from the catalog keeps the invariant. */
  lemma AddToCartKeepsValid(s: PosState, p: PosProduct)
    requires CartValid(s) && CatalogDistinct(s.products) && p in s.products
    ensures CartValid(AddToCart(s, p))
  {
    FindProductOf(s.products, p);
    if k :| 0 <= k < |s.cart| && s.cart[k].productId == p.productId {
      FindLineAt(s.cart, k);
      if s.cart[k].quantity < p.stock {
        OneMoreKeepsValid(s, p, k);
      }
    } else if p.stock > 0 {
      NewLineKeepsValid(s, p);
    }
  }

  /** A first line of quantity 1 for an in-stock product keeps the invariant. */
  lemma NewLineKeepsValid(s: PosState, p: PosProduct)
    requires CartValid(s) && FindProduct(s.products, p.productId) == Some(p) && p.stock > 0
    requires forall i | 0 <= i < |s.cart| :: s.cart[i].productId != p.productId
    ensures CartValid(s.(cart := s.cart + [CartLine(p.productId, p.name, p.price, 1, p.stock)]))
  {
    var t := s.cart + [CartLine(p.productId, p.name, p.price, 1, p.stock)];
    forall i | 0 <= i < |t|
      ensures LineFits(s.products, t[i])
    {
      if i < |s.cart| {
        assert t[i] == s.cart[i];
      }
    }
  }

  /** One more unit of a line below its product's stock keeps the invariant. */
  lemma OneMoreKeepsValid(s: PosState, p: PosProduct, k: nat)
    requires CartValid(s) && k < |s.cart| && s.cart[k].productId == p.productId
    requires FindProduct(s.products, p.productId) == Some(p) && s.cart[k].quantity < p.stock
    ensures CartValid(s.(cart := Bump(s.cart, p.productId, OneMore)))
  {
    var t := Bump(s.cart, p.productId, OneMore);
    BumpAt(s.cart, p.productId, OneMore);
    BumpKeepsDistinct(s.cart, p.productId, OneMore);
    forall i | 0 <= i < |t|
      ensures LineFits(s.products, t[i])
    {
      if s.cart[i].productId == p.productId {
        assert i == k;
      }
    }
  }

  /** Adding raises the product's quantity by one exactly when it is below
      the stock (0 counting as below for a product not yet in the cart), the
      total by the product's price, and changes no other product. */
  lemma AddToCartEffect(s: PosState, p: PosProduct)
    requires CartValid(s) && CatalogDistinct(s.products) && p in s.products
    ensures var t := AddToCart(s, p);
      var added := QuantityOf(s.cart, p.productId) < p.stock;
      && QuantityOf(t.cart, p.productId) == QuantityOf(s.cart, p.productId) + (if added then 1 else 0)
      && GetTotal(t.cart) == GetTotal(s.cart) + (if added then p.price else 0)
      && (forall x | x != p.productId :: QuantityOf(t.cart, x) == QuantityOf(s.cart, x))
      && t.products == s.products && t.selectedCustomer == s.selectedCustomer
  {
    FindProductOf(s.products, p);
    if k :| 0 <= k < |s.cart| && s.cart[k].productId == p.productId {
      AddExisting(s, p, k);
    } else {
      AddNew(s, p);
    }
  }

  lemma AddExisting(s: PosState, p: PosProduct, k: nat)
    requires CartValid(s) && k < |s.cart| && s.cart[k].productId == p.productId && s.cart[k].price == p.price
    ensures var t := AddToCart(s, p);
      var added := QuantityOf(s.cart, p.productId) < p.stock;
      && QuantityOf(t.cart, p.productId) == QuantityOf(s.cart, p.productId) + (if added then 1 else 0)
      && GetTotal(t.cart) == GetTotal(s.cart) + (if added then p.price else 0)
      && (forall x | x != p.productId :: QuantityOf(t.cart, x) == QuantityOf(s.cart, x))
      && t.products == s.products && t.selectedCustomer == s.selectedCustomer
  {
    FindLineAt(s.cart, k);
    QuantityOfAt(s.cart, k);
    if s.cart[k].quantity < p.stock {
      OneMoreEffect(s.cart, k);
    }
  }

  /** One more unit of an existing line: its product's quantity and the
      total grow by one unit, the other products stay. */
  lemma OneMoreEffect(cart: seq<CartLine>, k: nat)
    requires LinesDistinct(cart) && k < |cart|
    ensures var t := Bump(cart, cart[k].productId, OneMore);
      && QuantityOf(t, cart[k].productId) == cart[k].quantity + 1
      && GetTotal(t) == GetTotal(cart) + cart[k].price
      && (forall x | x != cart[k].productId :: QuantityOf(t, x) == QuantityOf(cart, x))
  {
    OneMoreTotal(cart, k);
    BumpQuantity(cart, k, OneMore);
    forall x | x != cart[k].productId
      ensures QuantityOf(Bump(cart, cart[k].productId, OneMore), x) == QuantityOf(cart, x)
    {
      BumpOther(cart, cart[k].productId, OneMore, x);
    }
  }

  lemma AddNew(s: PosState, p: PosProduct)
    requires forall i | 0 <= i < |s.cart| :: s.cart[i].productId != p.productId
    ensures var t := AddToCart(s, p);
      var added := QuantityOf(s.cart, p.productId) < p.stock;
      && QuantityOf(t.cart, p.productId) == QuantityOf(s.cart, p.productId) + (if added then 1 else 0)
      && GetTotal(t.cart) == GetTotal(s.cart) + (if added then p.price else 0)
      && (forall x | x != p.productId :: QuantityOf(t.cart, x) == QuantityOf(s.cart, x))
      && t.products == s.products && t.selectedCustomer == s.selectedCustomer
  {
    var t := AddToCart(s, p);
    QuantityOfAbsent(s.cart, p.productId);
    if p.stock > 0 {
      assert t.cart[..|s.cart|] == s.cart;
    }
  }

  /** Setting a quantity keeps the invariant. */
  lemma UpdateQuantityKeepsValid(s: PosState, id: ProductId, q: int)
    requires CartValid(s)
    ensures CartValid(UpdateQuantity(s, id, q))
  {
    var t := UpdateQuantity(s, id, q);
    if q <= 0 {
      WithoutKeepsDistinct(s.cart, id);
      WithoutMembers(s.cart, id);
      forall i | 0 <= i < |t.cart|
        ensures LineFits(t.products, t.cart[i])
      {
        assert t.cart[i] in t.cart;
        var j :| 0 <= j < |s.cart| && s.cart[j] == t.cart[i];
      }
    } else if t != s {
      BumpAt(s.cart, id, SetTo(q));
      assert forall i | 0 <= i < |s.cart| :: t.cart[i].productId == s.cart[i].productId;
    }
  }

  /** Setting a quantity: 0 or less empties the product's line, more than
      its stock (or an unknown product) changes nothing, anything else
      becomes the line's quantity; other products are never touched. */
  lemma UpdateQuantityEffect(s: PosState, id: ProductId, q: int)
    requires CartValid(s)
    ensures var t := UpdateQuantity(s, id, q);
      && (q <= 0 ==> QuantityOf(t.cart, id) == 0)
      && (q > 0 && (FindProduct(s.products, id).None? || q > FindProduct(s.products, id).value.stock) ==> t == s)
      && (q > 0 && FindProduct(s.products, id).Some? && q <= FindProduct(s.products, id).value.stock ==>
            QuantityOf(t.cart, id) == (if QuantityOf(s.cart, id) > 0 then q else 0))
      && (forall x | x != id :: QuantityOf(t.cart, x) == QuantityOf(s.cart, x))
  {
    var t := UpdateQuantity(s, id, q);
    if q <= 0 {
      WithoutMembers(s.cart, id);
      QuantityOfAbsent(t.cart, id) by {
        forall i | 0 <= i < |t.cart| ensures t.cart[i].productId != id {
          assert t.cart[i] in t.cart;
        }
      }
      forall x | x != id
        ensures QuantityOf(t.cart, x) == QuantityOf(s.cart, x)
      {
        WithoutOther(s.cart, id, x);
      }
    } else if FindProduct(s.products, id).Some? && q <= FindProduct(s.products, id).value.stock {
      SetToEffect(s.cart, id, q);
    }
  }

  /** Setting one product's quantity: its quantity becomes `q` if it has a
      line, stays 0 if not, and the other products stay. */
  lemma SetToEffect(cart: seq<CartLine>, id: ProductId, q: int)
    requires LinesDistinct(cart) && forall i | 0 <= i < |cart| :: cart[i].quantity >= 1
    ensures var t := Bump(cart, id, SetTo(q));
      && QuantityOf(t, id) == (if QuantityOf(cart, id) > 0 then q else 0)
      && (forall x | x != id :: QuantityOf(t, x) == QuantityOf(cart, x))
  {
    var fixed := SetTo(q);
    forall x | x != id
      ensures QuantityOf(Bump(cart, id, fixed), x) == QuantityOf(cart, x)
    {
      BumpOther(cart, id, fixed, x);
    }
    if k :| 0 <= k < |cart| && cart[k].productId == id {
      QuantityOfAt(cart, k);
      SetToAt(cart, k, q);
    } else {
      QuantityOfAbsent(cart, id);
      BumpAt(cart, id, fixed);
      QuantityOfAbsent(Bump(cart, id, fixed), id);
    }
  }

  lemma SetToAt(cart: seq<CartLine>, k: nat, q: int)
    requires LinesDistinct(cart) && k < |cart|
    ensures QuantityOf(Bump(cart, cart[k].productId, SetTo(q)), cart[k].productId) == q
  {
    BumpQuantity(cart, k, SetTo(q));
  }

  /** Removing a product: no line of it is left, the others keep their
      quantities, and with one line per product exactly that line is cut out. */
  lemma RemoveFromCartEffect(s: PosState, id: ProductId)
    requires CartValid(s)
    ensures var t := RemoveFromCart(s, id);
      && (forall i | 0 <= i < |t.cart| :: t.cart[i].productId != id)
      && (forall x | x != id :: QuantityOf(t.cart, x) == QuantityOf(s.cart, x))
      && (forall k | 0 <= k < |s.cart| && s.cart[k].productId == id :: t.cart == s.cart[..k] + s.cart[k + 1..])
      && ((forall k | 0 <= k < |s.cart| :: s.cart[k].productId != id) ==> t == s)
      && CartValid(t)
  {
    var t := RemoveFromCart(s, id);
    WithoutMembers(s.cart, id);
    forall i | 0 <= i < |t.cart|
      ensures t.cart[i].productId != id
    {
      assert t.cart[i] in t.cart;
    }
    forall x | x != id
      ensures QuantityOf(t.cart, x) == QuantityOf(s.cart, x)
    {
      WithoutOther(s.cart, id, x);
    }
    forall k | 0 <= k < |s.cart| && s.cart[k].productId == id
      ensures t.cart == s.cart[..k] + s.cart[k + 1..]
    {
      WithoutAt(s.cart, k);
    }
    if forall k | 0 <= k < |s.cart| :: s.cart[k].productId != id {
      WithoutAbsent(s.cart, id);
    }
    UpdateQuantityKeepsValid(s, id, 0);
  }

  /** The total of a cart whose lines fit is never negative. */
  lemma {:induction false} TotalNonNegative(cart: seq<CartLine>)
    requires forall i | 0 <= i < |cart| :: cart[i].quantity >= 1
    ensures GetTotal(cart) >= 0
  {
    if cart != [] {
      TotalNonNegative(cart[..|cart| - 1]);
    }
  }

  /** What the page posts from a valid cart names each product once, with a
      quantity of at least 1 — so the server's double-decrement on repeated
      products (SaleController.OversellWhenProductRepeats) cannot arise from this page. */
  lemma CheckoutPayloadSafe(s: PosState)
    requires CartValid(s) && s.cart != []
    ensures var items := CheckoutRequest(s).value.items;
      && SaleController.DistinctProducts(items)
      && forall i | 0 <= i < |items| :: items[i].quantity >= 1
  {
    PayloadAt(s.cart);
  }

  /** When the server's stock still matches what the page fetched, every
      posted line passes the server's stock check. */
  lemma CheckoutPassesStockCheck(s: PosState, products: map<ProductId, Product>)
    requires CartValid(s) && s.cart != []
    requires forall i | 0 <= i < |s.products| ::
      s.products[i].productId in products && products[s.products[i].productId].stock == s.products[i].stock
    ensures SaleController.AllAvailable(products, CheckoutRequest(s).value.items)
  {
    PayloadAt(s.cart);
    var items := CheckoutRequest(s).value.items;
    forall i | 0 <= i < |items|
      ensures SaleController.LineAvailable(products, items[i])
    {
      assert LineFits(s.products, s.cart[i]);
      var p := FindProduct(s.products, s.cart[i].productId).value;
      var j :| 0 <= j < |s.products| && s.products[j] == p;
    }
  }

  /** When the server's prices still match the cart's, the server charges
      exactly the total the page shows. */
  lemma {:induction false} CheckoutTotalAgrees(cart: seq<CartLine>, products: map<ProductId, Product>)
    requires forall i | 0 <= i < |cart| :: cart[i].productId in products && products[cart[i].productId].price == cart[i].price
    ensures forall i | 0 <= i < |cart| :: Payload(cart)[i].productId in products
    ensures SaleController.LinesTotal(products, Payload(cart)) == GetTotal(cart)
  {
    PayloadAt(cart);
    if cart != [] {
      var n := |cart| - 1;
      CheckoutTotalAgrees(cart[..n], products);
      assert Payload(cart)[..n] == Payload(cart[..n]);
    }
  }

  /** After an accepted sale the cart is empty and there is nothing to post
      again; after a refused one the cart is kept for another try. */
  lemma CheckoutNotRepeated(s: PosState)
    ensures CheckoutRequest(AfterCheckout(s, true)).None?
    ensures AfterCheckout(s, true).selectedCustomer == ""
    ensures AfterCheckout(s, false) == s
  {
  }
}
