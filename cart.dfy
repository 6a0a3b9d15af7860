/** The cart engine: the updaters the point-of-sale screen passes to
    `setCart` (each maps the previous line list to the next one) and the
    aggregates read from the current lines. */
module Cart {
  import opened Wrappers
  import opened Numeric
  import opened Seqs
  import opened Domain

  /** The invariant every updater keeps: no product appears on two lines. */
  predicate DistinctIds(cart: seq<Line>) {
    forall i, j :: 0 <= i < j < |cart| ==> cart[i].item.id != cart[j].item.id
  }

  /** `cart.find(i => i.id === id)`, as the position of the first such line. */
  function FindLine(cart: seq<Line>, id: string): (r: Option<nat>)
    ensures r.Some? ==> r.value < |cart| && cart[r.value].item.id == id
    ensures forall j :: 0 <= j < |cart| && (r.None? || j < r.value) ==> cart[j].item.id != id
  {
    if cart == [] then None
    else if cart[0].item.id == id then Some(0)
    else match FindLine(cart[1..], id)
      case None => None
      case Some(k) => Some(k + 1)
  }

  // ---------------------------------------------------------------------------
  // Add and remove

  /** `prev.map(i => i.id === id ? { ...i, qty: i.qty + 1 } : i)` */
  function IncrementWhere(cart: seq<Line>, id: string): seq<Line> {
    seq(|cart|, j requires 0 <= j < |cart| =>
      if cart[j].item.id == id then cart[j].(qty := cart[j].qty + 1) else cart[j])
  }

  /** Add one unit of `item`: nothing when it is out of stock or its line is
      already at the product's stock, one more on its line when it has one,
      otherwise a new line with quantity 1 at the end. */
  function AddToCart(cart: seq<Line>, item: Product): seq<Line> {
    if item.stock <= 0 then cart
    else match FindLine(cart, item.id)
      case Some(k) => if cart[k].qty >= item.stock then cart else IncrementWhere(cart, item.id)
      case None => cart + [Line(item, 1)]
  }

  /** `prev.filter(i => i.id !== id)` */
  function RemoveFromCart(cart: seq<Line>, id: string): seq<Line> {
    Keep(cart, (l: Line) => l.item.id != id)
  }

  // ---------------------------------------------------------------------------
  // Quantity changes

  /** The two ways the screen changes a quantity: the -/+ buttons pass a
      relative step, the number field passes its text. */
  datatype QtyInput = Delta(step: int) | Direct(text: string)

  /** The per-line arrow function of `updateCartQty`; `None` is the `null`
      that the following `filter(Boolean)` drops. The stock ceiling is the
      product's stock in the live catalog, not the copy on the line. */
  function UpdatedLine(line: Line, catalog: seq<Product>, input: QtyInput): Option<Line> {
    var newQty := match input
      case Delta(d) => line.qty + d
      case Direct(t) => ParseIntOrZero(t);
    if newQty <= 0 && input.Delta? then None
    else match FindProduct(catalog, line.item.id)
      case Some(p) =>
        if newQty > p.stock then Some(line.(qty := p.stock)) else Some(line.(qty := Max(1, newQty)))
      case None => Some(line.(qty := Max(1, newQty)))
  }

  /** `updateCartQty(id, input)`: rewrite every line of product `id` with
      `UpdatedLine`, dropping the ones it removes, and keep the others. */
  function UpdateCartQty(cart: seq<Line>, catalog: seq<Product>, id: string, input: QtyInput): seq<Line> {
    if cart == [] then []
    else UpdatedAt(cart[0], catalog, id, input) + UpdateCartQty(cart[1..], catalog, id, input)
  }

  function UpdatedAt(line: Line, catalog: seq<Product>, id: string, input: QtyInput): seq<Line> {
    if line.item.id != id then [line]
    else match UpdatedLine(line, catalog, input)
      case None => []
      case Some(l) => [l]
  }

  // ---------------------------------------------------------------------------
  // Aggregates

  function Subtotal(l: Line): int {
    l.item.price * l.qty
  }

  /** `cart.reduce((acc, i) => acc + i.price * i.qty, 0)`, folded from the left. */
  function CartTotal(cart: seq<Line>): int {
    if cart == [] then 0 else CartTotal(cart[..|cart| - 1]) + Subtotal(cart[|cart| - 1])
  }

  /** `cart.reduce((acc, i) => acc + i.qty, 0)` */
  function ItemCount(cart: seq<Line>): int {
    if cart == [] then 0 else ItemCount(cart[..|cart| - 1]) + cart[|cart| - 1].qty
  }

  /** Both aggregates are additive over the line list, so they depend on the
      current lines only and not on the order of the fold. */
  lemma {:induction false} AggregatesConcat(a: seq<Line>, b: seq<Line>)
    ensures CartTotal(a + b) == CartTotal(a) + CartTotal(b)
    ensures ItemCount(a + b) == ItemCount(a) + ItemCount(b)
  {
    if b == [] {
      assert a + b == a;
    } else {
      var c := a + b;
      assert c[..|c| - 1] == a + b[..|b| - 1];
      assert c[|c| - 1] == b[|b| - 1];
      AggregatesConcat(a, b[..|b| - 1]);
    }
  }

  /** The aggregates split around any one line. */
  lemma AggregatesSplit(cart: seq<Line>, k: nat)
    requires k < |cart|
    ensures CartTotal(cart) == CartTotal(cart[..k]) + Subtotal(cart[k]) + CartTotal(cart[k + 1..])
    ensures ItemCount(cart) == ItemCount(cart[..k]) + cart[k].qty + ItemCount(cart[k + 1..])
  {
    assert cart == cart[..k] + [cart[k]] + cart[k + 1..];
    AggregatesConcat(cart[..k] + [cart[k]], cart[k + 1..]);
    AggregatesConcat(cart[..k], [cart[k]]);
    assert CartTotal([cart[k]]) == Subtotal(cart[k]) by {
      assert [cart[k]][..0] == [];
    }
    assert ItemCount([cart[k]]) == cart[k].qty by {
      assert [cart[k]][..0] == [];
    }
  }

  /** Replacing one line changes the total by the difference of the two
      subtotals, and the item count by the difference of the quantities. */
  lemma AggregatesReplace(cart: seq<Line>, k: nat, l: Line)
    requires k < |cart|
    ensures CartTotal(cart[k := l]) == CartTotal(cart) - Subtotal(cart[k]) + Subtotal(l)
    ensures ItemCount(cart[k := l]) == ItemCount(cart) - cart[k].qty + l.qty
  {
    var c := cart[k := l];
    assert c[..k] == cart[..k] && c[k + 1..] == cart[k + 1..];
    AggregatesSplit(cart, k);
    AggregatesSplit(c, k);
  }

  /** One more unit on one line adds that line's price to the total and 1
      to the item count. */
  lemma AggregatesOneMore(cart: seq<Line>, k: nat)
    requires k < |cart|
    ensures CartTotal(cart[k := cart[k].(qty := cart[k].qty + 1)]) == CartTotal(cart) + cart[k].item.price
    ensures ItemCount(cart[k := cart[k].(qty := cart[k].qty + 1)]) == ItemCount(cart) + 1
  {
    var l := cart[k].(qty := cart[k].qty + 1);
    AggregatesReplace(cart, k, l);
    var pr, q := cart[k].item.price, cart[k].qty;
    assert Subtotal(l) == pr * (q + 1);
    assert pr * (q + 1) == pr * q + pr;
  }

  /** Dropping one line takes its subtotal and quantity off the aggregates. */
  lemma AggregatesDrop(cart: seq<Line>, k: nat)
    requires k < |cart|
    ensures CartTotal(cart[..k] + cart[k + 1..]) == CartTotal(cart) - Subtotal(cart[k])
    ensures ItemCount(cart[..k] + cart[k + 1..]) == ItemCount(cart) - cart[k].qty
  {
    AggregatesSplit(cart, k);
    AggregatesConcat(cart[..k], cart[k + 1..]);
  }

  /** Appending a line adds its subtotal and quantity. */
  lemma AggregatesAppend(cart: seq<Line>, l: Line)
    ensures CartTotal(cart + [l]) == CartTotal(cart) + Subtotal(l)
    ensures ItemCount(cart + [l]) == ItemCount(cart) + l.qty
  {
    assert (cart + [l])[..|cart|] == cart;
  }

  // ---------------------------------------------------------------------------
  // What the updaters do

  /** With distinct ids, the lookup finds the line at that id's position. */
  lemma FindLineAt(cart: seq<Line>, k: nat)
    requires DistinctIds(cart)
    requires k < |cart|
    ensures FindLine(cart, cart[k].item.id) == Some(k)
  {
  }

  lemma IncrementAt(cart: seq<Line>, k: nat)
    requires DistinctIds(cart)
    requires k < |cart|
    ensures IncrementWhere(cart, cart[k].item.id) == cart[k := cart[k].(qty := cart[k].qty + 1)]
  {
    var inc := IncrementWhere(cart, cart[k].item.id);
    forall j | 0 <= j < |cart|
      ensures inc[j] == cart[k := cart[k].(qty := cart[k].qty + 1)][j]
    {
      if j != k {
        assert cart[j].item.id != cart[k].item.id;
      }
    }
  }

  /** Changing the quantity of one line keeps the ids distinct. */
  lemma ReplaceQtyKeepsDistinct(cart: seq<Line>, k: nat, qty: int)
    requires DistinctIds(cart)
    requires k < |cart|
    ensures DistinctIds(cart[k := cart[k].(qty := qty)])
  {
    var c := cart[k := cart[k].(qty := qty)];
    assert forall j :: 0 <= j < |c| ==> c[j].item.id == cart[j].item.id;
  }

  lemma AddToCartAtStock(cart: seq<Line>, item: Product, k: nat)
    requires DistinctIds(cart)
    requires k < |cart| && cart[k].item.id == item.id
    requires item.stock <= 0 || cart[k].qty >= item.stock
    ensures AddToCart(cart, item) == cart
  {
    FindLineAt(cart, k);
  }

  lemma AddToCartIncrements(cart: seq<Line>, item: Product, k: nat)
    requires DistinctIds(cart)
    requires k < |cart| && cart[k].item.id == item.id
    requires 0 < item.stock && cart[k].qty < item.stock
    ensures AddToCart(cart, item) == cart[k := cart[k].(qty := cart[k].qty + 1)]
  {
    FindLineAt(cart, k);
    IncrementAt(cart, k);
  }

  /** Adding a product that already has a line: the cart is unchanged when
      the product is out of stock or the line is at the stock, otherwise that
      line alone gains one unit (the total grows by the line's own price). */
  lemma AddToCartExisting(cart: seq<Line>, item: Product, k: nat)
    requires DistinctIds(cart)
    requires k < |cart| && cart[k].item.id == item.id
    ensures var r := AddToCart(cart, item);
      && (item.stock <= 0 || cart[k].qty >= item.stock ==> r == cart)
      && (0 < item.stock && cart[k].qty < item.stock ==>
          && r == cart[k := cart[k].(qty := cart[k].qty + 1)]
          && CartTotal(r) == CartTotal(cart) + cart[k].item.price
          && ItemCount(r) == ItemCount(cart) + 1)
      && DistinctIds(r)
  {
    if 0 < item.stock && cart[k].qty < item.stock {
      var l := cart[k].(qty := cart[k].qty + 1);
      AddToCartIncrements(cart, item, k);
      ReplaceQtyKeepsDistinct(cart, k, l.qty);
      AggregatesOneMore(cart, k);
    } else {
      AddToCartAtStock(cart, item, k);
    }
  }

  /** Adding a product with no line appends a line of quantity 1 when the
      product is in stock, and does nothing otherwise. */
  lemma AddToCartNew(cart: seq<Line>, item: Product)
    requires DistinctIds(cart)
    requires forall j :: 0 <= j < |cart| ==> cart[j].item.id != item.id
    ensures AddToCart(cart, item) == if item.stock <= 0 then cart else cart + [Line(item, 1)]
    ensures DistinctIds(AddToCart(cart, item))
    ensures item.stock > 0 ==> CartTotal(AddToCart(cart, item)) == CartTotal(cart) + item.price
    ensures item.stock > 0 ==> ItemCount(AddToCart(cart, item)) == ItemCount(cart) + 1
  {
    if item.stock > 0 {
      AggregatesAppend(cart, Line(item, 1));
    }
  }

  /** Dropping one line keeps the ids distinct. */
  lemma DropKeepsDistinct(cart: seq<Line>, k: nat)
    requires DistinctIds(cart)
    requires k < |cart|
    ensures DistinctIds(cart[..k] + cart[k + 1..])
  {
    var r := cart[..k] + cart[k + 1..];
    assert forall i :: 0 <= i < |r| ==> r[i] == if i < k then cart[i] else cart[i + 1];
  }

  lemma RemoveFromCartIsDrop(cart: seq<Line>, k: nat)
    requires DistinctIds(cart)
    requires k < |cart|
    ensures RemoveFromCart(cart, cart[k].item.id) == cart[..k] + cart[k + 1..]
  {
    var id := cart[k].item.id;
    KeepDropsOne(cart, k, (l: Line) => l.item.id != id);
  }

  /** Removing a product drops exactly its line; the others keep their order,
      the ids stay distinct, and the aggregates lose that line's share. */
  lemma RemoveFromCartAt(cart: seq<Line>, k: nat)
    requires DistinctIds(cart)
    requires k < |cart|
    ensures RemoveFromCart(cart, cart[k].item.id) == cart[..k] + cart[k + 1..]
    ensures DistinctIds(RemoveFromCart(cart, cart[k].item.id))
    ensures CartTotal(RemoveFromCart(cart, cart[k].item.id)) == CartTotal(cart) - Subtotal(cart[k])
    ensures ItemCount(RemoveFromCart(cart, cart[k].item.id)) == ItemCount(cart) - cart[k].qty
  {
    RemoveFromCartIsDrop(cart, k);
    DropKeepsDistinct(cart, k);
    AggregatesDrop(cart, k);
  }

  /** Removing a product that has no line changes nothing. */
  lemma RemoveFromCartAbsent(cart: seq<Line>, id: string)
    requires forall j :: 0 <= j < |cart| ==> cart[j].item.id != id
    ensures RemoveFromCart(cart, id) == cart
  {
    KeepAll(cart, (l: Line) => l.item.id != id);
  }

  /** `updateCartQty` works line by line. */
  lemma {:induction false} UpdateCartQtyConcat(a: seq<Line>, b: seq<Line>, catalog: seq<Product>, id: string, input: QtyInput)
    ensures UpdateCartQty(a + b, catalog, id, input)
         == UpdateCartQty(a, catalog, id, input) + UpdateCartQty(b, catalog, id, input)
  {
    if a == [] {
      assert a + b == b;
    } else {
      assert (a + b)[1..] == a[1..] + b;
      UpdateCartQtyConcat(a[1..], b, catalog, id, input);
    }
  }

  /** Lines of other products are untouched. */
  lemma {:induction false} UpdateCartQtyAbsent(cart: seq<Line>, catalog: seq<Product>, id: string, input: QtyInput)
    requires forall j :: 0 <= j < |cart| ==> cart[j].item.id != id
    ensures UpdateCartQty(cart, catalog, id, input) == cart
  {
    if cart != [] {
      UpdateCartQtyAbsent(cart[1..], catalog, id, input);
    }
  }

  lemma UpdateCartQtyIsLocal(cart: seq<Line>, catalog: seq<Product>, k: nat, input: QtyInput)
    requires DistinctIds(cart)
    requires k < |cart|
    ensures UpdateCartQty(cart, catalog, cart[k].item.id, input)
         == cart[..k] + UpdatedAt(cart[k], catalog, cart[k].item.id, input) + cart[k + 1..]
  {
    var id := cart[k].item.id;
    assert cart == cart[..k] + [cart[k]] + cart[k + 1..];
    UpdateCartQtyConcat(cart[..k] + [cart[k]], cart[k + 1..], catalog, id, input);
    UpdateCartQtyConcat(cart[..k], [cart[k]], catalog, id, input);
    UpdateCartQtyAbsent(cart[..k], catalog, id, input);
    UpdateCartQtyAbsent(cart[k + 1..], catalog, id, input);
    assert UpdateCartQty([cart[k]], catalog, id, input) == UpdatedAt(cart[k], catalog, id, input);
  }

  /** With distinct ids, a quantity change rewrites (or drops) the one line
      of that product and leaves every other line where and as it was. */
  lemma UpdateCartQtyAt(cart: seq<Line>, catalog: seq<Product>, k: nat, input: QtyInput)
    requires DistinctIds(cart)
    requires k < |cart|
    ensures UpdateCartQty(cart, catalog, cart[k].item.id, input)
         == match UpdatedLine(cart[k], catalog, input)
            case None => cart[..k] + cart[k + 1..]
            case Some(l) => cart[k := l]
    ensures DistinctIds(UpdateCartQty(cart, catalog, cart[k].item.id, input))
  {
    UpdateCartQtyIsLocal(cart, catalog, k, input);
    match UpdatedLine(cart[k], catalog, input)
    case None =>
      DropKeepsDistinct(cart, k);
    case Some(l) =>
      assert l.item == cart[k].item;
      assert cart[..k] + [l] + cart[k + 1..] == cart[k := l];
      ReplaceQtyKeepsDistinct(cart, k, l.qty);
      assert cart[k := l] == cart[k := cart[k].(qty := l.qty)];
  }

  /** A relative step: a result of 0 or less removes the line; otherwise the
      new quantity is `qty + step`, capped at the product's live stock when
      the product is in the catalog (the cap applies even at stock 0), and
      nothing else on the line changes. */
  lemma RelativeStep(line: Line, catalog: seq<Product>, step: int)
    ensures line.qty + step <= 0 ==> UpdatedLine(line, catalog, Delta(step)) == None
    ensures line.qty + step > 0 ==>
      UpdatedLine(line, catalog, Delta(step)) == Some(line.(qty :=
        match FindProduct(catalog, line.item.id)
        case Some(p) => Min(line.qty + step, p.stock)
        case None => line.qty + step))
  {
  }

  /** Direct input never removes the line. The text is read with `parseInt`
      and unparseable text counts as 0. Without a catalog product the value is
      only floored at 1; with one, a value above the live stock becomes the
      stock, and any other value is floored at 1 — so the result lies in
      [1, stock] when the stock is at least 1, and is 1 even above a live
      stock of 0 or less when the value does not exceed that stock. */
  lemma DirectInput(line: Line, catalog: seq<Product>, text: string)
    ensures UpdatedLine(line, catalog, Direct(text)).Some?
    ensures UpdatedLine(line, catalog, Direct(text)).value.item == line.item
    ensures FindProduct(catalog, line.item.id).None? ==>
      UpdatedLine(line, catalog, Direct(text)).value.qty == Max(1, ParseIntOrZero(text))
    ensures FindProduct(catalog, line.item.id).Some? ==>
      var stock := FindProduct(catalog, line.item.id).value.stock;
      var q := UpdatedLine(line, catalog, Direct(text)).value.qty;
      && (ParseIntOrZero(text) > stock ==> q == stock)
      && (ParseIntOrZero(text) <= stock ==> q == Max(1, ParseIntOrZero(text)))
      && (stock >= 1 ==> 1 <= q <= stock)
    ensures ParseInt(text).None? ==>
      UpdatedLine(line, catalog, Direct(text)) == UpdatedLine(line, catalog, Direct("0"))
  {
    ParseIntRender(0, "");
    assert Render(0) + "" == "0";
  }

  // ---------------------------------------------------------------------------
  // The stock ceiling

  /** All three updaters keep the ids distinct, whatever product they are
      given. */
  lemma UpdatersKeepDistinct(cart: seq<Line>, catalog: seq<Product>, item: Product, id: string, input: QtyInput)
    requires DistinctIds(cart)
    ensures DistinctIds(AddToCart(cart, item))
    ensures DistinctIds(RemoveFromCart(cart, id))
    ensures DistinctIds(UpdateCartQty(cart, catalog, id, input))
  {
    match FindLine(cart, item.id) {
      case Some(k) => AddToCartExisting(cart, item, k);
      case None => AddToCartNew(cart, item);
    }
    match FindLine(cart, id) {
      case Some(k) =>
        RemoveFromCartAt(cart, k);
        UpdateCartQtyAt(cart, catalog, k, input);
      case None =>
        RemoveFromCartAbsent(cart, id);
        UpdateCartQtyAbsent(cart, catalog, id, input);
    }
  }

  /** Every line's product is in the catalog and its quantity lies between 1
      and that product's live stock. */
  predicate WithinStock(cart: seq<Line>, catalog: seq<Product>) {
    forall i :: 0 <= i < |cart| ==> LineWithinStock(cart[i], catalog)
  }

  predicate LineWithinStock(l: Line, catalog: seq<Product>) {
    match FindProduct(catalog, l.item.id)
    case Some(p) => 1 <= l.qty <= p.stock
    case None => false
  }

  /** Against an unchanged catalog, adding a catalog product keeps every
      quantity within its live stock. */
  lemma AddKeepsWithinStock(cart: seq<Line>, catalog: seq<Product>, item: Product)
    requires DistinctIds(cart) && WithinStock(cart, catalog)
    requires FindProduct(catalog, item.id) == Some(item)
    ensures WithinStock(AddToCart(cart, item), catalog)
  {
    match FindLine(cart, item.id)
    case Some(k) =>
      AddToCartExisting(cart, item, k);
    case None =>
      AddToCartNew(cart, item);
  }

  /** Removing a line keeps every remaining quantity within its live stock. */
  lemma RemoveKeepsWithinStock(cart: seq<Line>, catalog: seq<Product>, id: string)
    requires WithinStock(cart, catalog)
    ensures WithinStock(RemoveFromCart(cart, id), catalog)
  {
    var r := RemoveFromCart(cart, id);
    KeepMembers(cart, (l: Line) => l.item.id != id);
    forall i | 0 <= i < |r| ensures LineWithinStock(r[i], catalog) {
      var j :| 0 <= j < |cart| && cart[j] == r[i];
    }
  }

  /** Against an unchanged catalog, both kinds of quantity change keep every
      quantity within its live stock. */
  lemma {:induction false} UpdateKeepsWithinStock(cart: seq<Line>, catalog: seq<Product>, id: string, input: QtyInput)
    requires WithinStock(cart, catalog)
    ensures WithinStock(UpdateCartQty(cart, catalog, id, input), catalog)
  {
    if cart != [] {
      assert LineWithinStock(cart[0], catalog);
      UpdatedAtWithinStock(cart[0], catalog, id, input);
      UpdateKeepsWithinStock(cart[1..], catalog, id, input);
      WithinStockConcat(UpdatedAt(cart[0], catalog, id, input), UpdateCartQty(cart[1..], catalog, id, input), catalog);
    }
  }

  lemma UpdatedAtWithinStock(line: Line, catalog: seq<Product>, id: string, input: QtyInput)
    requires LineWithinStock(line, catalog)
    ensures WithinStock(UpdatedAt(line, catalog, id, input), catalog)
  {
  }

  lemma WithinStockConcat(a: seq<Line>, b: seq<Line>, catalog: seq<Product>)
    requires WithinStock(a, catalog) && WithinStock(b, catalog)
    ensures WithinStock(a + b, catalog)
  {
    forall i | 0 <= i < |a + b| ensures LineWithinStock((a + b)[i], catalog) {
      if i >= |a| { assert (a + b)[i] == b[i - |a|]; }
    }
  }

  // ---------------------------------------------------------------------------
  // Repeated adds

  function AddRepeatedly(cart: seq<Line>, item: Product, n: nat): seq<Line> {
    if n == 0 then cart else AddToCart(AddRepeatedly(cart, item, n - 1), item)
  }

  /** From an empty cart, n adds of a product with stock S > 0 give one line
      of quantity min(n, S): the S-th add reaches the stock and every later
      add is a no-op. */
  lemma {:induction false} AddRepeatedlyFromEmpty(item: Product, n: nat)
    requires item.stock > 0
    ensures AddRepeatedly([], item, n) == if n == 0 then [] else [Line(item, Min(n, item.stock))]
  {
    if n > 1 {
      AddRepeatedlyFromEmpty(item, n - 1);
      var prev := [Line(item, Min(n - 1, item.stock))];
      AddToCartExisting(prev, item, 0);
    }
  }
}
