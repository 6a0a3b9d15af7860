/** What a checkout computes: the sale record (order number, totals, default
    customer) and one stock write per cart line, and what those writes do to
    the catalog. */
module Checkout {
  import opened Wrappers
  import opened Numeric
  import opened Domain
  import opened Cart

  const OrderPrefix: string := "ORD-"
  const WalkInCustomer: string := "Walk-in Customer"

  /** `ORD-${serial}` */
  function OrderNumber(serial: nat): string {
    OrderPrefix + Decimal(serial)
  }

  /** `Math.floor(100000 + Math.random() * 900000)` for a draw `rand` of
      `Math.random()`, which lies in [0, 1): always a six-digit number. */
  function Serial(rand: real): (r: nat)
    requires 0.0 <= rand < 1.0
    ensures 100000 <= r <= 999999
  {
    (100000.0 + rand * 900000.0).Floor
  }

  /** For every serial `Serial` can produce, the order number is "ORD-" and exactly six digits (no leading
      zero) that read back as the serial. */
  lemma OrderNumberFormat(serial: nat)
    requires 100000 <= serial <= 999999
    ensures |OrderNumber(serial)| == 10
    ensures OrderNumber(serial)[..4] == "ORD-"
    ensures AllDigits(OrderNumber(serial)[4..]) && OrderNumber(serial)[4] != '0'
    ensures ParseInt(OrderNumber(serial)[4..]) == Some(serial)
  {
    assert Pow10(5) == 100000 && Pow10(6) == 1000000;
    DecimalLength(serial, 6);
    assert OrderNumber(serial)[4..] == Decimal(serial);
    ParseIntRender(serial, "");
    assert Render(serial) + "" == Decimal(serial);
  }

  /** "ORD-" followed by six digits, the first of them not a zero. */
  predicate WellFormedOrderNumber(o: string) {
    |o| == 10 && o[..4] == OrderPrefix && AllDigits(o[4..]) && o[4] != '0'
  }

  /** The sale document checkout writes (before the sales collection gives
      it an id and the server gives it a timestamp). */
  function NewSale(cart: seq<Line>, serial: nat, dateStr: string, timeStr: string): Sale {
    Sale("", OrderNumber(serial), cart, CartTotal(cart), ItemCount(cart), None, dateStr, timeStr, WalkInCustomer)
  }

  /** The invariant a sale's stored aggregates owe to its item list. */
  predicate Consistent(sale: Sale) {
    sale.total == CartTotal(sale.items) && sale.itemCount == ItemCount(sale.items)
  }

  /** The sale record carries the cart as its items, totals that agree with
      them, the order number and the default customer; it has no server
      timestamp yet. */
  lemma NewSaleShape(cart: seq<Line>, serial: nat, dateStr: string, timeStr: string)
    requires 100000 <= serial <= 999999
    ensures var s := NewSale(cart, serial, dateStr, timeStr);
      && Consistent(s) && s.items == cart
      && s.customerName == "Walk-in Customer" && s.createdAt == None
      && |s.orderNumber| == 10 && s.orderNumber[..4] == "ORD-"
  {
    OrderNumberFormat(serial);
  }

  /** The two-line example: 2 at 10 and 1 at 5 is a sale of 25 for 3 items. */
  lemma TwoLineSale(a: Product, b: Product)
    requires a.price == 10 && b.price == 5
    ensures CartTotal([Line(a, 2), Line(b, 1)]) == 25
    ensures ItemCount([Line(a, 2), Line(b, 1)]) == 3
  {
    AggregatesAppend([], Line(a, 2));
    AggregatesAppend([Line(a, 2)], Line(b, 1));
    assert [] + [Line(a, 2)] == [Line(a, 2)];
    assert [Line(a, 2)] + [Line(b, 1)] == [Line(a, 2), Line(b, 1)];
  }

  // ---------------------------------------------------------------------------
  // Stock reconciliation

  /** `items.find(i => i.id === id)?.stock || 0`: the stock in the local
      snapshot, 0 for a product the snapshot does not hold. */
  function SnapshotStock(catalog: seq<Product>, id: string): int {
    match FindProduct(catalog, id)
    case Some(p) => p.stock
    case None => 0
  }

  /** The stock checkout writes for one line: never negative. */
  function RemainingStock(catalog: seq<Product>, line: Line): (r: int)
    ensures r >= 0
    ensures r == 0 || r == SnapshotStock(catalog, line.item.id) - line.qty
    ensures r >= SnapshotStock(catalog, line.item.id) - line.qty
  {
    Max(0, SnapshotStock(catalog, line.item.id) - line.qty)
  }

  /** The writes of the checkout loop, one per line, in cart order. */
  function StockWrites(cart: seq<Line>, catalog: seq<Product>): seq<Write> {
    if cart == [] then []
    else StockWrites(cart[..|cart| - 1], catalog)
         + [SetStock(cart[|cart| - 1].item.id, RemainingStock(catalog, cart[|cart| - 1]))]
  }

  /** One stock write as the database applies it: the document with that id
      takes the new stock. Other kinds of write leave stock alone. */
  function ApplyStockWrite(catalog: seq<Product>, w: Write): seq<Product> {
    match w
    case SetStock(id, v) =>
      seq(|catalog|, j requires 0 <= j < |catalog| =>
        if catalog[j].id == id then catalog[j].(stock := v) else catalog[j])
    case _ => catalog
  }

  function ApplyStockWrites(catalog: seq<Product>, ws: seq<Write>): seq<Product> {
    if ws == [] then catalog
    else ApplyStockWrite(ApplyStockWrites(catalog, ws[..|ws| - 1]), ws[|ws| - 1])
  }

  function LineIds(cart: seq<Line>): set<string> {
    set k | 0 <= k < |cart| :: cart[k].item.id
  }

  /** Applying the checkout writes, computed from the snapshot, to the stored
      catalog: each product with a cart line gets the stock computed for that
      line; every other product, and every other field, is untouched. */
  lemma {:induction false} Reconcile(stored: seq<Product>, snapshot: seq<Product>, cart: seq<Line>)
    requires DistinctIds(cart)
    ensures var r := ApplyStockWrites(stored, StockWrites(cart, snapshot));
      && |r| == |stored|
      && (forall j :: 0 <= j < |stored| ==> r[j].(stock := stored[j].stock) == stored[j])
      && (forall j, k :: 0 <= j < |stored| && 0 <= k < |cart| && cart[k].item.id == stored[j].id ==>
            r[j].stock == RemainingStock(snapshot, cart[k]))
      && (forall j :: 0 <= j < |stored| && stored[j].id !in LineIds(cart) ==> r[j] == stored[j])
  {
    if cart != [] {
      var n := |cart|;
      var init, last := cart[..n - 1], cart[n - 1];
      assert DistinctIds(init);
      Reconcile(stored, snapshot, init);
      var prev := ApplyStockWrites(stored, StockWrites(init, snapshot));
      var ws := StockWrites(cart, snapshot);
      assert ws[..|ws| - 1] == StockWrites(init, snapshot);
      var r := ApplyStockWrites(stored, ws);
      assert r == ApplyStockWrite(prev, SetStock(last.item.id, RemainingStock(snapshot, last)));
      assert last.item.id !in LineIds(init) by {
        forall k | 0 <= k < n - 1 ensures init[k].item.id != last.item.id {
          assert cart[k].item.id != cart[n - 1].item.id;
        }
      }
      assert LineIds(cart) == LineIds(init) + {last.item.id} by {
        forall x | x in LineIds(cart) ensures x in LineIds(init) + {last.item.id} {
          var k :| 0 <= k < n && cart[k].item.id == x;
          if k < n - 1 {
            assert init[k].item.id == x;
          }
        }
      }
      forall j, k | 0 <= j < |stored| && 0 <= k < n && cart[k].item.id == stored[j].id
        ensures r[j].stock == RemainingStock(snapshot, cart[k])
      {
        if k < n - 1 {
          assert init[k] == cart[k];
          assert stored[j].id in LineIds(init);
        }
      }
    }
  }

  /** Checkout against a catalog whose snapshot is current: every product in
      the cart ends at max(0, stock - qty), the others keep their stock, and
      no stock becomes negative. */
  lemma CheckoutStock(catalog: seq<Product>, cart: seq<Line>)
    requires DistinctIds(cart) && DistinctProductIds(catalog)
    ensures var r := ApplyStockWrites(catalog, StockWrites(cart, catalog));
      && |r| == |catalog|
      && (forall j, k :: 0 <= j < |catalog| && 0 <= k < |cart| && cart[k].item.id == catalog[j].id ==>
            r[j] == catalog[j].(stock := Max(0, catalog[j].stock - cart[k].qty)))
      && (forall j :: 0 <= j < |catalog| && catalog[j].id !in LineIds(cart) ==> r[j] == catalog[j])
      && ((forall j :: 0 <= j < |catalog| ==> catalog[j].stock >= 0) ==>
            forall j :: 0 <= j < |r| ==> r[j].stock >= 0)
  {
    Reconcile(catalog, catalog, cart);
    var r := ApplyStockWrites(catalog, StockWrites(cart, catalog));
    forall j, k | 0 <= j < |catalog| && 0 <= k < |cart| && cart[k].item.id == catalog[j].id
      ensures r[j] == catalog[j].(stock := Max(0, catalog[j].stock - cart[k].qty))
    {
      FindProductAt(catalog, j);
      assert r[j].(stock := catalog[j].stock) == catalog[j];
    }
  }
}
