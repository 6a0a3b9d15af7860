/** The records the point-of-sale works on: catalog products, cart lines,
    sales, the forms and patches sent to the backend, and the log of backend
    writes that stands for the document database. */
module Domain {
  import opened Wrappers

  /** A catalog product as the live snapshot delivers it. `price` is in minor
      currency units; `stock` is whatever the document holds. */
  datatype Product = Product(id: string, name: string, price: int, stock: int, category: string)

  /** A cart line (and a sale line): a copy of the product taken when it was
      added, plus a quantity. */
  datatype Line = Line(item: Product, qty: int)

  /** A sale document. `id` is "" until the sales collection assigns one;
      `createdAt` is the server timestamp in seconds, `None` while the write
      has not yet round-tripped. */
  datatype Sale = Sale(
    id: string,
    orderNumber: string,
    items: seq<Line>,
    total: int,
    itemCount: int,
    createdAt: Option<int>,
    dateStr: string,
    timeStr: string,
    customerName: string)

  /** A field of the item editor: text the user typed, or the number copied
      from the product when the editor was opened on it. */
  datatype FormValue = Typed(text: string) | Stored(n: int)

  /** The product fields written by the item editor (the price as it stood
      in the editor). */
  datatype ItemData = ItemData(name: string, price: FormValue, stock: int, category: string, description: string, imageUrl: string)

  /** The fields rewritten when an edited sale is saved. */
  datatype SalePatch = SalePatch(orderNumber: string, dateStr: string, customerName: string, items: seq<Line>, total: int, itemCount: int)

  /** One call into the document database. */
  datatype Write =
    | AddSale(sale: Sale)
    | SetStock(productId: string, stock: int)
    | AddProduct(data: ItemData)
    | UpdateProduct(productId: string, data: ItemData)
    | DeleteProduct(productId: string)
    | UpdateSale(saleId: string, patch: SalePatch)

  /** The four sections of the application. */
  datatype Tab = Inventory | Pos | Sales | Settings

  /** `items.find(i => i.id === id)`: the first catalog product with that id. */
  function FindProduct(catalog: seq<Product>, id: string): (r: Option<Product>)
    ensures r.Some? ==> r.value in catalog && r.value.id == id
    ensures r.None? <==> forall j :: 0 <= j < |catalog| ==> catalog[j].id != id
  {
    if catalog == [] then None
    else if catalog[0].id == id then Some(catalog[0])
    else FindProduct(catalog[1..], id)
  }

  /** Document ids are unique within a collection. */
  predicate DistinctProductIds(catalog: seq<Product>) {
    forall i, j :: 0 <= i < j < |catalog| ==> catalog[i].id != catalog[j].id
  }

  /** With unique ids, the lookup returns the product at that id's position. */
  lemma {:induction false} FindProductAt(catalog: seq<Product>, j: nat)
    requires DistinctProductIds(catalog)
    requires j < |catalog|
    ensures FindProduct(catalog, catalog[j].id) == Some(catalog[j])
  {
    if j > 0 {
      assert catalog[0].id != catalog[j].id;
      assert catalog[1..][j - 1] == catalog[j];
      FindProductAt(catalog[1..], j - 1);
    }
  }
}
