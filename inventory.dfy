/** The item editor and the delete button of the inventory screen: which
    backend write, if any, each of them issues. */
module Inventory {
  import opened Wrappers
  import opened Numeric
  import opened Domain

  /** The editor's `currentItem`; `id` is "" for a new item. */
  datatype ItemForm = ItemForm(
    id: string,
    name: string,
    price: FormValue,
    stock: FormValue,
    category: string,
    description: string,
    imageUrl: string)

  /** `openAddItem`: every field empty. */
  function OpenAddItem(): ItemForm {
    ItemForm("", "", Typed(""), Typed(""), "", "", "")
  }

  /** `openEditItem`: a copy of the product, numbers left as numbers. The
      model's products carry no description or image URL. */
  function OpenEditItem(p: Product): ItemForm {
    ItemForm(p.id, p.name, Stored(p.price), Stored(p.stock), p.category, "", "")
  }

  /** The editor's inputs, one per field of `currentItem`. */
  datatype ItemInput = NameInput | PriceInput | StockInput | CategoryInput | ImageUrlInput | DescriptionInput

  /** `setCurrentItem({...currentItem, <field>: e.target.value})`: the input's
      field takes the text as typed (numbers too, as text) and every other
      field is kept. */
  function TypeIntoItem(form: ItemForm, input: ItemInput, text: string): ItemForm {
    match input
    case NameInput => form.(name := text)
    case PriceInput => form.(price := Typed(text))
    case StockInput => form.(stock := Typed(text))
    case CategoryInput => form.(category := text)
    case ImageUrlInput => form.(imageUrl := text)
    case DescriptionInput => form.(description := text)
  }

  /** JavaScript truthiness of a field: non-empty text, or a non-zero number. */
  predicate Truthy(v: FormValue) {
    match v
    case Typed(t) => t != ""
    case Stored(n) => n != 0
  }

  /** `parseInt(stock) || 0`; a stored integer reads back as itself. */
  function StockValue(v: FormValue): int {
    match v
    case Typed(t) => ParseIntOrZero(t)
    case Stored(n) => n
  }

  /** `handleSaveItem`: no write without a signed-in user, a name and a
      price; otherwise an update of the edited document or a new one. */
  function SaveItemWrite(form: ItemForm, signedIn: bool): Option<Write> {
    if !signedIn || form.name == "" || !Truthy(form.price) then None
    else
      var data := ItemData(form.name, form.price, StockValue(form.stock), form.category, form.description, form.imageUrl);
      if form.id != "" then Some(UpdateProduct(form.id, data)) else Some(AddProduct(data))
  }

  /** Saving writes exactly when signed in with a name and a price, and the
      write carries the form's fields with the stock read as an integer. */
  lemma SaveItemSpec(form: ItemForm, signedIn: bool)
    ensures SaveItemWrite(form, signedIn).Some? <==> signedIn && form.name != "" && Truthy(form.price)
    ensures match SaveItemWrite(form, signedIn)
      case None => true
      case Some(w) =>
        && (if form.id == "" then w.AddProduct? else w.UpdateProduct? && w.productId == form.id)
        && w.data == ItemData(form.name, form.price, StockValue(form.stock), form.category, form.description, form.imageUrl)
  {
  }

  /** Typed stock: a rendered integer reads back as itself, and text with no
      leading digits becomes 0. */
  lemma TypedStock(n: int, tail: string, text: string)
    requires tail == [] || !IsDigit(tail[0])
    requires forall i :: 0 <= i < |text| ==> !IsDigit(text[i])
    ensures StockValue(Typed(Render(n) + tail)) == n
    ensures StockValue(Typed(text)) == 0
  {
    ParseIntRender(n, tail);
    NoDigitsIsZero(text);
  }

  /** The empty editor cannot be saved. */
  lemma BlankFormRefused(signedIn: bool)
    ensures SaveItemWrite(OpenAddItem(), signedIn) == None
  {
  }

  /** Saving an opened product unchanged rewrites it with its own fields,
      unless its name is empty or its price is 0 (both falsy), which block
      the save. */
  lemma EditUnchanged(p: Product)
    requires p.id != ""
    ensures SaveItemWrite(OpenEditItem(p), true) ==
      if p.name == "" || p.price == 0 then None
      else Some(UpdateProduct(p.id, ItemData(p.name, Stored(p.price), p.stock, p.category, "", "")))
  {
  }

  /** Filling in the blank editor with a name, a price and a stock gives a
      new document carrying them, the stock read as an integer. */
  lemma TypedNewItem(name: string, price: string, stock: string)
    requires name != "" && price != ""
    ensures var f := TypeIntoItem(TypeIntoItem(TypeIntoItem(OpenAddItem(), NameInput, name), PriceInput, price), StockInput, stock);
      SaveItemWrite(f, true) == Some(AddProduct(ItemData(name, Typed(price), ParseIntOrZero(stock), "", "", "")))
  {
  }

  /** Typing never changes which document a save writes, and what is typed
      into a field is what the save carries; clearing the name or the price
      blocks the save. */
  lemma TypedFieldSaved(form: ItemForm, input: ItemInput, text: string)
    ensures TypeIntoItem(form, input, text).id == form.id
    ensures (input == NameInput || input == PriceInput) && text == "" ==>
      SaveItemWrite(TypeIntoItem(form, input, text), true) == None
    ensures match SaveItemWrite(TypeIntoItem(form, input, text), true)
      case None => true
      case Some(w) => match input
        case NameInput => w.data.name == text
        case PriceInput => w.data.price == Typed(text)
        case StockInput => w.data.stock == ParseIntOrZero(text)
        case CategoryInput => w.data.category == text
        case ImageUrlInput => w.data.imageUrl == text
        case DescriptionInput => w.data.description == text
  {
  }

  /** `handleDeleteItem` after the user answered the confirmation: nothing
      while the app is locked (an alert is shown instead) or signed out or
      not confirmed, otherwise a delete of that document. */
  function DeleteItemWrite(isLocked: bool, signedIn: bool, confirmed: bool, id: string): Option<Write> {
    if isLocked then None
    else if !signedIn || !confirmed then None
    else Some(DeleteProduct(id))
  }

  /** A locked app never deletes; otherwise the delete happens exactly when
      signed in and confirmed. */
  lemma DeleteGuard(isLocked: bool, signedIn: bool, confirmed: bool, id: string)
    ensures isLocked ==> DeleteItemWrite(isLocked, signedIn, confirmed, id) == None
    ensures DeleteItemWrite(isLocked, signedIn, confirmed, id).Some? <==> !isLocked && signedIn && confirmed
    ensures DeleteItemWrite(isLocked, signedIn, confirmed, id).Some? ==>
      DeleteItemWrite(isLocked, signedIn, confirmed, id) == Some(DeleteProduct(id))
  {
  }
}
