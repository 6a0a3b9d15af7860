/** Editing a recorded sale: the reducers of the edit form and the patch
    that saving writes, with the total and item count recomputed from the
    edited item list. */
module SaleEdit {
  import opened Numeric
  import opened Domain
  import opened Cart
  import opened Checkout

  /** The edit form. An empty `id` is the form's initial, unbound state. */
  datatype SaleEdit = SaleEdit(id: string, orderNumber: string, dateStr: string, customerName: string, items: seq<Line>)

  /** `openEditSale`: a copy of the sale's editable fields. */
  function OpenEditSale(sale: Sale): SaleEdit {
    SaleEdit(sale.id, sale.orderNumber, sale.dateStr, sale.customerName, sale.items)
  }

  /** The edit form's text inputs. */
  datatype SaleInput = OrderNumberInput | DateInput | CustomerInput

  /** `setCurrentSaleEdit({...currentSaleEdit, <field>: e.target.value})`. */
  function TypeIntoSale(edit: SaleEdit, input: SaleInput, text: string): SaleEdit {
    match input
    case OrderNumberInput => edit.(orderNumber := text)
    case DateInput => edit.(dateStr := text)
    case CustomerInput => edit.(customerName := text)
  }

  /** `updateSaleEditItemQty(index, text)`: line `index` takes the quantity
      `parseInt(text) || 0`. The form only offers indices of its own lines. */
  function UpdateItemQty(edit: SaleEdit, index: nat, text: string): SaleEdit
    requires index < |edit.items|
  {
    edit.(items := edit.items[index := edit.items[index].(qty := ParseIntOrZero(text))])
  }

  /** `items.filter((_, i) => i !== index)` */
  function WithoutIndex(s: seq<Line>, index: int): seq<Line> {
    if s == [] then [] else (if index == 0 then [] else [s[0]]) + WithoutIndex(s[1..], index - 1)
  }

  /** `removeSaleEditItem(index)` */
  function RemoveItem(edit: SaleEdit, index: int): SaleEdit {
    edit.(items := WithoutIndex(edit.items, index))
  }

  /** The fields `handleUpdateSale` writes: the form's fields, and a total
      and item count computed afresh from the form's items. */
  function Recompute(edit: SaleEdit): SalePatch {
    SalePatch(edit.orderNumber, edit.dateStr, edit.customerName, edit.items, CartTotal(edit.items), ItemCount(edit.items))
  }

  /** A sale document after the patch is merged into it. */
  function ApplySalePatch(sale: Sale, patch: SalePatch): Sale {
    sale.(orderNumber := patch.orderNumber, dateStr := patch.dateStr, customerName := patch.customerName,
          items := patch.items, total := patch.total, itemCount := patch.itemCount)
  }

  /** Changing one quantity changes only that line's quantity and no other
      field of the form; unparseable text gives 0; the totals move by that
      line's difference. */
  lemma UpdateItemQtyEffect(edit: SaleEdit, index: nat, text: string)
    requires index < |edit.items|
    ensures var r := UpdateItemQty(edit, index, text).items;
      && UpdateItemQty(edit, index, text) == edit.(items := r)
      && |r| == |edit.items|
      && r[index].item == edit.items[index].item
      && r[index].qty == ParseIntOrZero(text)
      && (ParseInt(text).None? ==> r[index].qty == 0)
      && (forall j :: 0 <= j < |r| && j != index ==> r[j] == edit.items[j])
      && CartTotal(r) == CartTotal(edit.items) - Subtotal(edit.items[index]) + edit.items[index].item.price * ParseIntOrZero(text)
      && ItemCount(r) == ItemCount(edit.items) - edit.items[index].qty + ParseIntOrZero(text)
  {
    AggregatesReplace(edit.items, index, edit.items[index].(qty := ParseIntOrZero(text)));
  }

  /** Filtering by position drops exactly that position when it exists and
      nothing otherwise. */
  lemma {:induction false} WithoutIndexDrops(s: seq<Line>, index: int)
    ensures 0 <= index < |s| ==> WithoutIndex(s, index) == s[..index] + s[index + 1..]
    ensures !(0 <= index < |s|) ==> WithoutIndex(s, index) == s
  {
    if s != [] {
      WithoutIndexDrops(s[1..], index - 1);
      if 0 < index < |s| {
        assert [s[0]] + (s[1..][..index - 1] + s[1..][index..]) == s[..index] + s[index + 1..];
      }
    }
  }

  /** Removing a line shortens the list by one, keeps the order of the rest
      and every other field of the form, and takes that line's share off the
      totals. */
  lemma RemoveItemEffect(edit: SaleEdit, index: nat)
    requires index < |edit.items|
    ensures var r := RemoveItem(edit, index).items;
      && RemoveItem(edit, index) == edit.(items := edit.items[..index] + edit.items[index + 1..])
      && r == edit.items[..index] + edit.items[index + 1..]
      && |r| == |edit.items| - 1
      && CartTotal(r) == CartTotal(edit.items) - Subtotal(edit.items[index])
      && ItemCount(r) == ItemCount(edit.items) - edit.items[index].qty
  {
    WithoutIndexDrops(edit.items, index);
    AggregatesDrop(edit.items, index);
  }

  /** Saving an edit leaves the sale consistent with its new items, whatever
      totals it held before, and keeps what the form does not edit. */
  lemma SavedSaleConsistent(sale: Sale, edit: SaleEdit)
    ensures var r := ApplySalePatch(sale, Recompute(edit));
      && Consistent(r) && r.items == edit.items
      && r.id == sale.id && r.createdAt == sale.createdAt && r.timeStr == sale.timeStr
  {
  }

  /** Typing into a text input keeps the sale the form is bound to and its
      lines, so the saved total and item count are unchanged, and the saved
      patch carries the typed text in that input's field. */
  lemma TypedSaleFieldSaved(edit: SaleEdit, input: SaleInput, text: string)
    ensures TypeIntoSale(edit, input, text).id == edit.id
    ensures var p := Recompute(TypeIntoSale(edit, input, text));
      && p.items == edit.items && p.total == Recompute(edit).total && p.itemCount == Recompute(edit).itemCount
      && (input == OrderNumberInput ==> p.orderNumber == text && p.dateStr == edit.dateStr && p.customerName == edit.customerName)
      && (input == DateInput ==> p.dateStr == text && p.orderNumber == edit.orderNumber && p.customerName == edit.customerName)
      && (input == CustomerInput ==> p.customerName == text && p.orderNumber == edit.orderNumber && p.dateStr == edit.dateStr)
  {
  }
}
