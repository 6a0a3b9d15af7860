/** The application component as one object: the state it keeps between
    renders and the event handlers that change it. The document database is
    represented by `log`, the sequence of writes issued so far, and its live
    snapshots arrive through `ReceiveCatalog` and `ReceiveSales`. */
module Session {
  import opened Wrappers
  import opened Numeric
  import opened Domain
  import Cart
  import opened Checkout
  import opened Lock
  import opened SalesView
  import Edit = SaleEdit
  import opened Inventory

  class PosSession {
    var signedIn: bool
    var isLocked: bool
    var activeTab: Tab
    var targetTab: Option<Tab>
    var showPinModal: bool
    var pinInput: string
    var securityPin: string
    var items: seq<Product>
    var sales: seq<Sale>
    var cart: seq<Line>
    var viewOrder: Option<Sale>
    var itemForm: ItemForm
    var saleEdit: Edit.SaleEdit
    var log: seq<Write>

    /** The part of the state the lock handlers work on. */
    function LockView(): LockState
      reads this
    {
      LockState(isLocked, activeTab, targetTab, showPinModal, pinInput, securityPin)
    }

    /** No product is on two cart lines. */
    predicate Valid()
      reads this
    {
      Cart.DistinctIds(cart)
    }

    constructor ()
      ensures LockView() == Initial()
      ensures !signedIn && items == [] && sales == [] && cart == [] && viewOrder == None
      ensures itemForm == Inventory.OpenAddItem() && saleEdit == Edit.SaleEdit("", "", "", "", [])
      ensures log == []
      ensures Valid()
    {
      signedIn := false;
      isLocked := false;
      activeTab := Inventory;
      targetTab := None;
      showPinModal := false;
      pinInput := "";
      securityPin := DefaultPin;
      items := [];
      sales := [];
      cart := [];
      viewOrder := None;
      itemForm := Inventory.OpenAddItem();
      saleEdit := Edit.SaleEdit("", "", "", "", []);
      log := [];
    }

    /** The anonymous sign-in completing. */
    method SignIn()
      modifies this`signedIn
      ensures signedIn
    {
      signedIn := true;
    }

    /** A snapshot of the items collection arriving. */
    method ReceiveCatalog(snapshot: seq<Product>)
      modifies this`items
      ensures items == snapshot
    {
      items := snapshot;
    }

    /** A snapshot of the sales collection arriving: kept newest first. */
    method ReceiveSales(snapshot: seq<Sale>)
      modifies this`sales
      ensures sales == SortNewestFirst(snapshot)
      ensures SortedNewestFirst(sales) && multiset(sales) == multiset(snapshot)
    {
      sales := SortNewestFirst(snapshot);
    }

    // -------------------------------------------------------------------------
    // Lock and PIN

    method HandleTabChange(tab: Tab)
      modifies this`activeTab, this`targetTab, this`showPinModal
      ensures LockView() == Step(old(LockView()), RequestTab(tab))
    {
      if isLocked && Protected(tab) {
        targetTab := Some(tab);
        showPinModal := true;
      } else {
        activeTab := tab;
      }
    }

    /** The prompt's PIN field, which holds at most four characters. */
    method SetPinInput(text: string)
      modifies this`pinInput
      ensures LockView() == Step(old(LockView()), TypePin(text))
    {
      pinInput := PinField(text);
    }

    /** `alerted` is the "Incorrect PIN" alert. */
    method VerifyPin() returns (alerted: bool)
      modifies this`showPinModal, this`pinInput, this`activeTab, this`targetTab, this`isLocked
      ensures LockView() == Step(old(LockView()), SubmitPin)
      ensures alerted <==> old(pinInput) != securityPin
    {
      alerted := pinInput != securityPin;
      if pinInput == securityPin {
        showPinModal := false;
        pinInput := "";
        if targetTab.Some? {
          activeTab := targetTab.value;
          targetTab := None;
        } else {
          isLocked := false;
        }
      } else {
        pinInput := "";
      }
    }

    method ToggleGlobalLock()
      modifies this`targetTab, this`showPinModal, this`isLocked, this`activeTab
      ensures LockView() == Step(old(LockView()), PressLock)
    {
      if isLocked {
        targetTab := None;
        showPinModal := true;
      } else {
        isLocked := true;
        activeTab := Inventory;
      }
    }

    method ClosePinModal()
      modifies this`showPinModal
      ensures LockView() == Step(old(LockView()), DismissPrompt)
    {
      showPinModal := false;
    }

    /** The settings section's PIN field, held to the prompt's length (see
        `Lock.LongPinLocksOut` for the field as written). */
    method EditSecurityPin(text: string)
      modifies this`securityPin
      ensures LockView() == Step(old(LockView()), EditPin(text))
    {
      if activeTab == Settings {
        securityPin := PinField(text);
      }
    }

    // -------------------------------------------------------------------------
    // Cart

    method AddToCart(item: Product)
      requires Valid()
      modifies this`cart
      ensures cart == Cart.AddToCart(old(cart), item)
      ensures Valid()
    {
      Cart.UpdatersKeepDistinct(cart, items, item, item.id, Cart.Delta(0));
      cart := Cart.AddToCart(cart, item);
    }

    method RemoveFromCart(id: string)
      requires Valid()
      modifies this`cart
      ensures cart == Cart.RemoveFromCart(old(cart), id)
      ensures Valid()
    {
      Cart.UpdatersKeepDistinct(cart, items, Product(id, "", 0, 0, ""), id, Cart.Delta(0));
      cart := Cart.RemoveFromCart(cart, id);
    }

    /** The quantity is checked against the catalog snapshot held now. */
    method UpdateCartQty(id: string, input: Cart.QtyInput)
      requires Valid()
      modifies this`cart
      ensures cart == Cart.UpdateCartQty(old(cart), items, id, input)
      ensures Valid()
    {
      Cart.UpdatersKeepDistinct(cart, items, Product(id, "", 0, 0, ""), id, input);
      cart := Cart.UpdateCartQty(cart, items, id, input);
    }

    // -------------------------------------------------------------------------
    // Checkout

    /** `handleCheckout`. The clock's date and time texts, the draw of
        `Math.random()` and the id the sales collection assigns come in as parameters. A
        locked app only alerts; signed out or with an empty cart nothing
        happens. Otherwise the sale is written, then one stock write per cart
        line computed from the catalog snapshot, and the cart is emptied and
        the new sale shown. */
    method Checkout(rand: real, saleId: string, dateStr: string, timeStr: string)
      returns (alerted: bool, sale: Option<Sale>)
      requires Valid()
      requires 0.0 <= rand < 1.0
      modifies this`log, this`cart, this`activeTab, this`viewOrder
      ensures alerted == isLocked
      ensures isLocked || !signedIn || old(cart) == [] ==>
        && sale == None && log == old(log) && cart == old(cart)
        && activeTab == old(activeTab) && viewOrder == old(viewOrder)
      ensures !isLocked && signedIn && old(cart) != [] ==>
        var data := NewSale(old(cart), Serial(rand), dateStr, timeStr);
        && sale == Some(data.(id := saleId))
        && log == old(log) + [AddSale(data)] + StockWrites(old(cart), items)
        && cart == [] && activeTab == Sales && viewOrder == sale
      ensures sale.Some? ==> WellFormedOrderNumber(sale.value.orderNumber)
      ensures Valid()
    {
      alerted := isLocked;
      sale := None;
      if isLocked || !signedIn || |cart| == 0 {
        return;
      }
      var lines := cart;
      var serial := Serial(rand);
      var data := NewSale(lines, serial, dateStr, timeStr);
      assert WellFormedOrderNumber(data.orderNumber) by {
        OrderNumberFormat(serial);
      }
      log := log + [AddSale(data)];
      WriteStock(lines);
      sale := Some(data.(id := saleId));
      cart := [];
      activeTab := Sales;
      viewOrder := sale;
    }

    /** The loop of `handleCheckout`: for each cart line in order, the
        product's stock in the catalog snapshot less the quantity sold,
        never below 0, is written. */
    method WriteStock(lines: seq<Line>)
      modifies this`log
      ensures log == old(log) + StockWrites(lines, items)
    {
      var i := 0;
      while i < |lines|
        invariant 0 <= i <= |lines|
        invariant log == old(log) + StockWrites(lines[..i], items)
      {
        var line := lines[i];
        var currentStock := SnapshotStock(items, line.item.id);
        log := log + [SetStock(line.item.id, Max(0, currentStock - line.qty))];
        assert lines[..i + 1][..i] == lines[..i];
        i := i + 1;
      }
      assert lines[..|lines|] == lines;
    }

    // -------------------------------------------------------------------------
    // Item editor and delete

    method OpenAddItem()
      modifies this`itemForm
      ensures itemForm == Inventory.OpenAddItem()
    {
      itemForm := Inventory.OpenAddItem();
    }

    method OpenEditItem(p: Product)
      modifies this`itemForm
      ensures itemForm == Inventory.OpenEditItem(p)
    {
      itemForm := Inventory.OpenEditItem(p);
    }

    /** An input of the item editor: the field takes the typed text. */
    method TypeItemField(input: ItemInput, text: string)
      modifies this`itemForm
      ensures itemForm == TypeIntoItem(old(itemForm), input, text)
    {
      itemForm := TypeIntoItem(itemForm, input, text);
    }

    /** `handleSaveItem`: at most one write, the one the form calls for. */
    method HandleSaveItem()
      modifies this`log
      ensures log == old(log) + match SaveItemWrite(itemForm, signedIn)
        case Some(w) => [w]
        case None => []
    {
      var w := SaveItemWrite(itemForm, signedIn);
      if w.Some? {
        log := log + [w.value];
      }
    }

    /** `handleDeleteItem(id)`, with the user's answer to the confirmation
        as a parameter; `alerted` is the locked-app alert. */
    method HandleDeleteItem(id: string, confirmed: bool) returns (alerted: bool)
      modifies this`log
      ensures alerted == isLocked
      ensures log == old(log) + match DeleteItemWrite(isLocked, signedIn, confirmed, id)
        case Some(w) => [w]
        case None => []
      ensures isLocked ==> log == old(log)
    {
      alerted := isLocked;
      if isLocked {
        return;
      }
      if !signedIn || !confirmed {
        return;
      }
      log := log + [DeleteProduct(id)];
    }

    // -------------------------------------------------------------------------
    // Sale editor

    method OpenEditSale(sale: Sale)
      modifies this`saleEdit
      ensures saleEdit == Edit.OpenEditSale(sale)
    {
      saleEdit := Edit.OpenEditSale(sale);
    }

    /** A text input of the sale editor: the field takes the typed text. */
    method TypeSaleField(input: Edit.SaleInput, text: string)
      modifies this`saleEdit
      ensures saleEdit == Edit.TypeIntoSale(old(saleEdit), input, text)
    {
      saleEdit := Edit.TypeIntoSale(saleEdit, input, text);
    }

    method UpdateSaleEditItemQty(index: nat, text: string)
      requires index < |saleEdit.items|
      modifies this`saleEdit
      ensures saleEdit == Edit.UpdateItemQty(old(saleEdit), index, text)
    {
      saleEdit := Edit.UpdateItemQty(saleEdit, index, text);
    }

    method RemoveSaleEditItem(index: int)
      modifies this`saleEdit
      ensures saleEdit == Edit.RemoveItem(old(saleEdit), index)
    {
      saleEdit := Edit.RemoveItem(saleEdit, index);
    }

    /** `handleUpdateSale`: nothing when signed out or when the form is not
        bound to a sale; otherwise the recomputed patch is written, and the
        sale on show, when it is this one, shows the patch too. */
    method HandleUpdateSale()
      modifies this`log, this`viewOrder
      ensures !signedIn || saleEdit.id == "" ==> log == old(log) && viewOrder == old(viewOrder)
      ensures signedIn && saleEdit.id != "" ==>
        && log == old(log) + [UpdateSale(saleEdit.id, Edit.Recompute(saleEdit))]
        && viewOrder == match old(viewOrder)
          case Some(v) => if v.id == saleEdit.id then Some(Edit.ApplySalePatch(v, Edit.Recompute(saleEdit))) else Some(v)
          case None => None
    {
      if !signedIn || saleEdit.id == "" {
        return;
      }
      var patch := Edit.Recompute(saleEdit);
      log := log + [UpdateSale(saleEdit.id, patch)];
      if viewOrder.Some? && viewOrder.value.id == saleEdit.id {
        viewOrder := Some(Edit.ApplySalePatch(viewOrder.value, patch));
      }
    }
  }
}
