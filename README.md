# manha-pos point-of-sale, modelled in Dafny

manha-pos is a single-screen point-of-sale application: a catalog of products
with stock, a cart that is checked out into recorded sales, a sales history
that can be searched and edited, and an application lock that hides the
point-of-sale, sales and settings sections behind a PIN. All of its domain
logic lives in one component, `manha-pos/src/App.jsx`; the document database
behind it is reached only through writes and live snapshots.

This project models that logic:

- `numeric.dfy` (module `Numeric`): `parseInt` on decimal text, with the
  `|| 0` fallback the component applies, and the decimal rendering used by
  order numbers.
- `seqs.dfy` (module `Seqs`): `Array.prototype.filter` and its laws.
- `domain.dfy` (module `Domain`): products, cart and sale lines, sales, the
  item editor's data, sale patches, the backend writes, and `items.find`.
- `cart.dfy` (module `Cart`): the three cart updaters (add, remove, change
  quantity) and the cart total and item count.
- `checkout.dfy` (module `Checkout`): the random order number, the sale
  record a checkout writes and the stock writes that follow it.
- `sale_edit.dfy` (module `SaleEdit`): the reducers of the sale editor and
  the patch saving it writes.
- `sales_view.dfy` (module `SalesView`): the newest-first order of the
  sales and the item and sales searches.
- `inventory.dfy` (module `Inventory`): the item editor's inputs, its save
  and the guarded delete.
- `lock.dfy` (module `Lock`): the lock and PIN state machine.
- `session.dfy` (module `Session`): the component as a class, `PosSession`,
  whose fields are its state and whose methods are its event handlers. The
  database is the field `log`, the writes issued so far in order, and its
  snapshots arrive through `ReceiveCatalog` and `ReceiveSales`.

Prices are whole numbers of minor currency units. A cart line is the product
as it was when added plus a quantity, as in the component, where a line is
`{ ...item, qty }`.

The model follows the code where the application's documented behaviour
differs from it: a direct quantity entry of 0, or of text that is not
a number, does not remove the line. It sets the quantity to 1 (the code's
`Math.max(1, newQty)`), or to the product's live stock when that stock is
below the entry, which can be 0 or even negative, since the item editor
saves whatever integer is typed as the stock (`Cart.DirectInput`). The one place where the model departs from the code is the
settings section's PIN field: `Lock.Step` and
`Session.PosSession.EditSecurityPin` hold it to four characters, the
corrected behaviour described under "## Findings"; the field as written is
`Lock.StepAsWritten`.

## Model

| member | source | states |
|---|---|---|
| Numeric.Decimal | manha-pos/src/App.jsx:340 | the decimal text of a number is non-empty, all digits, and has no leading zero |
| Numeric.DigitsValueDecimal | manha-pos/src/App.jsx:340 | reading the decimal text of `n` back as digits gives `n` |
| Numeric.DecimalLength | manha-pos/src/App.jsx:340 | a number between 10^(k-1) and 10^k has exactly k digits |
| Numeric.ParseInt | manha-pos/src/App.jsx:310-311 | `parseInt` on decimal text: leading white space skipped, an optional sign, the longest run of digits, NaN (`None`) when there is no digit; specified by `ParseIntNone`, `ParseIntSkipsSpace`, `ParseIntDigits`, `ParseIntPlusDigits`, `ParseIntMinusDigits`, `ParseIntRender` and `NoDigitsIsZero` |
| Numeric.ParseIntOrZero | manha-pos/src/App.jsx:251 | `parseInt` with NaN read as 0; specified by `ParseIntRender` and `NoDigitsIsZero` |
| Numeric.ParseIntSkipsSpace | manha-pos/src/App.jsx:310-311 | any run of JavaScript white space (line terminators, tab, form feed, byte order mark, every Unicode space separator) before the text leaves what `parseInt` reads unchanged |
| Numeric.IdeographicSpaceSkipped | manha-pos/src/App.jsx:310 | an ideographic space (U+3000) before "7" is skipped and the text reads as 7 |
| Numeric.ParseIntRender | manha-pos/src/App.jsx:251 | `parseInt`, with or without the fallback to 0, reads back every rendered integer, whatever non-digit text follows it |
| Numeric.ParseIntNoSpace | manha-pos/src/App.jsx:310-311 | text that does not start with white space is read straight from its sign and digits |
| Numeric.ParseIntDigits | manha-pos/src/App.jsx:310-311 | a run of digits followed by a non-digit parses to the value of the run |
| Numeric.NoDigitsIsZero | manha-pos/src/App.jsx:387 | text without any decimal digit is NaN for `parseInt`, so with the fallback it reads as 0 |
| Numeric.ParseIntNone | manha-pos/src/App.jsx:310-311 | `parseInt` is NaN exactly when, after the leading white space and at most one sign, the text is empty or does not start with a digit |
| Numeric.FractionIsNaN | manha-pos/src/App.jsx:387 | ".5" and "-.5" are NaN and read as 0 |
| Numeric.ParseIntPlusDigits | manha-pos/src/App.jsx:310-311 | a leading "+" is dropped and the digit run after it reads as its value |
| Seqs.KeepMembers | manha-pos/src/App.jsx:300-302 | `filter` keeps exactly the elements that pass, taken from the input |
| Seqs.KeepConcat | manha-pos/src/App.jsx:453-463 | `filter` works element by element, so it keeps the input's order |
| Seqs.KeepDropsOne | manha-pos/src/App.jsx:300-302 | when exactly one element fails the test, `filter` removes that element alone |
| Domain.FindProduct | manha-pos/src/App.jsx:317 | `items.find` returns a catalog product with that id, and none exactly when no product has it |
| Domain.FindProductAt | manha-pos/src/App.jsx:357 | with unique ids, `items.find` returns the product at that id's position |
| Cart.FindLine | manha-pos/src/App.jsx:291 | the position found holds the product, and no earlier line does |
| Cart.AddToCart | manha-pos/src/App.jsx:288-298 | the add updater; specified by `AddToCartExisting`, `AddToCartNew`, `AddRepeatedlyFromEmpty`, `UpdatersKeepDistinct` and `AddKeepsWithinStock` |
| Cart.RemoveFromCart | manha-pos/src/App.jsx:300-302 | the remove updater; specified by `RemoveFromCartAt`, `RemoveFromCartAbsent`, `UpdatersKeepDistinct` and `RemoveKeepsWithinStock` |
| Cart.UpdatedLine | manha-pos/src/App.jsx:306-323 | the per-line function of the quantity updater, `None` for the `null` that is filtered out; specified by `RelativeStep` and `DirectInput` |
| Cart.UpdateCartQty | manha-pos/src/App.jsx:304-326 | the quantity updater; specified by `UpdateCartQtyAt`, `UpdateCartQtyAbsent`, `UpdatersKeepDistinct` and `UpdateKeepsWithinStock` |
| Cart.CartTotal | manha-pos/src/App.jsx:328-330 | the sum of price times quantity over the lines; specified by `AggregatesConcat` and the total deltas of the add, remove and edit lemmas |
| Cart.ItemCount | manha-pos/src/App.jsx:343 | the sum of the quantities; specified by `AggregatesConcat` and the count deltas of the add, remove and edit lemmas |
| Cart.AddToCartExisting | manha-pos/src/App.jsx:288-298 | adding a product that has a line: unchanged when out of stock or at stock, otherwise only that line gains one unit, the total grows by its price and the count by one |
| Cart.AddToCartNew | manha-pos/src/App.jsx:288-298 | adding a product with no line appends a line of quantity 1 when in stock, and changes nothing otherwise |
| Cart.AddRepeatedlyFromEmpty | manha-pos/src/App.jsx:288-298 | n adds from an empty cart give one line of quantity min(n, stock) |
| Cart.RemoveFromCartAt | manha-pos/src/App.jsx:300-302 | removing drops exactly that product's line, keeps the others in order, and lowers total and count by that line's share |
| Cart.RemoveFromCartAbsent | manha-pos/src/App.jsx:300-302 | removing a product without a line changes nothing |
| Cart.UpdateCartQtyAt | manha-pos/src/App.jsx:304-326 | a quantity change rewrites or drops the one line of that product and leaves every other line where and as it was |
| Cart.UpdateCartQtyAbsent | manha-pos/src/App.jsx:304-326 | a quantity change for a product without a line changes nothing |
| Cart.RelativeStep | manha-pos/src/App.jsx:304-326 | a -/+ step to 0 or below removes the line; otherwise the quantity is qty + step capped at the live stock |
| Cart.DirectInput | manha-pos/src/App.jsx:304-326 | typed quantities never remove the line; they are capped at the live stock and floored at 1, and text that is not a number acts as 0 |
| Cart.UpdatersKeepDistinct | manha-pos/src/App.jsx:288-326 | none of the three updaters puts a product on two lines |
| Cart.AddKeepsWithinStock | manha-pos/src/App.jsx:288-298 | adding a catalog product keeps every quantity between 1 and the live stock |
| Cart.RemoveKeepsWithinStock | manha-pos/src/App.jsx:300-302 | removing keeps every quantity between 1 and the live stock |
| Cart.UpdateKeepsWithinStock | manha-pos/src/App.jsx:304-326 | quantity changes keep every quantity between 1 and the live stock |
| Cart.AggregatesConcat | manha-pos/src/App.jsx:328-330 | the cart total and the item count of two carts joined are the sums of their parts |
| Checkout.OrderNumberFormat | manha-pos/src/App.jsx:340 | every order number is "ORD-" and six digits without a leading zero that read back as the serial |
| Checkout.NewSale | manha-pos/src/App.jsx:341-351 | the sale document checkout writes; specified by `NewSaleShape` and `OrderNumberFormat` |
| Checkout.Serial | manha-pos/src/App.jsx:340 | for every draw of `Math.random()` in [0, 1), the serial is between 100000 and 999999 |
| Checkout.SnapshotStock | manha-pos/src/App.jsx:357 | the stock in the local snapshot, 0 for a product it lacks; specified through `RemainingStock` and `CheckoutStock` |
| Checkout.StockWrites | manha-pos/src/App.jsx:355-361 | one stock write per cart line, in cart order; specified by `Reconcile` and `CheckoutStock`, and produced by the loop of `Session.PosSession.WriteStock` |
| Checkout.NewSaleShape | manha-pos/src/App.jsx:341-351 | the sale written holds the cart, a total and item count that agree with it, the default customer and no server timestamp yet |
| Checkout.TwoLineSale | manha-pos/src/App.jsx:328-330 | two units at 10 and one at 5 make a sale of 25 for 3 items |
| Checkout.RemainingStock | manha-pos/src/App.jsx:357-360 | the stock written for a line is never negative and is the snapshot stock minus the quantity unless that is negative |
| Checkout.Reconcile | manha-pos/src/App.jsx:355-361 | the checkout's stock writes give every cart product its computed stock and leave every other product, and every other field, untouched |
| Checkout.CheckoutStock | manha-pos/src/App.jsx:355-361 | against a current snapshot each cart product ends at max(0, stock - qty), the others keep their stock, and no stock becomes negative |
| Lock.PinField | manha-pos/src/App.jsx:819 | the prompt's field holds at most four characters, the entered text when it fits and its start otherwise |
| Lock.Step | manha-pos/src/App.jsx:197-232 | one lock event (section request, PIN entry, PIN submission, lock button, closing the prompt, PIN change); specified by `LockedRequest`, `SubmitPinOutcome`, `LockingShowsInventory`, `OnlyPinUnlocks`, `PinChangesOnlyInSettings` and `LockedWithoutPin` |
| Lock.StepAsWritten | manha-pos/src/App.jsx:721 | the step with the settings PIN field as written (no length limit); specified by `LongPinLocksOut` |
| Lock.LockedRequest | manha-pos/src/App.jsx:197-204 | while locked, asking for a protected section keeps the shown section, opens the prompt and remembers the request |
| Lock.SubmitPinOutcome | manha-pos/src/App.jsx:206-220 | a correct PIN shows the requested section (staying locked) or unlocks; a wrong one only clears the field |
| Lock.LockingShowsInventory | manha-pos/src/App.jsx:222-232 | locking lands on the inventory section |
| Lock.OnlyPinUnlocks | manha-pos/src/App.jsx:197-232 | a locked session is unlocked by a step exactly when the correct PIN is submitted with no pending section |
| Lock.UnlockWithPin | manha-pos/src/App.jsx:206-232 | the lock button, the PIN and the prompt's button unlock without changing the shown section |
| Lock.PinAlwaysFits | manha-pos/src/App.jsx:721 | with the settings field held to four characters, the PIN always fits the prompt's field |
| Lock.PinChangesOnlyInSettings | manha-pos/src/App.jsx:712-721 | the PIN changes only through the settings section's field |
| Lock.EmptyPinOpens | manha-pos/src/App.jsx:206-212 | an empty PIN is matched by the empty prompt field |
| Lock.LockedWithoutPin | manha-pos/src/App.jsx:197-232 | no sequence of events that never enters the PIN unlocks a locked session or shows a protected section |
| Lock.LongPinLocksOut | manha-pos/src/App.jsx:721 | as written, a PIN longer than four characters leaves a locked session locked whatever happens next |
| Lock.LongPinExample | manha-pos/src/App.jsx:819 | entering "12345" in the settings and locking: as written nothing unlocks; corrected, the PIN is "1234" and entering it unlocks |
| SaleEdit.UpdateItemQtyEffect | manha-pos/src/App.jsx:386-394 | editing one quantity changes only that line's quantity, to the typed text read as an integer, or 0 |
| SaleEdit.UpdateItemQty | manha-pos/src/App.jsx:386-394 | the quantity edit of the sale editor; specified by `UpdateItemQtyEffect` |
| SaleEdit.RemoveItem | manha-pos/src/App.jsx:396-401 | the line removal of the sale editor; specified by `RemoveItemEffect` and `WithoutIndexDrops` |
| SaleEdit.Recompute | manha-pos/src/App.jsx:403-418 | the fields saving writes, with total and item count recomputed; specified by `SavedSaleConsistent` |
| SaleEdit.WithoutIndexDrops | manha-pos/src/App.jsx:396-401 | filtering by index drops exactly the line at that index |
| SaleEdit.RemoveItemEffect | manha-pos/src/App.jsx:396-401 | removing a line keeps the other lines in order and every other field |
| SaleEdit.SavedSaleConsistent | manha-pos/src/App.jsx:403-428 | after saving, the sale's total and item count agree with its new items, and its id, timestamp and time are kept |
| SaleEdit.TypeIntoSale | manha-pos/src/App.jsx:765-767 | an input of the sale editor; specified by `TypedSaleFieldSaved` |
| SaleEdit.TypedSaleFieldSaved | manha-pos/src/App.jsx:765-767 | typing into the order number, date or customer input keeps the bound sale and its lines (so the saved totals), and the saved patch carries the typed text in that field and the old text in the others |
| SalesView.SortNewestFirst | manha-pos/src/App.jsx:182-187 | the sales are ordered newest first (pending timestamps as the largest) and are a permutation of the snapshot |
| SalesView.InsertSorted | manha-pos/src/App.jsx:182-187 | inserting into a newest-first list keeps it newest first |
| SalesView.InsertPermutes | manha-pos/src/App.jsx:182-187 | inserting adds exactly the one sale |
| SalesView.SortKeepsSorted | manha-pos/src/App.jsx:182-187 | a snapshot already in order is left exactly as it is |
| SalesView.PendingFirst | manha-pos/src/App.jsx:182-187 | a sale with a pending timestamp comes before every sale with a real timestamp |
| SalesView.ContainsAt | manha-pos/src/App.jsx:453-463 | `includes` holds exactly when the term occurs at some position |
| SalesView.FilterItems | manha-pos/src/App.jsx:453-455 | the item search; specified by `FilterItemsSpec`, `EmptySearchKeepsAll` and `ItemSearchIgnoresCase` |
| SalesView.SaleMatches | manha-pos/src/App.jsx:458-462 | order number or customer name (when present) contains the term ignoring case, or the date text contains it as typed |
| SalesView.FilterSales | manha-pos/src/App.jsx:457-463 | the sales search; specified by `FilterSalesSpec` and `EmptySearchKeepsAll` |
| SalesView.FilterItemsSpec | manha-pos/src/App.jsx:453-455 | the item search keeps exactly the products whose name contains the term ignoring case, in catalog order |
| SalesView.FilterSalesSpec | manha-pos/src/App.jsx:457-463 | the sales search keeps exactly the sales whose order number, date text or customer matches, in order |
| SalesView.EmptySearchKeepsAll | manha-pos/src/App.jsx:453-463 | an empty search shows every product and every sale |
| SalesView.ItemSearchIgnoresCase | manha-pos/src/App.jsx:453-455 | the item search does not depend on the case of the term |
| Inventory.SaveItemSpec | manha-pos/src/App.jsx:245-267 | saving writes exactly when signed in with a name and a price; an update of the edited item or a new item, with the stock read as an integer |
| Inventory.SaveItemWrite | manha-pos/src/App.jsx:245-267 | the write the item editor's save issues, if any; specified by `SaveItemSpec`, `TypedStock`, `BlankFormRefused` and `EditUnchanged` |
| Inventory.DeleteItemWrite | manha-pos/src/App.jsx:274-285 | the write the delete button issues, if any; specified by `DeleteGuard` |
| Inventory.TypedStock | manha-pos/src/App.jsx:251 | a typed stock reads as its integer, and text without digits as 0 |
| Inventory.BlankFormRefused | manha-pos/src/App.jsx:235-238 | the empty editor cannot be saved |
| Inventory.EditUnchanged | manha-pos/src/App.jsx:240-267 | saving an opened product unchanged rewrites its own fields, unless its name is empty or its price is 0 |
| Inventory.DeleteGuard | manha-pos/src/App.jsx:274-285 | a locked app never deletes; otherwise the delete happens exactly when signed in and confirmed |
| Inventory.TypeIntoItem | manha-pos/src/App.jsx:747-756 | an input of the item editor; specified by `TypedFieldSaved` and `TypedNewItem` |
| Inventory.TypedFieldSaved | manha-pos/src/App.jsx:747-756 | typing keeps the edited document, clearing the name or the price blocks the save, and a save carries the typed text in that field, the stock read as an integer |
| Inventory.TypedNewItem | manha-pos/src/App.jsx:235-267 | filling the blank editor with a name, a price and a stock saves a new document with them, the stock read as an integer |
| Session.PosSession.constructor | manha-pos/src/App.jsx:130-154 | the session starts unlocked on the inventory section with the PIN "1234", an empty cart and no writes |
| Session.PosSession.SignIn | manha-pos/src/App.jsx:157-165 | once the anonymous sign-in completes the session is signed in |
| Session.PosSession.ReceiveCatalog | manha-pos/src/App.jsx:173-175 | the catalog becomes the delivered snapshot (see Left out for the name order) |
| Session.PosSession.ReceiveSales | manha-pos/src/App.jsx:180-188 | the sales snapshot is kept newest first |
| Session.PosSession.HandleTabChange | manha-pos/src/App.jsx:197-204 | the handler performs the lock machine's section request |
| Session.PosSession.SetPinInput | manha-pos/src/App.jsx:817 | the handler performs the lock machine's PIN entry |
| Session.PosSession.VerifyPin | manha-pos/src/App.jsx:206-220 | the handler performs the lock machine's PIN submission, and alerts exactly when the PIN is wrong |
| Session.PosSession.ToggleGlobalLock | manha-pos/src/App.jsx:222-232 | the handler performs the lock machine's lock button |
| Session.PosSession.ClosePinModal | manha-pos/src/App.jsx:811 | closing the prompt only hides it |
| Session.PosSession.EditSecurityPin | manha-pos/src/App.jsx:721 | the handler performs the lock machine's PIN change (corrected, see Findings) |
| Session.PosSession.AddToCart | manha-pos/src/App.jsx:288-298 | the cart becomes the add updater's result and keeps distinct products |
| Session.PosSession.RemoveFromCart | manha-pos/src/App.jsx:300-302 | the cart becomes the remove updater's result and keeps distinct products |
| Session.PosSession.UpdateCartQty | manha-pos/src/App.jsx:304-326 | the cart becomes the quantity updater's result against the current catalog and keeps distinct products |
| Session.PosSession.Checkout | manha-pos/src/App.jsx:332-371 | locked: an alert and nothing else; signed out or empty cart: nothing; otherwise the sale write, then one stock write per line in cart order, then an empty cart and the new sale on show, whose order number is "ORD-" and six digits |
| Session.PosSession.WriteStock | manha-pos/src/App.jsx:355-361 | the log grows by exactly the stock writes computed from the catalog snapshot, one per line in order |
| Session.PosSession.OpenAddItem | manha-pos/src/App.jsx:235-238 | the editor is emptied |
| Session.PosSession.OpenEditItem | manha-pos/src/App.jsx:240-243 | the editor holds a copy of the product |
| Session.PosSession.TypeItemField | manha-pos/src/App.jsx:747-756 | the item editor becomes `TypeIntoItem` of the old editor |
| Session.PosSession.HandleSaveItem | manha-pos/src/App.jsx:245-272 | at most one write is issued, the one the editor's content calls for |
| Session.PosSession.HandleDeleteItem | manha-pos/src/App.jsx:274-285 | locked: an alert and no write; otherwise a delete exactly when signed in and confirmed |
| Session.PosSession.OpenEditSale | manha-pos/src/App.jsx:374-384 | the sale editor holds the sale's editable fields |
| Session.PosSession.TypeSaleField | manha-pos/src/App.jsx:765-767 | the sale editor becomes `TypeIntoSale` of the old editor |
| Session.PosSession.UpdateSaleEditItemQty | manha-pos/src/App.jsx:386-394 | the sale editor takes the quantity edit |
| Session.PosSession.RemoveSaleEditItem | manha-pos/src/App.jsx:396-401 | the sale editor loses the line at that index |
| Session.PosSession.HandleUpdateSale | manha-pos/src/App.jsx:403-432 | signed out or unbound editor: nothing; otherwise the recomputed patch is written and the sale on show, when it is this one, shows it too |

## Left out

- Database I/O: writes are appended to `PosSession.log` instead of being sent, and snapshots are handed to `ReceiveCatalog` and `ReceiveSales`; document paths, the app id and the user id are not modelled.
- Failed writes: a write that fails part-way through a checkout leaves earlier writes in place and shows an alert; the model has every write succeed.
- Concurrency: two devices checking out at once can overwrite each other's stock (the stock written is computed from the local snapshot); the model has one session.
- Session.PosSession.ReceiveCatalog: the items snapshot is sorted by name with `localeCompare`; the model takes the snapshot in the order given.
- Lower-casing is ASCII only; JavaScript's full Unicode `toLowerCase` is not modelled.
- Prices are integers in minor units; `parseFloat` of the price text, floating-point totals and `toFixed` formatting are not modelled, and the item editor keeps its price text as entered.
- `parseInt` is modelled for decimal text; hexadecimal prefixes and numbers beyond 2^53 are not.
- The clock (`new Date()`, locale date and time texts), the draw of `Math.random()` (a real in [0, 1), the `rand` parameter) and the ids the database assigns are parameters of `Checkout`; the server timestamp is `None` until a snapshot delivers it.
- The browser's `alert` and `confirm` are the `alerted` results of `Checkout`, `HandleDeleteItem` and `VerifyPin` and the `confirmed` parameter of `HandleDeleteItem`; the alerts shown when a write fails and the "PIN Updated!" alert of the settings button are not modelled.
- Rendering, the visibility flags of the item and sale editors (the PIN prompt's `showPinModal` is modelled), printing, the data backup download and `manha-pos/src/main.jsx` are not part of this model.
- Products carry no description or image URL, so `Inventory.OpenEditItem` fills those with empty text.
- The lock and the PIN are held in memory only; a page reload resets them, which the model does not represent.
- Session.PosSession.EditSecurityPin: follows the corrected settings field (held to four characters), not the field as written; see Findings.

## Findings

| source | as written | input that shows it | evidently intended | confidence | as-written member | corrected member |
|---|---|---|---|---|---|---|
| manha-pos/src/App.jsx:721 | the settings PIN field has no length limit while the unlock prompt's field holds at most four characters (line 819), so a longer PIN can never be entered at the prompt | open Settings, enter "12345" as the PIN, press the lock button: no later event unlocks the session or shows a protected section | the PIN set in the settings is one the prompt can accept | medium, not executed | Lock.LongPinLocksOut | Lock.PinAlwaysFits |
