# Order totals and line items — a Dafny model

This project models the order-handling core of a small shop built with Django and React.

The backend (`backend/Store/models.py`, `backend/Store/signals.py`) does four things:
- It stores orders, products and order items.
- It derives each order's number from its key.
- It snapshots a product's unit price into each order item when the item is saved.
- After every item save or delete, it recomputes the order's two totals: the final price and the product count.

The frontend has four parts:
- **Add/edit order view** (`AEOrderView.jsx`). For a new order it keeps a local draft whose totals follow the items. For an existing order every item change is a remote call followed by a refetch. Saving a draft creates the order and then its items, one at a time and in list order.
- **Items table** (`OrderItemsTable.jsx`). It validates a typed quantity and confirms removals.
- **Add-product dialog** (`AddProductToOrderModal.jsx`). It picks a product and a quantity.
- **Orders list** (`MyOrdersView.jsx`). It shows a status chip or a status selector, and deletes orders after a confirmation.

Modelling choices:
- **Money** is integer cents. The frontend's `toFixed(2)` and `parseFloat` become `Decimal.FormatCents` and `Decimal.ParseCents`, with a proved round trip.
- **The backend** is the value `Models.Store`. Each save is a function from the tables before it to the tables after it, and the signal receivers' `update_totals` runs inside the item saves. The lemmas prove that each save keeps every order's stored totals equal to the fold over its items.
- **The views** are classes whose fields are the components' state variables. Remote calls are returned as a sequence of `OrderStore.Command`. The replies the services would give are parameters (`Reply`, or `Option<Failure>` where only success matters). Each event handler is one step, together with the React effect that follows it.
- **Draft item lists** are transformed by the pure functions of `OrderLines`, which the view methods are proved against.

Modules: `Common`, `Decimal`, `Models`, `OrderStore`, `OrderLines`, `OrderEditor`, `OrderItemsTable`, `AddProductDialog`, `MyOrders`.

## Model

| member | source | states |
|---|---|---|
| Decimal.NatToStringRoundTrip | backend/Store/models.py:42 | the decimal text of a number reads back as that number |
| Decimal.NatToStringInjective | frontend/src/components/modals/AddProductToOrderModal.jsx:19 | two keys have the same text exactly when they are equal, so comparing ids as strings is comparing ids |
| Decimal.ZeroPaddedDigits | backend/Store/models.py:42 | `%05d` padding yields only digits, reads back as the number, and is max(5, digit count) long |
| Decimal.ParseIntOfIntToString | frontend/src/components/OrderItemsTable.jsx:18-22 | `parseInt(n.toString(), 10)` gives back n for every integer |
| Decimal.ParseIntWithoutDigits | frontend/src/components/OrderItemsTable.jsx:22-23 | text with no digit parses to NaN |
| Decimal.FormatCentsRoundTrip | frontend/src/views/AEOrderView.jsx:98 | `toFixed(2)` of an amount parses back to exactly that amount of cents |
| Decimal.FormatCents | frontend/src/views/AEOrderView.jsx:98 | `toFixed(2)`: the text ends in '.' and two digits; that it loses nothing is `Decimal.FormatCentsRoundTrip` |
| Decimal.ParseInt | frontend/src/components/OrderItemsTable.jsx:22 | `parseInt(s, 10)`; stated by `Decimal.ParseIntOfIntToString`, `Decimal.ParseIntWithoutDigits` and `OrderItemsTable.SaveDecision` |
| Models.ParseStatus | backend/Store/models.py:20-24 | a stored status value maps to its choice; any other text to none |
| Models.StatusValuesDistinct | backend/Store/models.py:20-28 | the three stored values are distinct and each reads back as its own choice |
| Models.Extension | backend/Store/models.py:6 | `split('.')[-1]` is the dot-free suffix after the last '.', or the whole name |
| Models.ExtensionAfterDot | backend/Store/models.py:6-7 | the extension of `stem.ext` is `ext` when `ext` has no dot |
| Models.ProductImagePath | backend/Store/models.py:5-8 | the upload path is `products_images/` + uuid + '.' + the uploaded file's extension, and keeps that extension |
| Models.OrderNumberShape | backend/Store/models.py:42 | an order number is "ORD-" and at least five digits that read back as the order's key |
| Models.OrderNumberInjective | backend/Store/models.py:42 | distinct orders get distinct numbers, so the unique column never clashes |
| Models.IndexOfItem | backend/Store/models.py:60-64 | lookup by primary key: the position of the row with that key, or -1 when none has it |
| Models.TotalItemPrice | backend/Store/models.py:69-73 | `total_item_price`, quantity × snapshot or 0; what it adds to an order is stated by `Models.CreateItemTotals`, `Models.UpdateItemQuantityTotals` and `Models.DeleteItemTotals` |
| Models.SnapshotPrice | backend/Store/models.py:75-79 | the snapshot rule; stated by `Models.CreateItemOutcome` (a new row takes the current price) and `Models.UpdateItemQuantityOutcome` (a nonzero snapshot is kept, a zero one re-taken) |
| Models.Recounted | backend/Store/models.py:48-58 | `update_totals` writes the sum of item totals and the sum of quantities over the order's items and touches nothing else |
| Models.RecountRestores | backend/Store/signals.py:5-14 | when an item change touches only one order's items, recounting that order restores every order's totals |
| Models.AppendKeepsTotals | backend/Store/signals.py:5-8 | after an item is inserted and its order recounted, all totals are right and the order grew by the item's total and quantity |
| Models.ReplaceKeepsTotals | backend/Store/signals.py:5-8 | after an item is rewritten and its order recounted, all totals are right and the old share is swapped for the new |
| Models.RemoveKeepsTotals | backend/Store/signals.py:10-14 | after an item is deleted and its order recounted, all totals are right and the item's share has left |
| Models.KeepsNumbers | backend/Store/models.py:36-46 | a save that does not touch the number keeps every order number derived from its key |
| Models.StatusKeepsTotals | backend/Store/models.py:46 | a status change keeps every order's totals right |
| Models.NewOrderKeepsTotals | backend/Store/models.py:29-30 | a new order with no items and zero totals keeps all totals right |
| Models.EmptyStore | backend/Store/models.py:19-30 | an empty database over a catalogue satisfies the store invariant |
| Models.CreateOrder | backend/Store/models.py:36-44 | Order.save on a new order; stated by `Models.CreateOrderOutcome` and `Models.CreateOrderKeepsValid` |
| Models.UpdateOrderStatus | backend/Store/models.py:46 | Order.save on an existing order; stated by `Models.UpdateOrderStatusOutcome` and `Models.UpdateOrderStatusKeepsValid` |
| Models.UpdateTotals | backend/Store/models.py:48-58 | `update_totals`; stated by `Models.Recounted` and `Models.RecountRestores` |
| Models.CreateItem | backend/Store/models.py:75-79 | OrderItem.save on a new row plus the post_save receiver; stated by `Models.CreateItemOutcome`, `Models.CreateItemTotals` and `Models.CreateItemKeepsValid` |
| Models.UpdateItemQuantity | backend/Store/models.py:75-79 | OrderItem.save on an existing row plus the post_save receiver; stated by `Models.UpdateItemQuantityOutcome`, `Models.UpdateItemQuantityTotals` and `Models.UpdateItemQuantityKeepsValid` |
| Models.DeleteItem | backend/Store/signals.py:10-14 | an item delete plus the post_delete receiver; stated by `Models.DeleteItemOutcome`, `Models.DeleteItemTotals` and `Models.DeleteItemKeepsValid` |
| Models.DeleteRow | backend/Store/signals.py:10-14 | the delete of one row plus its order's recount; stated by `Models.RemoveKeepsTables` and `Models.RemoveKeepsValid` |
| Models.UpdateProductPrice | backend/Store/models.py:10-12 | a product price edit; stated by `Models.UpdateProductPriceOutcome` |
| Models.CreateOrderOutcome | backend/Store/models.py:36-44 | a new order gets the next key, the number derived from it, the given status or Pending, zero totals and no items; nothing else changes |
| Models.CreateOrderKeepsValid | backend/Store/models.py:36-44 | creating an order keeps the store invariant (keys, numbers, totals) |
| Models.UpdateOrderStatusOutcome | backend/Store/models.py:46 | a status change rewrites only that status; any choice is accepted, Completed included; a missing order is reported |
| Models.UpdateOrderStatusKeepsValid | backend/Store/models.py:46 | a status change keeps the store invariant |
| Models.CreateItemOutcome | backend/Store/models.py:60-79 | an item create is refused exactly for an unknown order or product or a negative quantity; otherwise the row gets the next key and the product's current price as its snapshot, and only its order is rewritten |
| Models.CreateItemFreshKey | backend/Store/models.py:60 | the new item's key is used by no earlier row |
| Models.CreateItemTotals | backend/Store/signals.py:5-8 | creating an item grows its order's price by quantity × current unit price and its count by quantity |
| Models.CreateItemKeepsValid | backend/Store/models.py:75-79 | creating an item, with its signal, keeps the store invariant |
| Models.UpdateItemQuantityOutcome | backend/Store/models.py:75-79 | a quantity change rewrites only that row; a nonzero snapshot is kept whatever the product costs now, a zero one is taken again; its order keeps its status and number and only its totals are rewritten; other orders are unchanged |
| Models.UpdateItemQuantityTotals | backend/Store/signals.py:5-8 | a quantity change swaps the row's old share of its order's totals for the new one |
| Models.UpdateItemQuantityKeepsValid | backend/Store/models.py:75-79 | a quantity change, with its signal, keeps the store invariant |
| Models.ReplaceKeepsTables | backend/Store/models.py:60-64 | rewriting a row in place and recounting keeps keys and foreign keys consistent |
| Models.RemoveKeepsTables | backend/Store/models.py:60-62 | deleting a row and recounting keeps keys and foreign keys consistent |
| Models.DeleteItemOutcome | backend/Store/signals.py:10-14 | deleting an item removes exactly that row and rewrites only its order; a missing key is reported |
| Models.DeleteItemTotals | backend/Store/signals.py:10-14 | deleting an item takes exactly its total and its quantity off its order |
| Models.DeleteItemKeepsValid | backend/Store/signals.py:10-14 | deleting an item keeps the store invariant |
| Models.RemoveKeepsValid | backend/Store/signals.py:10-14 | deleting any row and recounting keeps the store invariant |
| Models.UpdateProductPriceOutcome | backend/Store/models.py:75-79 | a product's new price reaches no stored snapshot: items and totals stay as they were |
| Models.ItemFieldsAsWritten | backend/Store/serializers.py:19-21 | the item fields that reach the row as written, without the order; stated by `Models.ItemPostAsWrittenRefused` |
| Models.ItemFieldsCorrected | backend/Store/serializers.py:19-21 | the item fields with the order kept; stated by `Models.ItemPostCorrectedCreates` |
| Models.CreateItemFromFields | backend/Store/models.py:60-63 | saving a posted item, refused without an order (non-null foreign key); stated by the two lemmas below |
| Models.ItemPostAsWrittenRefused | backend/Store/serializers.py:19-21 | as written, every item create is refused, whatever the store and the request (see Findings) |
| Models.ItemPostCorrectedCreates | backend/Store/serializers.py:19-21 | with `order` kept, a create succeeds exactly when the order and product exist and the quantity is not negative, and appends the row with the current price |
| OrderLines.FromServerAll | frontend/src/views/AEOrderView.jsx:50 | fetched items map one to one, in order, to editor rows |
| OrderLines.FindIndex | frontend/src/views/AEOrderView.jsx:160-162 | `findIndex`: the first row whose key is the product, or -1 when no row has it |
| OrderLines.ProductKeyAsWritten | frontend/src/views/AEOrderView.jsx:160-162 | `item.product_id \|\| item.product?.id`; stated by `OrderLines.KeysAgreeOnDraftRows` and `OrderLines.FetchedRowsNeverMatchAsWritten` |
| OrderLines.ProductKey | frontend/src/views/AEOrderView.jsx:160-162 | the product a row is for, in either form; stated by `OrderLines.KeysAgreeOnDraftRows` and `OrderLines.FetchedRowFound` |
| OrderLines.LineTotal | frontend/src/views/AEOrderView.jsx:90-91 | a row's part of the price fold; on draft rows it is price × quantity (`OrderLines.DraftPriceTotal`) |
| OrderLines.CountTotal | frontend/src/views/AEOrderView.jsx:88 | the quantity fold; stated by `OrderLines.TotalsOfConcat`, `OrderLines.AddToDraftTotals`, `OrderLines.SetQuantityTotals` and `OrderLines.RemoveTotals` |
| OrderLines.PriceTotal | frontend/src/views/AEOrderView.jsx:89-93 | the price fold; stated by `OrderLines.TotalsOfConcat`, `OrderLines.DraftPriceTotal` and the `*Totals` lemmas |
| OrderLines.TotalsOfConcat | frontend/src/views/AEOrderView.jsx:88-93 | both totals folds distribute over concatenation |
| OrderLines.TotalsAround | frontend/src/views/AEOrderView.jsx:88-93 | the totals split at any row into the part before, the row, and the part after |
| OrderLines.AddToDraft | frontend/src/views/AEOrderView.jsx:189-211 | a row holding the product becomes that row with quantity + the added amount and its total recomputed, every other field and every other row kept; otherwise the new row (no key, the embedded product, its key, name and price, total price × quantity) is appended |
| OrderLines.SetQuantityAt | frontend/src/views/AEOrderView.jsx:255-266 | only row i changes, and it becomes row i with the new quantity and its total recomputed from its unit price, every other field kept |
| OrderLines.RemoveAt | frontend/src/views/AEOrderView.jsx:233-236 | row i is dropped and the others keep their order; an index outside the list changes nothing |
| OrderLines.NewDraftRowIsDraft | frontend/src/views/AEOrderView.jsx:200-207 | an appended row is a draft row for the added product |
| OrderLines.RequantifiedIsDraft | frontend/src/views/AEOrderView.jsx:192-196 | recomputing a draft row's total keeps it a draft row for the same product |
| OrderLines.AddToDraftKeepsDraftRows | frontend/src/views/AEOrderView.jsx:189-211 | adding keeps every row a draft row |
| OrderLines.AddToDraftKeepsUnique | frontend/src/views/AEOrderView.jsx:160-211 | after an add the product is present and no product is held by two rows |
| OrderLines.AddToDraftTotals | frontend/src/views/AEOrderView.jsx:86-101 | an add grows the count by the quantity and the price by that quantity's cost |
| OrderLines.AddTwice | frontend/src/views/AEOrderView.jsx:189-211 | adding a and then b of a product equals adding a + b once |
| OrderLines.MergeKeepsIndex | frontend/src/views/AEOrderView.jsx:189-197 | after a merge the product is still found at the merged row |
| OrderLines.AppendFindsNewRow | frontend/src/views/AEOrderView.jsx:199-211 | after an append the product is found at the new last row |
| OrderLines.SetQuantityKeepsDraftRows | frontend/src/views/AEOrderView.jsx:255-266 | a quantity edit keeps every row a draft row |
| OrderLines.SetQuantityKeepsUnique | frontend/src/views/AEOrderView.jsx:255-266 | a quantity edit keeps one row per product |
| OrderLines.SetQuantityTotals | frontend/src/views/AEOrderView.jsx:86-101 | a quantity edit moves the count by the quantity change and the price by the row-total change |
| OrderLines.RemoveKeepsDraftRows | frontend/src/views/AEOrderView.jsx:233-236 | a removal keeps every row a draft row |
| OrderLines.RemoveKeepsUnique | frontend/src/views/AEOrderView.jsx:233-236 | a removal keeps one row per product |
| OrderLines.RemoveTotals | frontend/src/views/AEOrderView.jsx:86-101 | a removal takes exactly the row's quantity and total off the totals |
| OrderLines.DraftPriceTotal | frontend/src/views/AEOrderView.jsx:89-93 | on a draft the price fold equals Σ unit price × quantity |
| OrderLines.KeysAgreeOnDraftRows | frontend/src/views/AEOrderView.jsx:160-162 | on draft rows the key as written finds the same row as the corrected key |
| OrderLines.FetchedRowsNeverMatchAsWritten | frontend/src/views/AEOrderView.jsx:160-162 | as written, no fetched row ever matches a product (see Findings) |
| OrderLines.FetchedRowFound | frontend/src/views/AEOrderView.jsx:160-162 | with the corrected key, a product held by a fetched row is found at a row holding it |
| OrderEditor.DraftShowsTotals | frontend/src/views/AEOrderView.jsx:86-101 | a draft's shown count is the quantity sum and its shown price reads back as the sum of the row totals, Σ unit price × quantity |
| OrderEditor.DraftDefaultsValid | frontend/src/views/AEOrderView.jsx:60-68 | the initial draft (no items, 0, "0.00", Pending) satisfies the draft invariant |
| OrderEditor.FromPayload | frontend/src/views/AEOrderView.jsx:43-51 | a fetched order with each absent field defaulted; stated by `OrderEditor.AfterFetch` and `OrderEditor.FetchedRowsSaved` |
| OrderEditor.Retotalled | frontend/src/views/AEOrderView.jsx:86-101 | the draft totals effect; stated by `OrderEditor.DraftShowsTotals` |
| OrderEditor.AfterFetch | frontend/src/views/AEOrderView.jsx:37-58 | a fetch sets the lock exactly when the fetched status is "Completed" and clears the error; a failed fetch changes only the error |
| OrderEditor.ItemCreates | frontend/src/views/AEOrderView.jsx:128-134 | one item create per row, in list order, with the row's product and quantity |
| OrderEditor.FirstFailure | frontend/src/views/AEOrderView.jsx:128-146 | the first failing create among the first n, or n when all succeed |
| OrderEditor.SaveErrorText | frontend/src/views/AEOrderView.jsx:144 | the server's detail, else the message, else the default; used by `OrderEditor.Save` |
| OrderEditor.Save | frontend/src/views/AEOrderView.jsx:109-150 | the calls and error of a save; stated by `OrderEditor.SaveEditSendsStatusOnly`, `OrderEditor.DraftCommitOrder` and `OrderEditor.DraftCommitSucceeds` |
| OrderEditor.SaveEditSendsStatusOnly | frontend/src/views/AEOrderView.jsx:121-123 | saving an edited order sends one update that carries only the status, and fails exactly when that call fails |
| OrderEditor.DraftCommitOrder | frontend/src/views/AEOrderView.jsx:124-138 | a draft commit creates the order first, then row j's item as command j+1, stops after the first failure, and fetches only when all succeeded |
| OrderEditor.DraftCommitSucceeds | frontend/src/views/AEOrderView.jsx:124-146 | a draft commit leaves no error exactly when the order create, every item create and the fetch succeed |
| OrderEditor.DraftCommitFirstItemRefused | frontend/src/views/AEOrderView.jsx:124-146 | when the first item create fails, a draft commit creates the order, sends one item create and ends with its error, leaving the order without items |
| OrderEditor.CreateItemsInOrder | frontend/src/views/AEOrderView.jsx:128-134 | the loop issues exactly the creates of the rows up to and including the first failure, and returns that failure |
| OrderEditor.FetchedRowsSaved | frontend/src/views/AEOrderView.jsx:43-51 | every row of a fetched order has a store key |
| OrderEditor.EditAddCommand | frontend/src/views/AEOrderView.jsx:164-179 | on an edited order an add updates the row holding the product to its quantity + the added amount exactly when such a row exists, and otherwise creates one |
| OrderEditor.EditAddAsWrittenCreates | frontend/src/views/AEOrderView.jsx:160-179 | as written, adding a product the fetched order holds sends a create instead of the update of its row (see Findings) |
| OrderEditor.EditAddCommandAsWritten | frontend/src/views/AEOrderView.jsx:160-179 | the add command with rows matched by the key as written; its behaviour is stated by `OrderEditor.EditAddAsWrittenCreates` |
| OrderEditor.ControlsFor | frontend/src/views/AEOrderView.jsx:300-368 | a completed order offers only "Completed" and disables every control; otherwise the three choices in order, and submit waits only for saving |
| OrderEditor.AddEditOrderView.constructor | frontend/src/views/AEOrderView.jsx:19-35 | the view starts from the draft defaults, unlocked, with no error |
| OrderEditor.AddEditOrderView.Refetch | frontend/src/views/AEOrderView.jsx:37-58 | one fetch of the order, whose reply is applied as `AfterFetch` says |
| OrderEditor.AddEditOrderView.FetchOrderData | frontend/src/views/AEOrderView.jsx:37-70 | an edited order is fetched; a draft is reset to its defaults and unlocked |
| OrderEditor.AddEditOrderView.InputChange | frontend/src/views/AEOrderView.jsx:103-107 | a completed order ignores the change; otherwise only the status changes |
| OrderEditor.AddEditOrderView.OpenAddProductModal | frontend/src/views/AEOrderView.jsx:152-155 | a completed order ignores the click; otherwise the dialog opens |
| OrderEditor.AddEditOrderView.CloseAddProductModal | frontend/src/views/AEOrderView.jsx:156 | the dialog closes and nothing else changes |
| OrderEditor.AddEditOrderView.SetDraftItems | frontend/src/views/AEOrderView.jsx:86-101 | the draft's items are replaced and its totals recomputed from them |
| OrderEditor.AddEditOrderView.Submit | frontend/src/views/AEOrderView.jsx:109-150 | a completed order sends nothing; otherwise the calls and error are those of `Save`, and the view navigates away when there is no error; the draft invariant is kept |
| OrderEditor.AddEditOrderView.AddProductToOrder | frontend/src/views/AEOrderView.jsx:158-216 | a draft merges or appends locally and its totals follow; an edited order sends `EditAddCommand` then refetches, or sets the error; the dialog closes either way |
| OrderEditor.AddEditOrderView.RemoveItemFromOrder | frontend/src/views/AEOrderView.jsx:218-238 | an edited order deletes the row's item and refetches, or sets the error; a draft drops the row and its totals follow |
| OrderEditor.AddEditOrderView.EditItemInOrder | frontend/src/views/AEOrderView.jsx:240-268 | an edited order updates the row's item and refetches, or sets the error; a draft changes the row and its totals follow |
| OrderItemsTable.SaveDecision | frontend/src/components/OrderItemsTable.jsx:21-25 | the owner is told exactly when the text parses to an integer > 0, and is told that integer |
| OrderItemsTable.SaveUntouchedQuantity | frontend/src/components/OrderItemsTable.jsx:16-25 | saving right after the edit click reports the row's own quantity when positive, and nothing otherwise |
| OrderItemsTable.SaveWithoutDigits | frontend/src/components/OrderItemsTable.jsx:21-25 | text without a digit never reaches the owner |
| OrderItemsTable.RowControlsFor | frontend/src/components/OrderItemsTable.jsx:85-128 | the quantity editor shows only on the edited row of an enabled table; a disabled table disables edit and delete |
| OrderItemsTable.ItemsTable.constructor | frontend/src/components/OrderItemsTable.jsx:11-14 | no row in edit mode, no removal pending |
| OrderItemsTable.ItemsTable.EditClick | frontend/src/components/OrderItemsTable.jsx:16-19 | the row enters edit mode with its quantity's text |
| OrderItemsTable.ItemsTable.QuantityTyped | frontend/src/components/OrderItemsTable.jsx:89 | the typed text is stored and nothing else changes |
| OrderItemsTable.ItemsTable.SaveClick | frontend/src/components/OrderItemsTable.jsx:21-28 | reports `SaveDecision` of the typed text and leaves edit mode either way |
| OrderItemsTable.ItemsTable.CancelClick | frontend/src/components/OrderItemsTable.jsx:30-33 | leaves edit mode without reporting anything |
| OrderItemsTable.ItemsTable.DeleteItemClick | frontend/src/components/OrderItemsTable.jsx:35-38 | the row's removal is pending and the dialog opens |
| OrderItemsTable.ItemsTable.CloseDeleteItemModal | frontend/src/components/OrderItemsTable.jsx:40-43 | the dialog closes with nothing pending |
| OrderItemsTable.ItemsTable.ConfirmDeleteItem | frontend/src/components/OrderItemsTable.jsx:45-50 | the pending row, if any, is reported for removal, and the dialog closes with nothing pending |
| AddProductDialog.Lookup | frontend/src/components/modals/AddProductToOrderModal.jsx:19 | `find`: the first product of the list whose key text is the selection, or none when no key matches |
| AddProductDialog.ResolveChosen | frontend/src/components/modals/AddProductToOrderModal.jsx:17-24 | choosing a product of the list resolves to a product with that key |
| AddProductDialog.QuantityAfter | frontend/src/components/modals/AddProductToOrderModal.jsx:32-39 | a positive integer is stored, the empty text blanks the field, and anything else leaves it unchanged |
| AddProductDialog.AddCall | frontend/src/components/modals/AddProductToOrderModal.jsx:26-30 | the owner gets the product and quantity exactly when a product is resolved and the quantity is positive |
| AddProductDialog.AddDisabled | frontend/src/components/modals/AddProductToOrderModal.jsx:139 | the Add button's disabled test; stated by `AddProductDialog.AddEnabledMeansCall` |
| AddProductDialog.AddEnabledMeansCall | frontend/src/components/modals/AddProductToOrderModal.jsx:136-140 | a disabled Add button never calls; an enabled one calls exactly when the selection names a listed product |
| AddProductDialog.AddProductToOrderModal.constructor | frontend/src/components/modals/AddProductToOrderModal.jsx:5-7 | nothing selected, quantity 1, no details |
| AddProductDialog.AddProductToOrderModal.SetOpen | frontend/src/components/modals/AddProductToOrderModal.jsx:9-15 | opening resets the selection, the quantity to 1 and the details |
| AddProductDialog.AddProductToOrderModal.SetProducts | frontend/src/components/modals/AddProductToOrderModal.jsx:9-24 | a new list resets an open dialog, and the details follow the selection |
| AddProductDialog.AddProductToOrderModal.SelectProduct | frontend/src/components/modals/AddProductToOrderModal.jsx:17-24 | the selection is stored and the details are resolved from it |
| AddProductDialog.AddProductToOrderModal.QuantityChange | frontend/src/components/modals/AddProductToOrderModal.jsx:32-39 | the quantity becomes `QuantityAfter` of the typed text; nothing else changes |
| AddProductDialog.AddProductToOrderModal.Add | frontend/src/components/modals/AddProductToOrderModal.jsx:26-30 | the call made is `AddCall` of the details and the quantity |
| MyOrders.StatusChipColor | frontend/src/views/MyOrdersView.jsx:21-32 | Pending gets warning, InProgress info, Completed success, each exactly; any other text the default |
| MyOrders.StatusColorsDistinct | frontend/src/views/MyOrdersView.jsx:21-32 | different statuses are shown in different colours |
| MyOrders.StatusCellFor | frontend/src/views/MyOrdersView.jsx:146-170 | a chip exactly for a completed order; otherwise a selector offering the three stored values in order |
| MyOrders.EditDisabled | frontend/src/views/MyOrdersView.jsx:178 | editing is disabled exactly for the orders shown as a chip |
| MyOrders.DeleteDisabled | frontend/src/views/MyOrdersView.jsx:182-187 | deleting is never disabled, completed orders included |
| MyOrders.MyOrdersView.constructor | frontend/src/views/MyOrdersView.jsx:13-19 | empty list, no error, no pending deletion |
| MyOrders.MyOrdersView.FetchOrders | frontend/src/views/MyOrdersView.jsx:34-46 | one list call; success replaces the list and clears the error, failure sets the error |
| MyOrders.MyOrdersView.DeleteClick | frontend/src/views/MyOrdersView.jsx:52-55 | the order's deletion is pending and the dialog opens |
| MyOrders.MyOrdersView.CloseDeleteModal | frontend/src/views/MyOrdersView.jsx:73-76 | the dialog closes with nothing pending |
| MyOrders.MyOrdersView.ConfirmDelete | frontend/src/views/MyOrdersView.jsx:57-71 | nothing pending does nothing; success deletes, clears the pending order and refetches; failure sets the error and keeps the order pending |
| MyOrders.MyOrdersView.StatusChange | frontend/src/views/MyOrdersView.jsx:78-89 | the status patch is sent and the list is refetched whether or not it succeeded |

## Left out

- HTTP and the services: every call becomes an `OrderStore.Command`, and its reply is a parameter. The serializers and REST views are not part of this model. Neither is the product list the editor fetches; the dialog receives it as a parameter.
- Asynchrony: each handler runs as one uninterrupted step. Interleavings of concurrent handlers and of React's batched state updates are not modelled.
- The `loading` and `saving` flags, the snackbars, the console output and the navigation target. `saving` appears only as an input to `OrderEditor.ControlsFor`, and the navigation is the flag `navigatedAway`.
- Column widths: the price and total columns are `DecimalField(max_digits=10, decimal_places=2)`, so at most 99,999,999.99. Quantities and counts are `PositiveIntegerField`. `Models.Store` uses unbounded integers. A total beyond its column would make `update_totals`' `.update()` fail after the item row is already saved, because the post_save receiver runs after the insert and no transaction is shown. The stored totals would then no longer be the fold over the items. The `*KeepsValid` lemmas therefore hold only while every total fits its column.
- Floating point: prices are integer cents. JavaScript's float rounding in `parseFloat`, `*` and `toFixed` is not modelled.
- `uuid4()` and the clock: the uuid is a parameter of `Models.ProductImagePath`. `creation_date` is left out.
- JSX rendering beyond the enable/disable and visibility decisions.
- Django's CASCADE delete of an order's items and PROTECT on products are not modelled. Orders and products are never deleted in `Models.Store`.
- Models.Store: the Django saves are modelled on a value, not as an object updated in place, so aliasing between model instances is not captured. Item-key uniqueness is captured only as freshness: a new key is greater than every stored one.
- Decimal.ParseInt: only a subset of JavaScript's whitespace is skipped before the number.
- OrderLines.AddToDraft: the merged row's total uses the embedded product's price, falling back to `unit_price_at_order`. The code reads `item.product.unit_price` with no fallback. On draft rows, the only rows this path sees, both give the same price.
- OrderEditor.AddEditOrderView.RemoveItemFromOrder and OrderEditor.AddEditOrderView.EditItemInOrder:
  - On an edited order, the local-list branch taken by a row without a store key is impossible, because every fetched row has one (`OrderEditor.FetchedRowsSaved`).
  - An index outside an edited order's list, which would throw a TypeError, is modelled as no change.
- OrderEditor.Save: the snackbar texts that read `savedOrder.order_number` on both paths are left out.
- AddProductDialog.QuantityAfter: the field holds either a number or blank. JavaScript's comparison of the string `''` with 0 is replaced by the `Blank` case, which disables Add.
- MyOrders.MyOrdersView.StatusChange: the patch's reply only picks the snackbar, so it is not a parameter.
- The Completed lock is enforced only in the browser:
  - `Models.UpdateOrderStatusOutcome` shows that the store accepts any status change and any item change on a completed order.
  - In the editor, only the status select, the Add button, the items table and Submit are guarded. The remove and edit handlers themselves are not guarded. The table's disabled buttons are what stop them.

## Findings

| source | as written | input that shows it | evidently intended | confidence | as-written member | corrected member |
|---|---|---|---|---|---|---|
| frontend/src/views/AEOrderView.jsx:160-162 | rows are matched by `item.product_id \|\| item.product?.id`; a fetched row has neither, because its `product` is a number, so the key is undefined | order 5 holds item 1: 2 of product 7; adding 1 of product 7 sends a create of product 7 instead of the update of item 1 (against this backend that create is refused, see the next row, so the view shows an error and the quantity stays 2) | update item 1 to quantity 3 | not executed; follows from the serialised item shape (backend/Store/serializers.py:21) | OrderEditor.EditAddAsWrittenCreates | OrderEditor.EditAddCommand |
| backend/Store/serializers.py:19-21 | `OrderItemSerializer` lists no `order` field, so the `order` posted with an item (frontend/src/views/AEOrderView.jsx:129-133 and 173-177) is dropped, and the row cannot be saved: `OrderItem.order` is a non-null foreign key (backend/Store/models.py:61) | a draft holding 2 of product 7 is committed and becomes order 5: the order is created, the create of its item is refused, and order 5 is left with no items while the view shows the error | the item is created in order 5 | not executed; follows from the serializer's field list | Models.ItemPostAsWrittenRefused | Models.ItemPostCorrectedCreates |
