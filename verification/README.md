# Cart store model

A Dafny model of the `Cart` class of a small e-commerce backend
(`models/Cart.js`). The class keeps one shared shopping cart as the single
document of a `carts` collection, shaped `{ items: [ { product: { name, price }, quantity } ] }`,
and offers `getCart`, `add`, `deleteProductByName`, `getItems`,
`getProductsQuantity`, `getTotalPrice` and `clearCart`.

With the database taken away every method is a pure operation on an abstract
store. The store is `Option<Doc>`: no document, or the one document, whose
`items` field may itself be missing. Each method becomes a function from the
store before the call to a `Step(store, value, wrote)`. It gives the store
after the call, the value the method returns, and whether it issued a write.

Modules:

- `Wrappers` (`wrappers.dfy`): `Option`, `Result`, `Outcome`.
- `CartItems` (`cart_items.dfy`): products, items, the item-list operations
  (first match by name, increment-or-append, filter by name, the two `reduce`
  folds) and their lemmas, including the invariant "one item per name, every
  quantity at least 1, names non-empty, prices non-negative".
- `Cart` (`cart.dfy`): the store, the argument checks of `add`, and the seven
  methods.
- `CartProperties` (`cart_properties.dfy`): what add and delete do to the items
  and to the aggregates, the invariants they keep, the add/delete round trip,
  and clearing.
- `StorageFaults` (`storage_faults.dfy`): the faults the methods catch and log,
  made explicit, with one finding (below).
- `CartScenarios` (`cart_scenarios.dfy`): sequences of adds. These are repeated
  adds of one name, the first add into an empty cart, and the pen-and-book
  example.

Modelling choices that follow the code:

- `getItems`, `getProductsQuantity` and `getTotalPrice` go through `getCart`.
  So even a read creates a missing document or repairs a missing `items` field.
- `add` increments the FIRST item with the product's name, as `find` does. The
  stored price of that item is kept. `deleteProductByName` filters out EVERY
  item with the name.
- `clearCart` is a bare `updateOne({}, …)` and does not go through `getCart`. With
  no document its filter matches nothing, so the store stays empty.
- `add` does not check that the price is a number. It rejects only an
  undefined or negative price (models/Cart.js:43), and the model does the same.

## Model

| member | source | states |
|---|---|---|
| CartItems.AddItem | models/Cart.js:48-56 | the increment-or-append step; characterised by `AddExistingIncrements` (first match gets one more unit, price kept, rest unchanged) and `AddNewAppends` (absent name appended with quantity 1) |
| CartItems.RemoveNamed | models/Cart.js:77-79 | the filter by name; characterised by `RemoveNamedSpec` (keeps exactly the items with another name, shrinks iff the name occurs) and `RemoveNamedConcat` (keeps the survivors' order) |
| CartItems.TotalQuantity | models/Cart.js:110-113 | the quantity `reduce`; characterised by `TotalsOfConcat` (splits over concatenation) and `TotalsBounds` (at least the number of valid items) |
| CartItems.TotalPrice | models/Cart.js:126-129 | the price-times-quantity `reduce`; characterised by `TotalsOfConcat` (splits over concatenation) and `TotalsBounds` (not negative on valid items) |
| CartItems.FindIndex | models/Cart.js:48-50 | returns the first position whose item has the name, with no earlier item of that name; returns nothing exactly when no item has the name |
| CartItems.RemoveNamedSpec | models/Cart.js:77-79 | the filter keeps exactly the items with another name, never grows the list, shrinks it iff some item had the name, and returns the list unchanged when none had it |
| CartItems.RemoveNamedConcat | models/Cart.js:77-79 | filtering distributes over concatenation, so the survivors keep their original order |
| CartItems.TotalsOfConcat | models/Cart.js:110-129 | both folds (quantity sum, price-times-quantity sum) split over a concatenation |
| CartItems.TotalsBounds | models/Cart.js:110-129 | on valid items the quantity sum is at least the number of items and the total price is not negative |
| CartItems.AddExistingIncrements | models/Cart.js:48-53 | adding a name first found at position i gives that item one more unit, keeps its stored product and price, and leaves every other item and the length unchanged |
| CartItems.AddExistingTotals | models/Cart.js:48-53 | such an add raises the quantity sum by 1 and the total price by the stored price of that item |
| CartItems.AddNewAppends | models/Cart.js:55 | adding an absent name appends the product with quantity 1 after all earlier items; the quantity sum rises by 1 and the total by the product's price |
| CartItems.AddPreservesWellFormed | models/Cart.js:48-55 | adding a product with a non-empty name and a non-negative price keeps one item per name and every item valid |
| CartItems.AddKeepsNames | models/Cart.js:48-55 | after an add every name that was present is still present, and so is the added name |
| CartItems.RemoveUnique | models/Cart.js:77-79 | with one item per name, removing the name of item i yields exactly the items before i followed by the items after i |
| CartItems.RemoveUniqueTotals | models/Cart.js:77-79 | that removal lowers the quantity sum by the item's quantity and the total by its price times quantity |
| CartItems.RemovePreservesWellFormed | models/Cart.js:77-79 | removal by name keeps the invariant |
| CartItems.AddThenRemove | models/Cart.js:48-79 | adding an absent name and then filtering it out gives back the original list |
| Cart.SetItems | models/Cart.js:58-60 | the `updateOne` write sets the items of an existing document and does nothing when there is no document |
| Cart.GetCart | models/Cart.js:8-26 | afterwards the document exists and holds exactly the returned items, which are the items a reader saw before (none if missing); a write is issued iff the document or its field had to be created |
| Cart.Validate | models/Cart.js:37-45 | a product is accepted iff it is an object with a non-empty string name and a defined non-negative price; the object check comes first, then the name check |
| Cart.Add | models/Cart.js:33-61 | a rejected argument returns its error, leaves the store as it was and issues no write; an accepted one always writes and leaves a document with items |
| Cart.DeleteProductByName | models/Cart.js:70-95 | the items afterwards are the filter of the previous items by the name, so exactly those with another name in their original order; a write happens iff the document had to be repaired or some item had the name; with no such item the items and a complete store are unchanged |
| Cart.GetItems | models/Cart.js:97-105 | returns the items a reader sees and never changes them |
| Cart.GetProductsQuantity | models/Cart.js:107-119 | returns the quantity fold of the stored items, leaves them unchanged, and on valid items returns at least the number of items |
| Cart.GetTotalPrice | models/Cart.js:121-137 | returns the price-times-quantity fold of the stored items, leaves them unchanged, and on valid items returns a non-negative total |
| Cart.ClearCart | models/Cart.js:139-150 | afterwards a reader sees no items; a document exists afterwards iff one existed before |
| CartProperties.GetCartIdempotent | models/Cart.js:15-26 | a second read finds the document in place, returns the same items and writes nothing |
| CartProperties.AddExisting | models/Cart.js:47-60 | at store level: an add of a present name increments only its first item, keeps that item's price, raises `getProductsQuantity` by 1 and `getTotalPrice` by the stored price |
| CartProperties.AddNew | models/Cart.js:47-60 | at store level: an add of an absent name appends it with quantity 1; `getProductsQuantity` rises by 1 and `getTotalPrice` by its price |
| CartProperties.AddPreservesInvariant | models/Cart.js:36-60 | any add, accepted or rejected, keeps one item per name and every item valid |
| CartProperties.DeletePresent | models/Cart.js:73-88 | with one item per name, deleting a present name removes exactly that item, keeps the rest in order, writes, and lowers both aggregates by that item's share |
| CartProperties.DeletePreservesInvariant | models/Cart.js:77-79 | any delete keeps the invariant |
| CartProperties.AddThenDelete | models/Cart.js:47-88 | add of an absent name then delete of that name restores the items, and restores the whole store when the document already had items |
| CartProperties.ClearCartEmpties | models/Cart.js:139-146 | after `clearCart`, `getItems` returns no items and both aggregates are 0 |
| StorageFaults.GetCartIo | models/Cart.js:11-30 | with a failed read the store is unchanged, the result is the empty list and nothing is written; with a failed create/repair write the store is unchanged and the result is the empty list; on a complete document a failed write does not matter and it is `GetCart`, as it is with no fault |
| StorageFaults.FaultedReadDefaults | models/Cart.js:27-30 | a failed read yields no items, a quantity sum of 0 and a total price of 0, with the store unchanged |
| StorageFaults.AddAsWritten | models/Cart.js:36-65 | the add as written, with faults: with no fault it behaves like `Add`; a rejected argument changes nothing; a write is issued exactly when the argument is accepted |
| StorageFaults.ReadFaultOverwritesItems | models/Cart.js:47-60 | as written, a failed read followed by a successful write leaves only the added product in the cart |
| StorageFaults.ReadFaultLosesPens | models/Cart.js:47-60 | concrete case: a cart holding pens no longer holds any after a book is added during a failed read |
| StorageFaults.GetCartChecked | models/Cart.js:11-30 | the read reports a fault exactly when the read fails or a needed create/repair write fails, a read fault as such; otherwise it is `GetCart` |
| StorageFaults.AddChecked | models/Cart.js:36-65 | corrected add: a failure leaves the store unchanged; a write is issued exactly when the argument is accepted and the read succeeds; a success stores exactly the increment-or-append of the previous items; with no fault it agrees with `Add` |
| StorageFaults.AddCheckedKeepsNames | models/Cart.js:47-60 | under any faults the corrected add never loses a name that was in the cart |
| CartScenarios.AddToEmptyCart | models/Cart.js:47-56 | one valid add into an empty store gives exactly that product with quantity 1, a quantity sum of 1 and its price as total |
| CartScenarios.SameNameAdds | models/Cart.js:48-53 | further adds of the same name at any prices only raise the quantity of the single item, whose first price stays |
| CartScenarios.RepeatedAddsKeepFirstPrice | models/Cart.js:47-56 | n adds of one name from an empty store give one item with quantity n and the price of the first add |
| CartScenarios.PenBookPenItems | models/Cart.js:47-56 | adding Pen at 2, Book at 10 and Pen at 2 gives two pens and then one book |
| CartScenarios.PenBookPen | models/Cart.js:107-137 | after that sequence `getItems` is that list, `getProductsQuantity` is 3 and `getTotalPrice` is 14 |

## Left out

- The MongoDB accessor (`getDatabase`, `findOne`, `insertOne`, `updateOne`) is replaced by the abstract single-document store. The document's `_id` is not modelled.
- Console logging is left out. It has no effect on state or results.
- Concurrent calls are left out. The unguarded read-modify-write of `add` can lose an increment when two calls overlap. A sequential model has no interleavings to show this.
- `controllers/cartController.js` is left out. It is HTTP glue over a product lookup that is not part of this model and over `Cart.add`.
- JavaScript numbers are replaced by integers. Prices are `int` and quantities `nat`. Floating-point sums and non-numeric prices (`null`, strings) are not modelled, although such prices pass the `price < 0` check.
- Cart.Validate: every non-string `name` (missing, `null`, a number, an object) is one case, `NotText`. All of them fail the same check.
- Cart.DeleteProductByName: the argument is a string. A non-string name would match no stored item, which the model does not show.
- Stored items are assumed to be well-typed: a string name, an integer price and a natural quantity.
- Storage faults are modelled only in `StorageFaults`, as one read flag and one write flag per call. A `getDatabase` failure is not modelled. Faults during `deleteProductByName` and `clearCart` are not modelled either. With a failed read, delete sees an empty cart and writes nothing.

## Findings

| source | as written | input that shows it | evidently intended | confidence | as-written member | corrected member |
|---|---|---|---|---|---|---|
| models/Cart.js:27-30 | `getCart` answers a failed read with the empty cart. `add` then writes its one-item result over the stored items | a stored cart `[Pen ×2]`, then `add({name: "Book", price: 10})` while `findOne` fails and the following `updateOne` succeeds; the store ends as `[Book ×1]` and the pens are gone | a fault while reading the cart aborts the add and leaves the stored items alone | medium, not executed | StorageFaults.ReadFaultOverwritesItems | StorageFaults.AddChecked |
