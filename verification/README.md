# Product catalog controller, modelled in Dafny

This project models the controller of a browser front end for a remote
product catalog. The controller lists the products of a remote collection,
lets the user add one, edit one or delete one, and re-reads the whole list
after each change. It keeps a module-level edit session (`editingProductId`):
`null` means the form creates a product, and an id means it updates that
product.

Under the network and page plumbing there are three pieces of logic. The
model covers all three:

- **Identifier assignment** (`generateNewId`): 1 for an empty collection,
  otherwise the largest existing id plus one. When the read fails, a clock
  value is used instead.
- **The controller as a state machine**: create and edit mode, the form,
  the submit label and the cancel button. It also covers the rendered list
  and count, the loading flag and the error banner, all beside an abstract
  remote collection.
- **Rendering rules**: a placeholder when the collection is empty,
  otherwise one card per product in order. The count label reads
  "Total: n product", with an "s" unless n is 1.

Rendering and the count label each come with an inverse: `ShownProducts`
reads the products back off a rendered list, and `CountOf` reads the count
back off a label. The round-trip lemmas say the page shows all of the
collection and the count, and nothing else.

Files:

- `wrappers.dfy`: `Option`.
- `decimal.dfy`: the decimal text of integers. It covers what `toString()`
  writes for an id and what `parseInt` reads back, and proves that the two
  round-trip.
- `catalog.dfy`: the pure part. It holds the records, id assignment, the
  change each successful request makes to the collection, the error texts,
  rendering and the count label.
- `controller.dfy`: class `Controller`. Its fields are the page state, the
  remote collection `store` and a log `sent` of every request issued. Each
  `fetch` becomes an `Outcome` parameter: `Ok`, `HttpError` for a non-2xx
  status, or `NetworkError(message)`. The `confirm` prompt becomes a `bool`,
  and `Date.now()` becomes a parameter `now`. After the class come a few
  whole user actions stated as client methods.

The object invariant `Valid()` says that every stored id reads as an
integer. The controller only ever writes such ids, and every operation
keeps the invariant.

`loadProducts` (`src/java_script/script.js:104-123`) never touches
`editingProductId`, so a reload keeps the edit session. `LoadProducts`
ensures `Form() == old(Form())`. `loadProducts` makes no assumption about the
ids it reads, so `LoadProducts` does not require `Valid()`.

The code also shows two behaviours that the model keeps as written:

- An edit session with id `0` is falsy, so a submit then creates a new
  record instead of updating record 0. `SubmitWhileEditingZeroCreates`
  shows this.
- After a failed read, the clock fallback can hand out an id that is
  already in use. `FallbackMayDuplicate` shows this.

## Model

| member | source | states |
|---|---|---|
| `Decimal.IntTextRoundTrip` | src/java_script/script.js:76 | the id text written by `toString()` is read back by `parseInt` as the same integer |
| `Decimal.IntTextInjective` | src/java_script/script.js:76 | different ids get different id texts |
| `Decimal.IntTextShape` | src/java_script/script.js:76 | the text `toString()` writes for a non-negative id is all digits; for a negative id it is a minus sign followed by digits |
| `Decimal.ParseIntAccepts` | src/java_script/script.js:61 | `parseInt` reads a string of digits as a non-negative number; anything else it reads only when it is a minus sign followed by digits, and then as a number of at most 0 |
| `Decimal.NatText` | src/java_script/script.js:76 | the text of a number is non-empty, all digits, and has no leading zero |
| `Catalog.Max` | src/java_script/script.js:61 | `Math.max` of a non-empty list is one of its elements and at least every element |
| `Catalog.ParsedIds` | src/java_script/script.js:61 | `products.map(parseInt)`: one id per record, in order, each the value `parseInt` reads from that record's id |
| `Catalog.NextId` | src/java_script/script.js:55-62 | 1 for no ids; otherwise one more than an existing id and greater than every id; at least 1 when all ids are non-negative |
| `Catalog.GenerateNewId` | src/java_script/script.js:50-67 | a failed read gives the fallback; an empty collection gives 1; otherwise the id is greater than every parsed stored id and equals some parsed stored id plus one |
| `Catalog.NewIdAfterThreeSevenTwo` | src/java_script/script.js:55-62 | stored ids "3", "7" and "2" give the new id 8 |
| `Catalog.NewRecord` | src/java_script/script.js:74-77 | the posted record keeps the submitted name and price, and its id text parses back to the generated id |
| `Catalog.NewIdFresh` | src/java_script/script.js:50-77 | after a successful read, the new record's id differs from every stored id |
| `Catalog.CreateKeepsIdsUnique` | src/java_script/script.js:70-95 | appending the new record after a successful read keeps ids numeric and pairwise distinct |
| `Catalog.FallbackMayDuplicate` | src/java_script/script.js:63-66 | after a failed read the clock value can equal a stored id, and the collection then holds a duplicate id |
| `Catalog.Updated` | src/java_script/script.js:126-143 | a successful PUT keeps the length; each record with the target id takes the new name and price and keeps its id; every other record is unchanged |
| `Catalog.UpdatedKeepsIds` | src/java_script/script.js:126-143 | an update adds no record, keeps every id, and keeps ids numeric and unique |
| `Catalog.Removed` | src/java_script/script.js:158-168 | a record remains after a successful DELETE iff it was stored and its id is not the target; nothing changes when no record has the target id |
| `Catalog.RemovedCounts` | src/java_script/script.js:158-168 | after a DELETE, every record without the target id keeps all its copies and every record with it loses all of them |
| `Catalog.RemovedKeepsOrder` | src/java_script/script.js:158-168 | a DELETE removes from each part of the collection separately, so the records that stay keep their relative order |
| `Catalog.RemovedKeepsNumericIds` | src/java_script/script.js:158-168 | a delete keeps every id numeric |
| `Catalog.RemovedKeepsUniqueIds` | src/java_script/script.js:158-168 | a delete keeps ids pairwise distinct |
| `Catalog.Cards` | src/java_script/script.js:242-246 | one card per product, the i-th card showing the i-th product |
| `Catalog.Rendered` | src/java_script/script.js:233-247 | an empty collection renders the placeholder alone; otherwise there is no placeholder and exactly one card per product, in order |
| `Catalog.RenderedRoundTrip` | src/java_script/script.js:233-247 | the products shown on the rendered list are exactly the collection, in order |
| `Catalog.CardsShown` | src/java_script/script.js:242-246 | the products on a run of cards are the products the cards were made from |
| `Catalog.CountLabelShape` | src/java_script/script.js:271-273 | the label starts with "Total: " and ends in "s" iff the count is not 1 |
| `Catalog.CountLabelRoundTrip` | src/java_script/script.js:271-273 | the count can be read back from its label |
| `Catalog.CountLabelInjective` | src/java_script/script.js:271-273 | different counts give different labels |
| `Catalog.ErrorTextShape` | src/java_script/script.js:96-99 | the banner text is the operation's prefix followed by the operation's own error text for a non-2xx status, or by the message of the error thrown; the same shape holds at lines 117-119, 144-146 and 170-172 |
| `CatalogController.Truthy` | src/java_script/script.js:190 | the test `if (editingProductId)`: false for `null` and for 0, true for every other id |
| `CatalogController.Controller.constructor` | src/java_script/script.js:4-17 | the page starts in create mode with no error, not loading, and no request sent |
| `CatalogController.Controller.DisplayProducts` | src/java_script/script.js:233-247 | the loop leaves the list equal to the rendering of the products |
| `CatalogController.Controller.UpdateProductCount` | src/java_script/script.js:271-273 | the count text becomes the label of the count |
| `CatalogController.Controller.LoadProducts` | src/java_script/script.js:104-123 | one GET is sent. On success the list and count are rebuilt from the collection; on failure they stay and the banner shows "Error loading products: ...". Loading ends false either way, and the store and form are untouched |
| `CatalogController.Controller.CreateProduct` | src/java_script/script.js:70-101 | it sends a GET and then a POST of the new record. On success exactly that record is appended; on failure the store is unchanged and the banner shows "Error creating product: ...". The form and list are untouched |
| `CatalogController.Controller.UpdateProduct` | src/java_script/script.js:126-149 | one PUT addressed to the id text is sent; on success the store becomes the update, on failure it is unchanged and the banner shows "Error updating product: ..." |
| `CatalogController.Controller.DeleteProduct` | src/java_script/script.js:152-174 | declined: nothing at all changes. Success: that id is removed, then a reload follows. Failure: only the banner changes, to "Error deleting product: ...". The edit session is never touched |
| `CatalogController.Controller.HandleFormSubmit` | src/java_script/script.js:179-206 | a truthy session gives a PUT to that id with no record added; otherwise the result is the create. On success the form is back in create mode and a reload follows. On failure the form, list and loading flag stay as they were and no reload is sent |
| `CatalogController.Controller.EditProduct` | src/java_script/script.js:209-215 | the session is set to the id, the inputs are filled, the label reads "Update Product" and cancel is shown; nothing else changes |
| `CatalogController.Controller.CancelEdit` | src/java_script/script.js:218-220 | back to create mode; store, requests and list are untouched |
| `CatalogController.Controller.ResetForm` | src/java_script/script.js:223-228 | the session is null, the inputs are empty, the label reads "Add Product" and cancel is hidden; nothing else changes |
| `CatalogController.EditThenCancel` | src/java_script/script.js:209-228 | edit followed by cancel ends in create mode, with no request sent and the store and list untouched |
| `CatalogController.EditThenSubmit` | src/java_script/script.js:190-215 | editing a stored product and submitting successfully writes to that product's id only, sends the PUT and a reload, and ends in create mode |
| `CatalogController.SubmitWhileEditingZeroCreates` | src/java_script/script.js:190-198 | with edit session 0 a successful submit appends the new record, and the requests are a GET, the POST and a reload GET, with no PUT |
| `CatalogController.CreatePenInEmptyCatalog` | src/java_script/script.js:179-202 | adding "Pen" at 1.5 to an empty collection stores exactly one record with id "1", and the count reads "Total: 1 product" |
| `CatalogController.DeclinedDelete` | src/java_script/script.js:152-156 | a declined delete sends nothing and changes neither store, list, form nor banner |

## Left out

- `fetch`, HTTP, headers, the endpoint URL and JSON encoding are not modelled. Each request is an `Outcome` parameter acting on the abstract `store`, and the request is recorded in `sent`. A 2xx response whose body fails to parse is not modelled.
- The remote store's own behaviour is abstracted. Duplicate ids can arise, because a create after a failed read uses the clock value unchecked (`FallbackMayDuplicate`). A successful PUT or DELETE acts on every record with the target id. A PUT or DELETE to an absent id may be reported `Ok`; the collection then stays as it was, while the controller goes on as after any success.
- The bodies that create and update return are not modelled, because the callers never use them.
- DOM construction, event-listener wiring and page load are not modelled. `setupEventListeners` and the `DOMContentLoaded` handler belong here; page load amounts to the constructor followed by `LoadProducts`.
- The card's HTML template in `createProductCard` is not modelled, and neither is its unescaped interpolation. A card is modelled as the product it shows.
- The `onclick` handlers read the id as a JavaScript literal; this is not modelled. `EditProduct` and `DeleteProduct` take the id as an `int`.
- The banner's 5-second auto-dismissal (`setTimeout`) is a timer and is not modelled. The banner is the last error text shown.
- `Date.now()` is non-deterministic, so it is the parameter `now`.
- `parseFloat` of the price and number formatting are floating point and are not modelled. A price is carried as opaque text and only copied.
- The form inputs are user input. `HandleFormSubmit` takes the values the form holds at submit time, because the user may have typed over what `EditProduct` filled in. `nameField` and `priceField` are what the controller itself writes.
- `Decimal.ParseInt` is narrower than `parseInt`: it reads only an optional minus sign followed by digits. Leading spaces, a `+` sign and trailing text are not modelled, and non-numeric ids (`NaN`) are excluded by `Valid()`.
- `NaN` as an edit session is not modelled; neither is its falsiness.
- JavaScript numbers are doubles, while ids here are unbounded integers. Precision loss above 2^53 is not modelled, and neither is the `RangeError` that `Math.max(...ids)` throws on a huge collection.
- Overlapping, unawaited reloads after delete and submit are not modelled. Each method runs to completion, including the reload it starts.
- `console.log` and `console.error` are not modelled.
- The initial list and count come from the HTML page, which is not part of this model. The constructor starts them empty.
- The form's defaults also come from that page. `productForm.reset()` restores whatever the page sets; the constructor and `ResetForm` take them to be empty inputs, the label "Add Product" and a hidden cancel button.
