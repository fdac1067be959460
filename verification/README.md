# Order widget: order-state model

A Dafny model of the client-side order manager of a small browser order-entry
widget. The widget fetches a product catalog from a remote API, lets the user
add line items (a product and a quantity), redraws an order table with a
running total, and posts the finished order back to the API. The model covers
the four pieces of logic in `app.ts`:

- `getProducts`: maps the outcome of the catalog request to a product list (`Catalog.GetProducts`).
- `addOrderItem`: validates and appends one item (`OrderState.AddOrderItem`).
- `updateOrderTable`: joins the order with the catalog and sums the line totals (`View.Render`, `View.UpdateOrderTable`).
- `saveOrder`: handles the empty-order guard, posts the order, and clears it only on success (`Submit.SaveOrder`).

The DOM, `fetch` and `alert` are not modelled. Their results are inputs instead:

- The selected product id is an `Option<int>`.
- The parsed quantity field is a `JsNumber`: a finite number or NaN.
- The server's answer, or the exception the request raised, is a `Fetched`.

The effects are outputs. A `Transition` carries the new order, the body that
would be posted to the save endpoint, and the notice that would be shown. The table is
a returned `Table` of rows and a total. `Controller` runs the click handlers
one after another and relates the result to the rendered table.

Files:
- `types.dfy`: the data model.
- `catalog.dfy`: `getProducts` and the lookup by id.
- `view.dfy`: the table and its total.
- `order_state.dfy`: the add action.
- `submit.dfy`: the save action.
- `controller.dfy`: sequences of user actions.

The code accepts any quantity `> 0`, including fractions like 2.5, and any
listed price, including a negative one. The model does the same.

## Model

| member | source | states |
|---|---|---|
| Catalog.GetProducts | app.ts:31-52 | the catalog is the response's products when `success` is true; it is empty on `success: false` or when the request throws |
| Catalog.FindIndex | app.ts:108 | the index found holds a product with the id and no earlier entry has that id; when nothing is found, no entry has that id |
| Catalog.Find | app.ts:108 | a found product is in the catalog and has the id; nothing is found exactly when no catalog product has the id |
| Catalog.FindReturnsFirst | app.ts:108 | when several entries share an id, the lookup returns the earliest (`Array.find` semantics) |
| View.Matched | app.ts:106-110 | the items that get a row are at most as many as the order items, and each of them has its product listed in the catalog |
| View.MatchedMembers | app.ts:106-110 | an item is among the matched ones exactly when it is in the order and its product is listed |
| View.Render | app.ts:98-132 | the table has at most one row per order item (which rows, and what the total is, are stated by the lemmas below) |
| View.RenderFollowsMatched | app.ts:106-125 | rows correspond one to one, in order, to the matched items; each row has the title of the first catalog product with the item's id, the item's quantity, and price times quantity |
| View.RowsSumToTotal | app.ts:126-131 | the total shown is the sum of the rows' line totals |
| View.UpdateOrderTable | app.ts:104-131 | the loop that appends rows and accumulates `total` produces exactly the reference table and total |
| View.RenderAppend | app.ts:106-128 | appending an item adds its row at the end if its product is listed; otherwise the table is unchanged |
| View.RenderConcat | app.ts:104-131 | the table of a concatenated order is the tables' rows concatenated, and the totals add |
| View.TotalIsSumOfShares | app.ts:126-127 | the total is the sum over all items of price times quantity, with unmatched items contributing zero |
| View.NothingMatchedRendersEmpty | app.ts:104-131 | when no item's product is listed, including an empty order or catalog, there are no rows and the total is 0 |
| View.AllListedRowsAlign | app.ts:106-125 | when every item is listed, row i is the row of item i |
| View.FailedCatalogRendersEmpty | app.ts:38-51 | a failed catalog request makes the redrawn table empty with total 0, whatever the order holds |
| OrderState.AddOrderItem | app.ts:73-95 | a valid add (product selected and quantity > 0) appends exactly one item at the end and keeps earlier items; otherwise the order is unchanged and the invalid-input notice is shown; positive quantities are preserved; nothing is posted to the save endpoint |
| OrderState.NonPositiveQuantityRefused | app.ts:77-79 | a zero, negative or NaN quantity is refused whatever is selected |
| OrderState.RepeatedAddsAreSeparateItems | app.ts:81-86 | adding the same product twice gives two separate line items, not a merged one |
| Submit.SaveOrder | app.ts:135-171 | an empty order posts nothing and shows the empty-order notice; otherwise the payload is exactly the current order; the order is cleared exactly when the server answers `success: true`, with the code in the notice; `success: false` or an exception keeps the order and shows the failure notice |
| Controller.Step | app.ts:73-171 | each handler either clears the order through a confirmed save or keeps the old order as a prefix with at most one item appended; positive quantities are kept |
| Controller.Run | app.ts:173-176 | over any sequence of clicks, every line item keeps a positive quantity |
| Controller.StepAppends | app.ts:79-94 | an action other than a confirmed save appends exactly the item of a valid add and nothing otherwise: invalid adds and failed or empty saves leave the order as it was |
| Controller.UnconfirmedRunAppends | app.ts:79-86 | without a confirmed save, the order is the starting order followed by the valid adds in click order |
| Controller.OrderSinceLastConfirmation | app.ts:150-155 | from the empty page-load state, the order is exactly the valid adds since the last confirmed save |
| Controller.ConfirmedSaveRendersEmpty | app.ts:150-155 | after a confirmed save the redrawn table has no rows and total 0 |
| Controller.AddUpdatesTable | app.ts:79-88 | after a valid add, the total grows by price times quantity and the item's row is appended when the item's product is listed; otherwise rows and total are unchanged |
| Controller.BreadAndMilk | app.ts:104-131 | Bread at 50 and Milk at 80: two Bread give one row `Bread, 2, 100` and total 100; one more Milk gives rows `Bread, 2, 100` and `Milk, 1, 80` and total 180 |

## Left out

- DOM access is not modelled, because it is UI plumbing: element lookup, clearing `innerHTML`, building rows with `createElement`/`appendChild`, and `fillProductSelect` filling the product selector with options. Rows are returned as a sequence instead.
- The reset of the quantity field after a valid add (app.ts:90) is not modelled; the quantity of each add is an input. After the reset, a second click without retyping reads `Number("")`, which is 0, and is refused.
- The catalog GET that each redraw sends (app.ts:100, after a valid add at app.ts:88 and a confirmed save at app.ts:155) is not among the modelled effects; `Transition` records only what is posted to the save endpoint.
- `fetch`, the HTTP method and headers, the endpoint URLs and `response.json()` are network I/O. Their outcome is the `Fetched` input.
- The text of `alert` messages is not modelled, and neither are `console.error` logging or the option-label format. Only which notice is shown is modelled.
- The product id is taken as the selected option's number. Parsing the option value with `Number` is not modelled; the value is `id.toString()`, so parsing gives the id back.
- `Number(...)` parsing of the quantity field is not modelled; its result is the `JsNumber` input. The text `Infinity` parses to an infinite quantity that passes the `> 0` check; the model has no infinite values, so this case is not modelled.
- JavaScript numbers are IEEE doubles. Prices, quantities and totals are exact reals here, so rounding in `price * quantity` and in the running total is not modelled.
- Catalog.GetProducts: a response with `success: true` but no `products` field (app.ts:40) returns `undefined` in the code. The requires excludes that case because the code makes no promise about it.
- The un-awaited `updateOrderTable()` calls are not modelled. Each redraw re-fetches the catalog; the model renders the order after a handler against a given catalog.
- Handler interleaving is not modelled: a click while a save is pending, or overlapping saves. `Controller.Run` takes each handler to run to completion before the next. In the code, items added while a save is pending are cleared by that save's success without having been posted.
- Event-listener wiring on page load and button clicks is represented only by the `Event` sequence that `Controller.Run` consumes.
