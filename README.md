# Jewellery storefront: cart arithmetic and add-to-cart, in Dafny

This project models the two pieces of the storefront that hold logic of their
own: the cart page and the product detail page. Everything else in the
storefront is markup and direct calls to a hosted data and auth service.

- **Cart page** (`src/pages/Cart.tsx`). A line has a row id, the price of its
  product in whole VND and a quantity. The order total is a left fold of
  price × quantity. The summary shows that total, and it equals the sum of the
  amounts shown on the line cards. Removing a line sends a delete for its id.
  Only when the service reports success does the page drop every line with that
  id from its local list. Without a session the page redirects to sign-in and
  fetches nothing.
- **Product detail page** (`src/pages/ProductDetail.tsx`). The quantity
  selector starts at 1. Minus is clamped at 1. Plus is disabled once the
  quantity reaches the stock. Add-to-cart is disabled at stock 0. When pressed,
  it checks the session and looks up the user's line for the product. It then
  raises that line's quantity or inserts a new line. The `cart_items` table is
  an in-memory list of rows. The central result is that add-or-increment,
  run sequentially, never gives a (user, product) pair a second line, and
  changes no other row.

Files:

- `backend.dfy` (module `Backend`): identifiers, the optional session, what a
  service call returns, the requests a page issues, and the outcome a page
  shows (a redirect, success, or an error notice).
- `cart.dfy` (module `CartPage`): `Total`, the shown amounts, `Without` (the
  filter applied on removal), their lemmas, and the `CartView` class.
- `product_detail.dfy` (module `ProductDetailPage`): the selector's `Step`
  function and its range lemmas, the table functions (`Matching`,
  `SetQuantity`, `Lookup`), `AddOrIncrement` and its lemmas, and the
  `CartTable` and `ProductPage` classes.

Service calls are modelled as parameters. A read takes a `Response` (data or
error), a delete a `Status`, and add-to-cart a `Faults` value saying which of
its two calls fail. Every page method that calls the service returns the list
of requests it issued, so "nothing was read or written" is stated as an empty
list.

Three points where the code behaves differently from what one might expect:

- One might expect 1 ≤ quantity ≤ stock. The code starts the quantity at 1
  whatever the stock, so at stock 0 the selector shows 1. The model's bound is
  1 ≤ quantity ≤ max(1, stock). `SelectedInRange` proves that the quantity is
  at most the stock whenever add-to-cart is enabled.
- Removal is not optimistic. The code drops the line from the local list only
  after the delete succeeds, and leaves the list unchanged on error.
  `CartView.Remove` does the same.
- The lookup uses `maybeSingle()`, which reports an error when several rows
  match. The model keeps this (`Lookup` returns `SeveralLines`). A pair that
  already has duplicate lines therefore gets an error notice on every later
  add, and add-to-cart never creates a second line even from a table that
  already breaks the invariant (`AddNeverDuplicates`).

## Model

| member | source | states |
|---|---|---|
| `CartPage.Amount` | src/pages/Cart.tsx:157 | a line's amount is never negative for a non-negative price and quantity, and is 0 for quantity 0 |
| `CartPage.Total` | src/pages/Cart.tsx:90-93 | an empty cart totals 0; with non-negative prices and quantities the total is non-negative |
| `CartPage.TotalAppend` | src/pages/Cart.tsx:90-93 | the fold is additive: the total of two runs of lines is the sum of their totals |
| `CartPage.Amounts` | src/pages/Cart.tsx:157 | one shown amount per line, in display order, each equal to that line's price × quantity |
| `CartPage.TotalIsSumOfAmounts` | src/pages/Cart.tsx:157-193 | the total in the summary equals the sum of the amounts shown on the line cards |
| `CartPage.TotalExample` | src/pages/Cart.tsx:90-93 | lines 1,000,000 × 2 and 500,000 × 1 total 2,500,000 |
| `CartPage.Without` | src/pages/Cart.tsx:76 | no line carrying the removed id remains, and the list never grows |
| `CartPage.WithoutKeeps` | src/pages/Cart.tsx:76 | a line survives removal if and only if it was in the list and has a different id |
| `CartPage.WithoutAppend` | src/pages/Cart.tsx:76 | removal distributes over concatenation, so surviving lines keep their original order |
| `CartPage.WithoutAbsent` | src/pages/Cart.tsx:76 | removing an id no line carries leaves the list unchanged |
| `CartPage.WithoutIdempotent` | src/pages/Cart.tsx:76 | removing the same id twice gives the same list as removing it once |
| `CartPage.RemoveUniqueLine` | src/pages/Cart.tsx:76 | when one line alone carries the id, removal drops that line and keeps all others in order |
| `CartPage.TotalAfterRemove` | src/pages/Cart.tsx:76-93 | after removing a line with a unique id, the total falls by exactly that line's price × quantity |
| `CartPage.CartView.constructor` | src/pages/Cart.tsx:23-24 | the page starts with no lines and loading |
| `CartPage.CartView.ShownTotal` | src/pages/Cart.tsx:182-193 | the total rendered in the summary is the sum of the per-line amounts of the current list |
| `CartPage.CartView.CheckAuthAndFetchCart` | src/pages/Cart.tsx:31-65 | without a session: redirect to sign-in, no request, state unchanged; with one: a single cart select, then the fetched lines (an empty list for a null result) or, on error, the old list and an error notice; loading ends |
| `CartPage.CartView.Remove` | src/pages/Cart.tsx:67-81 | issues one delete for the id; on success the list becomes `Without(old list, id)`, on error it is unchanged and an error notice is shown |
| `ProductDetailPage.IncreaseEnabled` | src/pages/ProductDetail.tsx:172 | plus is enabled exactly when one more stays within the stock, so the handler's cap at the stock never bites; once disabled, the cap is the stock itself |
| `ProductDetailPage.AddToCartEnabled` | src/pages/ProductDetail.tsx:186 | add-to-cart is enabled exactly when the selector can never show more than the stock (its range is then [1, stock]); when disabled (stock 0) the range is just {1} |
| `ProductDetailPage.Step` | src/pages/ProductDetail.tsx:156-175 | a click keeps the quantity within [1, max(1, stock)]; minus takes one off above 1 and leaves 1 (or anything below) at 1; plus adds exactly one while enabled (quantity < stock) and does nothing while disabled |
| `ProductDetailPage.ApplySnoc` | src/pages/ProductDetail.tsx:156-175 | one more click acts on the quantity the earlier clicks left |
| `ProductDetailPage.Selected` | src/pages/ProductDetail.tsx:23-175 | the shown quantity is 1 before any click, and each further click is one `Step` from the quantity the earlier clicks left |
| `ProductDetailPage.ApplyInRange` | src/pages/ProductDetail.tsx:156-175 | any run of clicks from a quantity in [1, max(1, stock)] stays in that range |
| `ProductDetailPage.SelectedInRange` | src/pages/ProductDetail.tsx:23-186 | starting at 1, the selected quantity always lies in [1, max(1, stock)], and is at most the stock whenever add-to-cart is enabled |
| `ProductDetailPage.ApplyIncreases` | src/pages/ProductDetail.tsx:169-172 | n clicks on plus from q raise the quantity to q + n while that stays within the stock |
| `ProductDetailPage.EveryQuantitySelectable` | src/pages/ProductDetail.tsx:23-172 | every quantity from 1 to max(1, stock) can be reached |
| `ProductDetailPage.Matching` | src/pages/ProductDetail.tsx:60-65 | the rows selected by user and product all belong to that user and product |
| `ProductDetailPage.MatchingFinds` | src/pages/ProductDetail.tsx:60-65 | a row is selected if and only if it is in the table and belongs to the user and product |
| `ProductDetailPage.MatchingAppend` | src/pages/ProductDetail.tsx:76-85 | after an append, the selection is the old selection followed by the new row's own |
| `ProductDetailPage.SetQuantity` | src/pages/ProductDetail.tsx:70-73 | an update by id gives every row with that id the new quantity and leaves every other row, and the row count, as they were |
| `ProductDetailPage.MatchingSetQuantity` | src/pages/ProductDetail.tsx:70-73 | a quantity update never moves a row to another (user, product) pair |
| `ProductDetailPage.Lookup` | src/pages/ProductDetail.tsx:60-67 | no line, exactly one line (which is in the table, for that user and product), or an error when two or more rows match |
| `ProductDetailPage.AddOrIncrement` | src/pages/ProductDetail.tsx:50-91 | without a session: redirect to sign-in, no request, no change; otherwise the lookup is the first request; a failed lookup or several matching lines end with the lookup as the only request; only the last request can be a write; any error or redirect leaves the table unchanged; with a session every failure is an error notice, never a redirect; success exactly when signed in, no call fails and at most one line matches |
| `ProductDetailPage.AddToExistingLine` | src/pages/ProductDetail.tsx:69-75 | with an existing line, the requests are the lookup then one update of that line's id to existing.quantity + quantity, also when that write fails (then the notice is shown and the table is unchanged); on success the line gets that quantity and no row is inserted |
| `ProductDetailPage.AddNewLine` | src/pages/ProductDetail.tsx:76-85 | with no line, the requests are the lookup then one insert of (user, product, quantity), also when that write fails (then the notice is shown and the table is unchanged); on success exactly that row is appended |
| `ProductDetailPage.AddLeavesOtherLines` | src/pages/ProductDetail.tsx:60-91 | every row of another user or product keeps its place and content, and the table is either the same length or the old table plus the one new row |
| `ProductDetailPage.AddNeverDuplicates` | src/pages/ProductDetail.tsx:60-91 | for every (user, product) the number of lines stays the same or goes from 0 to 1 |
| `ProductDetailPage.AddPreservesOneLinePerPair` | src/pages/ProductDetail.tsx:60-91 | add-or-increment preserves "at most one line per (user, product)" |
| `ProductDetailPage.AddPreservesTable` | src/pages/ProductDetail.tsx:69-85 | row ids stay unique and below the next id to be assigned |
| `ProductDetailPage.RunAllPreserves` | src/pages/ProductDetail.tsx:50-91 | any sequence of add-to-cart actions, run one after another, keeps the ids valid and at most one line per (user, product) |
| `ProductDetailPage.EmptyTableNeverDuplicates` | src/pages/ProductDetail.tsx:50-91 | from an empty table, no sequence of adds yields two lines for one (user, product) |
| `ProductDetailPage.AddExample` | src/pages/ProductDetail.tsx:69-75 | adding 1 of a product held at quantity 2 gives a single line at 3 |
| `ProductDetailPage.CartTable.AddToCart` | src/pages/ProductDetail.tsx:50-91 | the handler's steps produce the table, outcome and requests given by `AddOrIncrement`, keep the table valid and preserve at most one line per pair |
| `ProductDetailPage.ProductPage.constructor` | src/pages/ProductDetail.tsx:19-24 | the page starts loading, with no product and quantity 1 |
| `ProductDetailPage.ProductPage.Load` | src/pages/ProductDetail.tsx:26-48 | one select by id; on success the product is shown, on error the page goes to the product list (the toast is left out); loading ends and the quantity is untouched |
| `ProductDetailPage.ProductPage.Minus` | src/pages/ProductDetail.tsx:156-162 | the quantity becomes `Step(stock, old quantity, Decrease)` and stays in [1, max(1, stock)] |
| `ProductDetailPage.ProductPage.Plus` | src/pages/ProductDetail.tsx:166-175 | the quantity becomes `Step(stock, old quantity, Increase)` and stays in [1, max(1, stock)] |
| `ProductDetailPage.ProductPage.PressAddToCart` | src/pages/ProductDetail.tsx:182-190 | at stock 0 the button does nothing (no request, table unchanged); otherwise it runs the handler with a quantity in [1, stock] |

## Left out

- Calls to the hosted service are not modelled as calls. Their results are
  parameters (`Response`, `Status`, `Faults`). The service's own behaviour is
  not modelled: ordering the cart by creation time, restricting rows to the
  signed-in user, and joining lines with products.
- The cart page's lines are whatever the fetch returns. The model does not
  connect them to the `CartTable` that the product page writes.
- Concurrency is not modelled. Each handler is one atomic, sequential step. Two
  adds that interleave their read and write can still duplicate a line or lose
  an increment. Two removals issued before a re-render each filter the list
  captured at render time. Neither is captured.
- Price formatting with the `vi-VN` locale is left out. It calls a foreign
  library whose output cannot be specified here.
- Prices and quantities are unbounded integers in whole VND. JavaScript
  floating-point numbers, and their loss of precision above 2^53, are not
  modelled.
- Row ids are natural numbers handed out by a counter. The service's UUIDs are
  not modelled.
- Toast texts, loading screens, rendering and the router are left out.
  Navigation is an `Outcome` value.
- The product page is mounted for one route id (`id` is a constant). A re-fetch
  after the route id changes, which would not reset the quantity, is not
  modelled. No page in the storefront links from one product page to another.
- A cart line whose joined product is missing is not modelled.
- The header's session subscription and sign-out, the home and product-list
  fetches, and the static pages are not modelled. They only fetch and render.
