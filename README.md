# Second-chance sports storefront: cart and stock bookkeeping in Dafny

This project models the client-side logic of a small sports-equipment
storefront that runs in the browser. The cart lives in one browser storage
slot (`cart`). The server keeps a stock count per product. The pages keep the
two roughly in step through separate requests, with no transaction around
them.

- **Items page** (`public/items.js`). `loadProducts` refuses to request the
  catalog without both query parameters. `addToCart` checks the requested
  amount against the stock the page holds for the product. It then grows the
  product's existing line or appends a new line, and lowers the page's stock
  count. It saves the cart and only then pushes the lowered count to the
  server.
- **Cart page** (`public/cart.js`). `loadCartItems` sums price × quantity into
  both the cart-view and checkout-view totals. `removeItem` fetches the
  server's stock first, then drops or shrinks the line, saves the cart, and
  pushes the fetched stock plus the removed amount. `completePurchase` posts
  the order only when all six buyer fields are filled in, and removes the
  stored cart only when the post succeeds.
- **Home page** (`public/index.js`). Sport and item-type checkboxes decide
  which figures and which sport sections are displayed. "Clear filters"
  unchecks everything.
- **FAQ page** (`public/faq.js`). FAQs are rendered in order. Clicking a
  question hides every answer, then shows the clicked one if it was hidden.

Files:

- `cart_model.dfy` (module `CartModel`): the cart as a value. It holds the
  lookup by id, the cart after an add (`CartAfterAdd`), the cart after a
  removal (`CartAfterRemove`), the total, the per-product quantity, and the
  lemmas relating them.
- `browser.dfy` (module `Browser`): class `Session` holds the storage slot
  (absent or a cart), the server's stock map, and a log of every storage write
  and request, in order. Each request takes its transport outcome as a `bool`
  parameter, so it may fail at any call. "Save before push" and "a failed
  fetch changes nothing" are then statements about the log and the slot.
- `items_page.dfy`, `cart_page.dfy`, `home_page.dfy`, `faq_page.dfy`: one
  module per page script. Where the script changes state in place, the model
  is a class whose methods are proved against the pure functions above.

Prices and totals are whole cents (`int`). Quantities are unbounded `int`.

Facts about the code that the model keeps:

- A corrupt stored value makes `JSON.parse` throw. The model has no corrupt
  state (see Left out).
- The code never checks that a quantity is ≥ 1. The model accepts any
  integer, and each property that needs `q ≥ 1` states it.
- A shrunk line stays ≥ 1 for every `q`, not only for `q ≥ 1`: the line is
  shrunk only when `q` is below its quantity.

## Model

| member | source | states |
|---|---|---|
| CartModel.FindIndex | public/cart.js:186 | Returns the index of the first line with the id, or -1 exactly when no line has that id. `find` in items.js:146 picks the line at this index. |
| CartModel.CartAfterAdd | public/items.js:146-166 | An existing line for the id grows by `q` and every other line, at any other index, is unchanged. Otherwise a copy of the product with quantity `q` is appended after the unchanged earlier lines. The result always has a line for the id, never a second one when ids were unique, and keeps quantities ≥ 1 when `q ≥ 1`. |
| CartModel.CartAfterRemove | public/cart.js:196-200 | If `q` ≥ the line's quantity, the line is removed and the other lines keep their order. Otherwise only that line's quantity drops by exactly `q`. Ids stay unique, a removed id is gone, and quantities stay ≥ 1 for every `q`. |
| CartModel.Total | public/cart.js:26-36 | An empty cart totals 0. Each further line adds its price × quantity to the total of the lines before it, which is how the loop accumulates. |
| CartModel.AddQuantities | public/items.js:149-166 | After an add, the cart's count of the product rises by exactly `q`, whether its line existed or was new. Every other product's count is unchanged. |
| CartModel.AddTotal | public/items.js:154-165 | After an add, the cart total rises by `q` × the unit price of the line that received the units. That is the stored line's price for an existing line, or the product's price for a new one. |
| CartModel.RemoveQuantities | public/cart.js:196-200 | After a removal, the product's count falls by min(`q`, line quantity). Every other product's count is unchanged. |
| CartModel.RemoveTotal | public/cart.js:196-200 | After a removal, the cart total falls by the line's price × min(`q`, line quantity). |
| CartModel.TotalNonNegative | public/cart.js:26-36 | With non-negative prices and quantities ≥ 1, the total is never negative. |
| CartModel.SumConcat | public/cart.js:26-36 | Summing over a concatenation is the sum of the two parts. The running total of `loadCartItems` rests on this. |
| CartModel.SumDelete | public/cart.js:196-197 | Splicing a line out of the cart removes exactly that line's share from any per-line sum. |
| CartModel.Walkthrough | public/items.js:144-177 | Add 2 of a 10.00 product, add 2 more, remove 1, remove 10. The cart then holds 2, 4, 3 and then nothing, with totals 20.00, 40.00 and 30.00 along the way. |
| Browser.Session.SaveCart | public/items.js:171 | Saving replaces the stored cart (also cart.js:202). It is logged as a storage write, and the server is untouched. |
| Browser.Session.RemoveCart | public/cart.js:166 | Removing the key leaves the slot absent, so the stored cart reads as empty, through the empty-array fallback of cart.js:20, 142 and 185 and items.js:145. |
| Browser.Session.FetchProduct | public/cart.js:191-194 | `GET /products/{id}` yields the server's count for the id. It fails exactly when the transport fails or the server has no such product. Nothing but the log changes. |
| Browser.Session.PushStock | public/items.js:182-194 | `POST /update-product-quantity` sets the server's count only on success (same effect as cart.js:216-229). A failure changes nothing and does not touch the stored cart. |
| Browser.Session.SubmitOrder | public/cart.js:157-163 | `POST /submit-order` is logged with the order and its outcome. Storage and stock are unchanged. |
| Browser.Session.RequestCatalog | public/items.js:29 | The catalog request is logged with both parameters and its outcome. It changes neither storage nor stock. |
| ItemsPage.LoadProducts | public/items.js:19-29 | With `category` or `type` absent or empty (both falsy at items.js:24), the error path is taken and no request is made. Otherwise exactly one catalog request is issued. |
| ItemsPage.AddToCart | public/items.js:144-177 | If `q` exceeds the page's stock, cart, page stock, server and log are all unchanged, and the result says whether the line existed. Otherwise the stored cart is `CartAfterAdd` of the old cart and the page stock drops by exactly `q`, staying ≥ 0. The log gains the save and then the push of the new stock. The server takes that value only if the push succeeds, and a failed push leaves the saved cart in place. Page stock plus the cart's count of the product is conserved. |
| CartPage.RemovePushBalancesIff | public/cart.js:205-206 | The pushed count (fetched stock + `q`) balances the units that left the cart exactly when `q` ≤ the line's quantity. A larger `q` raises the server count by the excess. |
| CartPage.Page.constructor | public/cart.js:11-14 | On load, both shown totals equal the stored cart's total. |
| CartPage.Page.LoadCartItems | public/cart.js:19-40 | The loop's sum equals Σ price × quantity over the stored cart (0 for an absent slot, read as `[]` at cart.js:20, or an empty one). The cart view and the checkout view get the same value. |
| CartPage.Page.RemoveItem | public/cart.js:184-211 | An id not in the cart changes nothing and makes no request. A failed fetch leaves cart and server as they were, with only the failed fetch logged. Otherwise the slot holds `CartAfterRemove` of the old cart, even when that is empty. The log then reads fetch, save, push of server stock + `q`, and the server takes that value only if the push succeeds. Both totals follow the stored cart. |
| CartPage.Page.FetchThenUpdate | public/cart.js:191-210 | For a line in the cart, the fetch comes first. A failed fetch changes nothing but the log. Otherwise the slot holds `CartAfterRemove` of the old cart, and the log reads fetch, save, then push of the fetched count + `q`. |
| CartPage.Page.SaveThenPush | public/cart.js:202-206 | The edited cart is stored (the slot holds exactly it) and both totals are recomputed from it. The log gains the save and then the push of the given count. The server takes that count only if the push succeeds. |
| CartPage.Page.CompletePurchase | public/cart.js:134-179 | With any of the six buyer fields empty (the check at cart.js:144), nothing changes and nothing is sent. Otherwise the order posted is exactly the stored cart with the checkout total, which equals that cart's total. A failed post keeps cart and form. A successful post removes the stored cart, zeroes both totals and blanks the form. |
| HomePage.CheckedIds | public/index.js:28-33 | An id is selected iff some checked box carries it. The list is empty iff no box is checked. |
| HomePage.Filtered | public/index.js:35-55 | Filtering keeps every section and every figure, in order, with their sports and types. It only sets the displays: a figure is shown iff its type passes, and a shown section has a passing sport and a shown figure. |
| HomePage.FigureVisibility | public/index.js:41-46 | A figure is shown iff no type is selected or its `data-type` is selected. |
| HomePage.FiguresIgnoreSports | public/index.js:41-46 | Which figures are shown does not depend on the selected sports. |
| HomePage.SectionVisibility | public/index.js:35-55 | A section is shown iff (no sport is selected or its id is selected) and at least one of its figures has a selected type. A section with no shown figure is hidden. |
| HomePage.NothingSelectedShowsAll | public/index.js:75-79 | With nothing selected, every figure is shown, and exactly the sections with at least one figure are shown. |
| HomePage.Filters.FilterItems | public/index.js:27-56 | The figure and section displays become `Filtered` of the checked sports and types. |
| HomePage.Filters.ClearFilters | public/index.js:73-80 | Every checkbox ends unchecked and every figure shown. A section is shown iff it has a figure. |
| FaqPage.ClickLeavesAtMostOneOpen | public/faq.js:61-72 | After any click, at most one answer is open. |
| FaqPage.ClickOnClosedOpensIt | public/faq.js:63-71 | Clicking the question of a hidden answer leaves exactly that answer open. |
| FaqPage.ClickOnOpenClosesAll | public/faq.js:63-70 | Clicking the question of an open answer closes every answer. |
| FaqPage.ClickTwice | public/faq.js:61-72 | Two clicks on one question close everything iff its answer started closed. From the all-closed state, the two clicks return to it. |
| FaqPage.Rendered | public/faq.js:34-49 | One item per FAQ, in order, with its question and answer, and every answer closed. |
| FaqPage.AfterClick | public/faq.js:63-71 | A click keeps every question and answer. It flips the clicked answer's visibility and closes every other answer. |
| FaqPage.Accordion.DisplayFaqs | public/faq.js:32-51 | Appends one closed item per FAQ, in input order, with its question and answer, and keeps at most one answer open. |
| FaqPage.Accordion.Click | public/faq.js:61-72 | The items become `AfterClick` of the old ones, so at most one answer is open afterwards. |

## Left out

- DOM construction and rendering are not modelled. That covers the product list, the cart and checkout item lists, the "N left" label, and showing or hiding the cart and checkout views (`showCheckoutView`, and the view switch after a successful purchase).
- HTTP transport, `response.json()` and `checkStatus` are not modelled. Each request is one atomic step whose success is a parameter, and the server is a stock map.
- `localStorage` and JSON serialisation are not modelled. The slot is a field holding either nothing or a cart. A corrupt stored value, on which `JSON.parse` throws, is not represented.
- `parseInt` of the quantity inputs is not modelled. Quantities are integers, and the `NaN` case is not represented.
- Prices are not floating point, and `toFixed(2)` is not modelled. Prices and totals are integer cents, and the order's `total` is that integer, not the formatted text.
- `displayMessage` and its `setTimeout` dismissal are not modelled, and neither is the text of `handleError`. The two "not enough stock" messages become a flag.
- Concurrency is not modelled. There are no lost updates between tabs and no racing pushes. `CartPage.Page.Valid` assumes no other page writes the slot while the cart page is open.
- Click listeners bound again by a repeated `displayFaqs` (each call runs `setupFaq` over every item so far, faq.js:50 and 57-61) are not represented: `Accordion.Click` always yields `AfterClick`. The page calls `displayFaqs` once, from `init`.
- `fetchFaqs` (`GET /faqs`) is not modelled. Only the rendering of the FAQs it returns is.
- `public/contact.js` is not part of this model: it only posts a form.
- Product ids are integers, and `===` on ids is integer equality.
