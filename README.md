# Storefront order logic in Dafny

A verified model of the logic in a small storefront: the backend middleware
that validates the body of `POST /api/orders`, the cart page's state and
derived data, and the product list's category filter and sort.

- `js.dfy` (module `Js`) holds the JavaScript built-ins the code relies on:
  - an `Option` type;
  - numbers, with NaN and the infinities;
  - `Number.isInteger`;
  - `String.prototype.trim`, over the ECMAScript whitespace and line-terminator set;
  - `Array.prototype.filter`;
  - the decimal text that a template literal gives an index.
- `types.dfy` (module `Types`): the `Product`, `Category` and `Order` records.
- `order_validation.dfy` (module `OrderValidation`) covers the parsed body and the validator:
  - the parsed body as a JSON value;
  - `Validate`, the validator as a pure verdict function;
  - `ValidateOrderBody`, the middleware as a method with the source's loop and early returns, proved to give the verdict `Validate` describes;
  - lemmas that pin down the check order, the first-error-wins reporting, the accept condition, the messages and the fields that are ignored.
- `cart.dfy` (module `Cart`) covers the cart page:
  - the cart lines, the product lookup table, the display rows, the total, the display currency and the unknown-product guard;
  - the order payload;
  - class `CartPage`, whose methods replace the page state the way the component's handlers do.
- `product_list.dfy` (module `ProductList`) covers the product list page:
  - the category filter;
  - the three-way comparator;
  - an in-place sort of an array copy;
  - class `ProductListPage`, whose `VisibleProducts` returns the filtered, sorted copy.
- `checkout.dfy` (module `Checkout`) connects the two ends. It encodes the cart's payload as the JSON the validator receives and proves when the validator accepts it.

Prices and totals are integer minor units (cents). The source uses JavaScript floating point; see "Left out".

In two places the model follows the code where its messages or comments say less:
- An array body is not refused as the message "Request body must be a JSON object" suggests. `typeof []` is `'object'`, so an array gets past the first check and is refused at the `items` check instead (`ItemsNotArrayRejected`).
- The display currency is taken from the first row whose product resolves AND whose currency is non-empty. The code tests `r.product?.currency` for truthiness, so a resolved product with an empty currency is skipped, which the comment at `Cart.tsx:88` does not mention.

## Model

| member | source | states |
|---|---|---|
| OrderValidation.PassesObjectGuard | backend/src/middleware/validateOrderBody.js:12 | the object guard (truthy and `typeof` "object") lets through exactly plain objects and arrays |
| OrderValidation.ValidProductIdMeaning | backend/src/middleware/validateOrderBody.js:35 | a `productId` passes iff it is a string that `trim()` leaves non-empty, iff it is a string with at least one non-whitespace character |
| OrderValidation.ValidQuantityMeaning | backend/src/middleware/validateOrderBody.js:41 | a `quantity` passes iff it is a number equal to some integer n >= 1 |
| OrderValidation.CheckItem | backend/src/middleware/validateOrderBody.js:29-45 | an item has no fault iff it is an object or array with a valid `productId` and `quantity`; it is "not an object" iff it fails the object guard; a bad `productId` is reported iff it passes the guard with an invalid `productId`, whatever its `quantity`; a bad `quantity` iff guard and `productId` pass and `quantity` fails, so `productId` is checked before `quantity` |
| OrderValidation.FirstFault | backend/src/middleware/validateOrderBody.js:26-46 | the fault found is at the lowest failing index, with that item's own fault, and every earlier item passes; finding none means every item passes |
| OrderValidation.CheckOne | backend/src/middleware/validateOrderBody.js:27-45 | the loop body's three guards, with the literal `trim().length` test, report exactly the fault `CheckItem` describes |
| OrderValidation.CheckItems | backend/src/middleware/validateOrderBody.js:26-46 | the loop over the items, returning at the first failure, reports exactly the first fault `FirstFault` describes |
| OrderValidation.Validate | backend/src/middleware/validateOrderBody.js:9-49 | an accepted body passes the object guard and has a non-empty `items` array; an item rejection names an index inside that array |
| OrderValidation.Message | backend/src/middleware/validateOrderBody.js:13-44 | a rejection's text starts with `items[` exactly when it is about one item |
| OrderValidation.ItemMessage | backend/src/middleware/validateOrderBody.js:30-44 | an item message starts with `items[` followed by a decimal digit; distinct index and fault pairs give distinct messages (`ItemMessagesDistinct`) |
| OrderValidation.ValidateOrderBody | backend/src/middleware/validateOrderBody.js:9-49 | the middleware's loop with early returns answers exactly as the verdict `Validate` prescribes |
| OrderValidation.NonObjectBodyRejected | backend/src/middleware/validateOrderBody.js:12-14 | the body is refused as not a JSON object iff it is neither an object nor an array |
| OrderValidation.ItemsNotArrayRejected | backend/src/middleware/validateOrderBody.js:16-20 | "items must be an array" iff the body passes the guard and its `items` is missing or not an array; an array body always ends here |
| OrderValidation.EmptyItemsRejected | backend/src/middleware/validateOrderBody.js:22-24 | "items must not be empty" iff `items` is the empty array, before any item is examined |
| OrderValidation.FirstFailingItemReported | backend/src/middleware/validateOrderBody.js:26-46 | the rejection names item i with fault f iff item i fails with f as its first failing check and all earlier items pass |
| OrderValidation.FirstFaultIsFirstFailing | backend/src/middleware/validateOrderBody.js:26-46 | an item that fails while every earlier item passes is the one the loop reports, with its own fault |
| OrderValidation.AcceptedIff | backend/src/middleware/validateOrderBody.js:26-48 | accept iff the body is an object whose `items` is a non-empty array of items each passing all three checks |
| OrderValidation.OutcomeShape | backend/src/middleware/validateOrderBody.js:12-48 | `next` is called iff the body is accepted; every rejection is status 400 with its message |
| OrderValidation.MessagesDistinct | backend/src/middleware/validateOrderBody.js:13-44 | different rejections (including different indices or faults) give different error texts |
| OrderValidation.ItemMessageCitesIndex | backend/src/middleware/validateOrderBody.js:30-44 | the text between `items[` and the fault's suffix is a non-empty run of decimal digits without leading zero whose value is the reported index i, as `${i}` writes it |
| OrderValidation.ItemMessagesDistinct | backend/src/middleware/validateOrderBody.js:30-44 | two item messages are equal only when index and fault are equal |
| OrderValidation.SameChecksSameFault | backend/src/middleware/validateOrderBody.js:26-46 | item lists that agree on every item's check agree on the reported fault |
| OrderValidation.OtherBodyFieldIgnored | backend/src/middleware/validateOrderBody.js:16 | changing a body property other than `items` (e.g. `customerEmail`) does not change the verdict |
| OrderValidation.OtherItemFieldIgnored | backend/src/middleware/validateOrderBody.js:33 | changing an item property other than `productId` and `quantity` does not change the verdict |
| Js.Trim | backend/src/middleware/validateOrderBody.js:35 | the trimmed text is empty iff the input is all whitespace, and otherwise starts and ends with non-whitespace |
| Js.TrimIsSlice | frontend/src/pages/Cart.tsx:130 | trimming removes only whitespace, from the two ends: the result is a contiguous part of the input |
| Js.TrimIdempotent | frontend/src/pages/Cart.tsx:130-131 | trimming twice equals trimming once |
| Js.Filter | frontend/src/pages/ProductList.tsx:61 | `filter` returns no more elements than it was given, and every element it returns passes the test |
| Js.FilterCounts | frontend/src/pages/ProductList.tsx:61 | `filter` keeps each passing value as often as it occurs and drops every other value |
| Js.FilterAppend | frontend/src/pages/Cart.tsx:105 | `filter` keeps relative order: filtering a concatenation concatenates the filtered parts |
| Js.FilterKeepsAll | frontend/src/pages/Cart.tsx:105 | filtering a list whose elements all pass returns it unchanged |
| Js.NatToString | backend/src/middleware/validateOrderBody.js:30 | `${i}` is a non-empty string of decimal digits denoting i, with no leading zero |
| Js.NatToStringInjective | backend/src/middleware/validateOrderBody.js:30 | different indices have different decimal texts |
| Cart.BuildProductMap | frontend/src/pages/Cart.tsx:47-48 | the table's keys are exactly the fetched ids, each mapping to the last product with that id |
| Cart.RowFor | frontend/src/pages/Cart.tsx:69-81 | a resolved row carries the product's price and currency; an unresolved one has price 0, currency USD and line total 0; line total is unit price times quantity |
| Cart.Rows | frontend/src/pages/Cart.tsx:68-83 | one row per cart line, in order, each the join of that line |
| Cart.CartTotal | frontend/src/pages/Cart.tsx:85 | the total of rows whose line totals are all non-negative is non-negative; its sum over lines is fixed by `CartTotalAppend` and `TotalIsSumOfResolvedLines` |
| Cart.HasUnknownProducts | frontend/src/pages/Cart.tsx:95 | holds iff some row's product is unresolved |
| Cart.ClampQuantity | frontend/src/pages/Cart.tsx:98 | the stored quantity is in [1, 99]: floor(x) when in range, 99 above, 1 below or for non-finite input |
| Cart.SetQuantity | frontend/src/pages/Cart.tsx:99 | same length and ids; matching lines get the new quantity, every other line is unchanged |
| Cart.RemoveLines | frontend/src/pages/Cart.tsx:105 | the remaining lines are no more than before and none of them is for the removed product |
| Cart.BuildOrderRequest | frontend/src/pages/Cart.tsx:123-131 | the payload keeps each line's id in order with quantity max(1, q), and carries the email field |
| Cart.PayloadKeepsQuantities | frontend/src/pages/Cart.tsx:124-127 | for a cart whose quantities are in [1, 99], `Math.max(1, Math.floor(q))` leaves every quantity as it is |
| Cart.EmailField | frontend/src/pages/Cart.tsx:130-131 | `customerEmail` is present iff the email is not all whitespace, and then equals the trimmed email, which is already trimmed |
| Cart.CartPage.constructor | frontend/src/pages/Cart.tsx:22-34 | the initial state: the two demo lines, no products, no email, no order, no error |
| Cart.CartPage.LoadProducts | frontend/src/pages/Cart.tsx:44-50 | the product table is rebuilt from the fetched list (last product per id); the rest of the state is unchanged and the page invariant (quantities in [1, 99]) is kept |
| Cart.CartPage.SetCustomerEmail | frontend/src/pages/Cart.tsx:293 | the email field holds the typed value; nothing else changes and the page invariant is kept |
| Cart.CartPage.UpdateQuantity | frontend/src/pages/Cart.tsx:97-102 | the lines become `SetQuantity` with the clamped quantity; placed order and error are cleared; quantities stay in [1, 99] |
| Cart.CartPage.RemoveItem | frontend/src/pages/Cart.tsx:104-108 | the lines become those for other products; placed order and error are cleared; quantities stay in [1, 99] |
| Cart.CartPage.DisplayCurrency | frontend/src/pages/Cart.tsx:87-93 | the currency of the first row whose product resolves with a non-empty currency, else USD |
| Cart.CartPage.PlaceOrder | frontend/src/pages/Cart.tsx:110-144 | empty cart: nothing changes and nothing is sent; unknown products: only the error is set; otherwise the payload is sent, and success stores the order and empties the cart while failure keeps the lines and stores the message or the fallback; the sent payload has one line per cart line with the cart's own quantity |
| Cart.RemoveLinesCounts | frontend/src/pages/Cart.tsx:105 | `removeItem` removes every line for the id and keeps every other line as often as it occurred |
| Cart.RemoveLinesKeepsOrder | frontend/src/pages/Cart.tsx:105 | the remaining lines keep their relative order |
| Cart.RemoveAbsentIsNoOp | frontend/src/pages/Cart.tsx:105 | removing an id no line carries leaves the list unchanged |
| Cart.RemoveLinesIdempotent | frontend/src/pages/Cart.tsx:105 | removing twice equals removing once |
| Cart.RemoveAfterSetQuantity | frontend/src/pages/Cart.tsx:99-105 | changing a product's quantity and then removing it equals removing it |
| Cart.SetQuantityKeepsRange | frontend/src/pages/Cart.tsx:98-99 | an update keeps every stored quantity in [1, 99] |
| Cart.CartTotalAppend | frontend/src/pages/Cart.tsx:85 | the total of concatenated rows is the sum of their totals |
| Cart.RowsAppend | frontend/src/pages/Cart.tsx:68-83 | rows of concatenated lines are the concatenated rows |
| Cart.TotalCountsOnlyResolvedLines | frontend/src/pages/Cart.tsx:71-85 | unresolved lines contribute nothing: the total equals that of the resolved lines alone |
| Cart.TotalIsSumOfResolvedLines | frontend/src/pages/Cart.tsx:68-85 | the total is the sum of price times quantity over lines whose product resolves |
| Cart.UnknownIffUnresolvedLine | frontend/src/pages/Cart.tsx:95 | the unknown-product guard fires iff some line's id is missing from the product table |
| ProductList.SelectCategory | frontend/src/pages/ProductList.tsx:58-62 | for a category other than "all", every product let through is of that category |
| ProductList.SelectCategoryContents | frontend/src/pages/ProductList.tsx:58-62 | with "all" nothing is dropped; otherwise exactly the products of that category remain, each as often as before, and never more products than loaded |
| ProductList.SelectCategoryKeepsOrder | frontend/src/pages/ProductList.tsx:61 | the category filter keeps catalogue order |
| ProductList.Compare | frontend/src/pages/ProductList.tsx:65-69 | price-asc orders by rising price, price-desc by falling price, anything else by the name comparison |
| ProductList.ComparatorIsTotalPreorder | frontend/src/pages/ProductList.tsx:65-69 | for every sort value the comparator is a total preorder when name comparison is one |
| ProductList.InsertLast | frontend/src/pages/ProductList.tsx:65 | one insertion step: the prefix one longer is sorted, and the array's elements are unchanged as a multiset |
| ProductList.SortInPlace | frontend/src/pages/ProductList.tsx:64-65 | the array is sorted by the comparator and is a permutation of its old contents |
| ProductList.ProductListPage.constructor | frontend/src/pages/ProductList.tsx:14-20 | nothing loaded, category "all", sort "name-asc" |
| ProductList.ProductListPage.ApplyLoaded | frontend/src/pages/ProductList.tsx:36-39 | a successful load replaces products and categories |
| ProductList.ProductListPage.SetCategoryId | frontend/src/pages/ProductList.tsx:132 | the category selection holds the chosen value |
| ProductList.ProductListPage.SetSort | frontend/src/pages/ProductList.tsx:144 | the sort selection holds the chosen value |
| ProductList.ProductListPage.VisibleProducts | frontend/src/pages/ProductList.tsx:57-72 | a permutation of the category-filtered products, no longer than the catalogue, ordered by rising or falling price or by name as the sort selects; the catalogue is not modified |
| Checkout.RequestToJs | frontend/src/pages/Cart.tsx:123-131 | the payload's JSON is an object whose `items` array holds one `{productId, quantity}` object per payload line |
| Checkout.LineCheck | backend/src/middleware/validateOrderBody.js:29-45 | a cart payload line fails only for a blank product id or a quantity below 1 |
| Checkout.PayloadItemChecks | backend/src/middleware/validateOrderBody.js:29-45 | each payload line from the cart fails the validator iff its product id is blank |
| Checkout.CartPayloadAccepted | backend/src/middleware/validateOrderBody.js:22-48 | the validator accepts the cart's payload iff the cart is non-empty and no product id is blank |
| Checkout.CartPayloadFirstBlankReported | backend/src/middleware/validateOrderBody.js:26-46 | otherwise the refusal names the first line with a blank product id |

## Left out

- Prices and totals are integer cents. The source computes `unitPrice * quantity` and the running total in IEEE-754 doubles, so sums such as repeated 19.99 can pick up rounding error. The model does not reproduce that error; it is a precision hazard of the source, noted here rather than fixed.
- Non-integer prices are not modelled. `Compare` subtracts integer prices, so NaN prices and float subtraction in the comparator do not arise.
- `localeCompare` is a parameter `nameCompare`, required to be a total preorder. Locale rules are not modelled.
- ProductList.SortInPlace: stands in for `Array.prototype.sort`. Its contract claims sortedness and permutation but not stability, which the engine's sort has.
- Checkout.RequestToJs: assumes that `api.createOrder` posts the payload unchanged, as the JSON body of `POST /api/orders`. The client wrapper is not part of this model, so that encoding is an assumption, not something derived from the source.
- The async fetch, cancellation and loading/error handling in both pages, and `api.*`, are left out. The client wrapper is not part of this model. Fetch and order results enter the model as method parameters (`LoadProducts`, `ApplyLoaded`, `PlaceOrder(result)`).
- Cart.CartPage.PlaceOrder: the `placingOrder = true` state held while `createOrder` is pending is not observable in the model. The call is atomic and its post-state has `placingOrder` false. This hides a window the page leaves open: the quantity input and the Remove button stay enabled while the request is pending, so an edit made then is not in the payload already sent; on success `setItems([])` discards it, on failure it stays in the cart.
- Cart.CartPage.PlaceOrder: a thrown value that is not an `Error` is modelled as `Failed(None)` and gets the fallback message.
- The product table is a Dafny map over own keys only. A JavaScript record also answers inherited keys such as `constructor` or `__proto__`; that quirk is left out.
- Cart quantities are integers, because only `ClampQuantity` writes them and it yields integers. `Math.floor` in the payload is therefore the identity on them.
- `Number(e.target.value)` string parsing is left out. `UpdateQuantity` takes the already-converted number.
- JSON parsing is left out. Duplicate keys and the `__proto__` key are not modelled. The body is taken as an already-parsed value, and a parsed array has no `items`, `productId` or `quantity` property.
- The Express `req`/`res`/`next` objects are abstracted to an outcome: "called next" or "responded with status and error text". The validator never writes to the body: `ValidateOrderBody` takes it by value.
- JSX rendering, inline styles, `formatMoney`, `toFixed(2)`, `window.location.reload()`, the product detail page and the routing are left out. They are presentation or navigation.
- The category list and the selector options do not constrain the model. Any `categoryId` or `sort` string is accepted, as the `as typeof sort` cast allows at run time.
