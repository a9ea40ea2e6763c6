# Storefront state rules in Dafny

A model of the deterministic list-transformation rules of the `ecomclient`
storefront, a React/Redux shop front end. Four small pieces of deterministic
logic sit under the pages, and those are what this project states and
proves:

- **The cart line store** (`CartContext`): a sequence of cart lines keyed by
  product id, with `addToCart`, `removeFromCart`, `updateQuantity`,
  `clearCart`, the derived `total` and the `useCart` guard. Module
  `CartContext` in `cart_context.dfy`.
- **The `products` slice** of the Redux store: the catalogue, its derived
  featured sublist, a loading flag, an error message and the selected product,
  with the reducers `setProducts`, `setSelectedProduct`, `setLoading`,
  `setError`, `updateProduct` and `removeProduct`. Module `ProductSlice` in
  `product_slice.dfy`.
- **The catalogue filter** of the products page: category equality plus a
  case-insensitive substring search, and the list of distinct categories.
  Module `Catalogue` in `catalogue.dfy`.
- **The quantity selector** of the product detail page: the quantity starts
  at 1 and a typed value is accepted only when it parses to `v` with
  `0 < v <= stock`. Module `ProductDetail` in `product_detail.dfy`.

Supporting modules: `Wrappers` (`Option`, `Result`), `Seqs` (the array
built-ins `filter`, `map`, `findIndex` and `[...new Set(xs)]`, with the
subsequence relation they preserve) and `Text` (`toLowerCase`, `includes`
and `parseInt`).

Each transition is modelled as a pure function of the old lines (for the
cart) or of the old slice state (for the reducers). Prices are whole cents
(`int`), so the total is exact.

Points where the model pins down what the code does:

- `addToCart` ignores `item.quantity` (src/context/CartContext.tsx:41,44). A
  new line always starts at quantity 1, and an existing line always grows by
  exactly 1 (`CartContext.AddToCart`).
- The saved cart is read with a `JSON.parse` whose errors are not caught
  (src/context/CartContext.tsx:25). Persistence is not modelled (see below).
- The total lives in a separate state cell. It starts at 0 and is set by an
  effect after each change (src/context/CartContext.tsx:28-34). The model
  defines the total as a function of the lines (`CartContext.Total`). The
  source's left fold is proved equal to the sum Σ price × quantity.
- `updateProduct` appends the updated product to the featured list even when
  an entry with that id is already there. The model keeps this behaviour, and
  `ProductSlice.UpdateFeaturedDuplicates` pins it down. Updating a featured
  product leaves two entries for it in the featured list. Because such
  repeats are reachable, every filtering contract also states that a kept
  value keeps all of its copies.
- The cart page reads `cart`, `totalPrice` and `item.product._id`, but the
  context provides `items`, `total` and flat lines with `_id`. The cart page's
  "-" button (`max(0, q - 1)`) is therefore stated against the context's own
  flat lines (`CartContext.DecrementLine`).

## Model

| member | source | states |
|---|---|---|
| `CartContext.AddToCart` | src/context/CartContext.tsx:36-46 | if the id is already present: same length, every line with that id gets quantity + 1 (the argument's quantity is ignored), and every other line is unchanged; if absent: the old lines in order, then the item at quantity 1 |
| `CartContext.AddToCartValid` | src/context/CartContext.tsx:37-45 | adding keeps one line per id and every quantity at least 1 |
| `CartContext.AddToCartTotal` | src/context/CartContext.tsx:36-46 | with unique ids, adding a present product raises the total by that line's stored price; adding a new product raises it by the item's price |
| `CartContext.AddTwiceMerges` | src/context/CartContext.tsx:37-45 | adding the same product twice to an empty cart gives exactly one line, at quantity 2 |
| `CartContext.RemoveFromCart` | src/context/CartContext.tsx:48-50 | no line with the id remains; a line is kept iff it was there and has another id, with every copy kept; the result is an order-preserving subsequence |
| `CartContext.RemoveFromCartValid` | src/context/CartContext.tsx:48-50 | removing keeps ids unique and quantities at least 1 |
| `CartContext.RemoveAbsentIsNoOp` | src/context/CartContext.tsx:48-50 | removing an absent id returns the cart unchanged |
| `CartContext.RemoveFromCartLine` | src/context/CartContext.tsx:48-50 | with unique ids, removing the id of line k gives exactly the lines before k followed by the lines after k |
| `CartContext.RemoveFromCartTotal` | src/context/CartContext.tsx:48-50 | with unique ids, removing a present line lowers the total by exactly its price × quantity |
| `CartContext.UpdateQuantity` | src/context/CartContext.tsx:52-59 | a quantity below 1 changes nothing; otherwise same length and ids, each line with the id gets exactly that quantity, and all other lines are unchanged |
| `CartContext.UpdateQuantityValid` | src/context/CartContext.tsx:52-59 | updating keeps ids unique and quantities at least 1 |
| `CartContext.UpdateAbsentIsNoOp` | src/context/CartContext.tsx:52-59 | updating an absent id returns the cart unchanged |
| `CartContext.UpdateQuantityTotal` | src/context/CartContext.tsx:52-59 | with unique ids, setting line k to q ≥ 1 moves the total by price × (q − old quantity) |
| `CartContext.ClearCart` | src/context/CartContext.tsx:61-63 | clearing leaves no lines |
| `CartContext.ClearCartTotal` | src/context/CartContext.tsx:61-63 | the cleared cart totals 0 and satisfies the invariant |
| `CartContext.Total` | src/context/CartContext.tsx:32 | the published total equals Σ price × quantity over the lines, and is 0 for the empty cart |
| `CartContext.ReduceIsSum` | src/context/CartContext.tsx:32 | the left-fold `reduce` from any starting sum adds exactly Σ price × quantity over the lines |
| `CartContext.TotalConcat` | src/context/CartContext.tsx:32 | the total of two line sequences joined is the sum of their totals |
| `CartContext.SumUpdate` | src/context/CartContext.tsx:32 | replacing one line changes the total by the new subtotal minus the old one |
| `CartContext.DecrementLine` | src/pages/Cart.tsx:47 | the "-" request `max(0, q - 1)` leaves a line at quantity 1 (and the whole cart) unchanged, and lowers a line above 1 by exactly one |
| `CartContext.RunValid` | src/context/CartContext.tsx:36-63 | any sequence of add, remove, update and clear from a valid cart yields a valid cart |
| `CartContext.Scenario` | src/context/CartContext.tsx:36-63 | A twice and B once give lines [A×2, B×1] with total 25.00; updating A to 0 is ignored; removing A leaves [B×1] with total 5.00; clearing gives total 0 |
| `CartContext.Provide` | src/context/CartContext.tsx:28-34 | the published value carries the lines and a total equal to Σ price × quantity |
| `CartContext.UseCart` | src/context/CartContext.tsx:79-85 | succeeds exactly when a provider value exists and returns it; outside a provider it fails with the "must be used within a CartProvider" error |
| `ProductSlice.SetProducts` | src/store/slices/productSlice.ts:34-37 | the catalogue becomes the payload; the featured list holds exactly the payload's featured products, each with as many copies as in the payload, as an order-preserving subsequence; other fields are unchanged |
| `ProductSlice.SetSelectedProduct` | src/store/slices/productSlice.ts:38-40 | only the selected product changes |
| `ProductSlice.SetLoading` | src/store/slices/productSlice.ts:41-43 | only the loading flag changes |
| `ProductSlice.SetError` | src/store/slices/productSlice.ts:44-46 | only the error changes |
| `ProductSlice.UpdateProduct` | src/store/slices/productSlice.ts:47-57 | with no entry of that id, nothing changes; otherwise only the first entry with the id is replaced and the length is kept; a featured update grows the featured list by exactly that product, while a non-featured update removes every featured entry with the id and keeps every copy of the rest, in order |
| `ProductSlice.RemoveProduct` | src/store/slices/productSlice.ts:58-61 | no entry with the id remains in the catalogue or the featured list; every other entry is kept with all its copies, in order |
| `ProductSlice.SetProductsEstablishes` | src/store/slices/productSlice.ts:34-37 | after `setProducts` every featured entry is in the catalogue |
| `ProductSlice.UpdateProductPreserves` | src/store/slices/productSlice.ts:47-57 | `updateProduct` keeps every featured id inside the catalogue |
| `ProductSlice.RemoveProductPreserves` | src/store/slices/productSlice.ts:58-61 | `removeProduct` keeps every featured id inside the catalogue |
| `ProductSlice.UpdateFeaturedDuplicates` | src/store/slices/productSlice.ts:51-52 | updating an already featured product leaves it twice in the featured list |
| `ProductSlice.ReducePreserves` | src/store/slices/productSlice.ts:33-62 | each of the six actions preserves "featured ids ⊆ catalogue ids" |
| `ProductSlice.ReduceAllPreserves` | src/store/slices/productSlice.ts:33-62 | any sequence of slice actions preserves "featured ids ⊆ catalogue ids" |
| `ProductSlice.ReachableStatesValid` | src/store/slices/productSlice.ts:22-62 | every state reachable from the initial state satisfies the featured invariant |
| `Catalogue.FilterProducts` | src/pages/Products.tsx:42-49 | the shown products form an order-preserving subsequence of the catalogue; a product is shown iff it passes both the category and the search test, as many times as it occurs in the catalogue |
| `Catalogue.NoFiltersShowsAll` | src/pages/Products.tsx:43-47 | with an empty category and an empty search, every product is shown |
| `Catalogue.CategoryIsExact` | src/pages/Products.tsx:43 | a chosen category admits only products of exactly that category |
| `Catalogue.SearchIsSubstring` | src/pages/Products.tsx:44-47 | a non-empty search admits a product iff the lower-cased search occurs in its lower-cased name or description |
| `Catalogue.FiltersCompose` | src/pages/Products.tsx:48 | filtering by both tests equals filtering by category, then by search |
| `Catalogue.NarrowingShrinks` | src/pages/Products.tsx:42-49 | adding either constraint yields a subsequence of the result without it |
| `Catalogue.Categories` | src/pages/Products.tsx:51 | no duplicates; a category is listed iff some product has it; listed in order of first appearance |
| `Text.Includes` | src/pages/Products.tsx:46-47 | `includes` is true iff the needle occurs at some position of the haystack |
| `Text.ToLower` | src/pages/Products.tsx:46-47 | `toLowerCase` keeps the length and lower-cases each character in place (ASCII letters only) |
| `Text.ParseInt` | src/pages/ProductDetail.tsx:38 | `parseInt` is NaN exactly when, after leading white space and an optional sign, no digit follows |
| `Text.ParseIntValue` | src/pages/ProductDetail.tsx:38 | `parseInt` of white space, an optional sign, a run of digits (leading zeros allowed) and text starting with a non-digit is the digits' decimal value, negated after `-` |
| `Text.ParseIntLeadingZeros` | src/pages/ProductDetail.tsx:38 | a zero-padded entry such as `007` reads as 7 |
| `Text.ParseIntRoundTrip` | src/pages/ProductDetail.tsx:38 | `parseInt` reads back the decimal rendering of any natural number, whatever non-digit text follows it |
| `ProductDetail.StockOf` | src/pages/ProductDetail.tsx:39 | the stock test reads the shown product's stock, falling back to 0 when no product is shown |
| `ProductDetail.HandleQuantityChange` | src/pages/ProductDetail.tsx:37-42 | a failed parse keeps the quantity; a parsed v is taken iff 0 < v ≤ stock; any other v keeps the quantity |
| `ProductDetail.NoStockAcceptsNothing` | src/pages/ProductDetail.tsx:39 | with no product or a stock of 0 or less, no input changes the quantity |
| `ProductDetail.ChangedQuantityInRange` | src/pages/ProductDetail.tsx:38-41 | the quantity either stays or becomes a value between 1 and the stock |
| `ProductDetail.TypedAmountSelected` | src/pages/ProductDetail.tsx:38-41 | typing the decimal form of an amount between 1 and the stock selects exactly that amount |
| `ProductDetail.NegativeAmountIgnored` | src/pages/ProductDetail.tsx:38-41 | typing a negative amount never changes the quantity |
| `ProductDetail.QuantityAlwaysPositive` | src/pages/ProductDetail.tsx:17-42 | for a fixed product: starting from the initial quantity 1, every sequence of inputs keeps it at least 1, and it is either 1 or within that product's stock |

## Left out

- Persistence of the cart to `localStorage` and its JSON encoding (src/context/CartContext.tsx:23-26,31). This is browser I/O, and the source does not catch errors from `JSON.parse`. The initial lines are simply a parameter of the model.
- The React state and effect machinery that keeps `total` in a separate cell, starting at 0 and refreshed by an effect after each change of the lines (src/context/CartContext.tsx:28-34). The model has no such stale state, because the total is a function of the lines.
- The HTTP layer (`src/services/api.ts`), the order and profile pages, and the product fetch effects. These are network calls and rendering.
- The `addToCart` dispatch on the product detail page, which targets a `cartSlice` that is not part of this model.
- Rendering, routing and `toFixed` price formatting.
- `CartContext.Total`: prices are whole cents (`int`), so the floating-point rounding of `price * quantity` in JavaScript numbers is not modelled.
- `CartContext.UpdateQuantity`: quantities are integers. A fractional or `NaN` quantity is not representable, although JavaScript would let `NaN` through the `< 1` guard.
- `ProductDetail.QuantityAlwaysPositive`: the "1 or within the stock" half is stated for one fixed product. The page does not reset `quantity` when the shown product changes (src/pages/ProductDetail.tsx:17), so across a change of product only "at least 1" carries over.
- `Text.ToLower`: maps only ASCII `A`–`Z`. The full Unicode case mapping of `toLowerCase` is not modelled, so the search is case-insensitive for ASCII letters only.
- `Text.ParseInt`: whitespace is limited to space, tab, LF and CR, and the `0x` hexadecimal prefix is not modelled. A `type="number"` input never reports either.
