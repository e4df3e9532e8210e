# Storefront cart and catalog model

A Dafny model of the client-side logic of a single-page storefront
(`src/main.js`): the shopping cart the page keeps in a module-level array and
mirrors to local storage, the count badge and total shown from it, the
two-write order submission that empties it, and the catalog's category filter,
featured strip and in-place sort.

Modules, following the program's components:

- `Seqs`: `Array.prototype.find` and `Array.prototype.filter` as `FirstIndex` and
  `Filter`, with order-preservation stated through `SubsequenceOf`.
- `Catalog`: products, the category/featured filters of `displayProducts`, and
  `sortProducts` as an in-place sort of an `array<Product>`, proved sorted by the
  selected key and a permutation of its input.
- `CartItems`: cart entries, the count and total reductions, and the effect of
  each cart operation as a function on the entry sequence (`Added`, `Removed`,
  `Updated`), with lemmas for every case the code distinguishes and for the cart
  invariant (distinct ids, every quantity at least 1).
- `Orders`: the `orders` row and the `order_items` lines built from the cart.
- `CartStore`: class `Cart` with the fields the page changes in place: `items`
  (the `cart` array), `stored` (the `cart` storage key) and `badge` (the header
  count). Its methods are the page's functions, each proved to produce the
  corresponding function of the old entries and to leave the stored copy equal
  to the cart whenever the code calls `saveCart`.
- `Scenarios`: client methods that drive `Cart` through concrete clicks and
  submissions and prove the outcome from the contracts alone.

Prices are integer cents and creation times integer instants. The outcome of
each remote write is an input: the first write as `OrderInsert`
(error / no row returned / row with id), the second as a boolean.

Three behaviours of the code worth noting:

- A malformed stored cart is not treated as empty: `JSON.parse` at
  src/main.js:7 throws on it. The model's constructor takes only a missing key
  or an already parsed array.
- `removeFromCart` deletes every entry with the id (`filter`, src/main.js:146),
  not just one. `updateQuantity` changes the first entry with the id (`find`,
  src/main.js:153), and when that quantity reaches 0 it removes every entry
  with the id. In a cart with distinct ids these are the same thing.
- If the `orders` insert returns no row and no error, `order.id` throws inside
  the `map` only when the cart has at least one entry. With an empty cart, the
  empty `order_items` insert is still sent (src/main.js:262-271).

## Model

| member | source | states |
|---|---|---|
| Seqs.FirstIndex | src/main.js:123 | `find`: the returned index holds a match and no earlier index does; None exactly when no element matches |
| Seqs.Filter | src/main.js:56-58 | `filter`: the result is no longer than the input and every element passes the predicate |
| Seqs.FilterMultiset | src/main.js:56-58 | `filter` keeps every passing element as many times as the input has it, and drops every failing one |
| Seqs.FilterIsSubsequence | src/main.js:56-58 | `filter` preserves order: its result is a subsequence of the input |
| Seqs.SubsequenceReflexive | src/main.js:53 | the unfiltered listing (`filteredProducts = allProducts`) is trivially an order-preserving subsequence |
| Seqs.SubsequenceTransitive | src/main.js:61 | a filter of a filter is still a subsequence of the original list |
| Seqs.FilterIdempotent | src/main.js:146 | filtering twice with the same predicate equals filtering once |
| Seqs.FilterKeepsAll | src/main.js:146 | a filter that every element passes returns its input unchanged |
| Seqs.FilterConcat | src/main.js:146 | filtering a concatenation is the concatenation of the filtered parts |
| Catalog.HasSlug | src/main.js:57 | `product.categories?.slug === currentCategory`: a product without a category never matches, and a match has exactly that slug |
| Catalog.CategoryFilter | src/main.js:53-59 | category `'all'` returns the catalog unchanged; any other category returns only products whose joined slug equals it, and a product without a category never matches |
| Catalog.FeaturedProducts | src/main.js:61 | the featured strip holds only featured products |
| Catalog.ListingContents | src/main.js:55-59 | outside `'all'`, each product of the category appears in the listing as often as in the catalog, and no other product appears |
| Catalog.FeaturedContents | src/main.js:61 | each featured listed product appears in the strip as often as in the listing, and nothing else appears |
| Catalog.ListingsPreserveOrder | src/main.js:53-61 | the listing is an order-preserving subsequence of the catalog, and the featured strip is one of the listing and of the catalog |
| Catalog.FeaturedIffListed | src/main.js:53-61 | a featured product is in the strip exactly when it is in the catalog and in the active category (or the category is `'all'`) |
| Catalog.SortKeyOf | src/main.js:292-304 | the three selector values pick their keys, and every other value falls to the `default` branch, newest first |
| Catalog.NameLeq | src/main.js:300 | the stand-in for `localeCompare`: a name compares equal to itself; totality and transitivity in NameLeqTotal and NameLeqTransitive |
| Catalog.Before | src/main.js:294-303 | the comparator of each key read as "not positive": every product may stand before itself; totality and transitivity in BeforeTotal and BeforeTransitive |
| Catalog.NameLeqTotal | src/main.js:300 | the name order used for `name-asc` compares any two names |
| Catalog.NameLeqTransitive | src/main.js:300 | the name order used for `name-asc` is transitive |
| Catalog.BeforeTotal | src/main.js:292-304 | for each sort key, the comparator orders any two products one way or the other |
| Catalog.BeforeTransitive | src/main.js:292-304 | for each sort key, the comparator's order is transitive |
| Catalog.SortProducts | src/main.js:291-304 | sorts the product array in place by `price-asc`, `price-desc`, `name-asc` or, for any other value, newest first; the result is ordered by that key and is a permutation of the old array |
| CartItems.Count | src/main.js:171 | the badge count; when every quantity is at least 1 it is at least the number of entries |
| CartItems.Total | src/main.js:187 | the cart total (also :224 and :246), never negative when prices and quantities are not; its relation to the order lines in Orders.OrderLinesTotal |
| CartItems.CountConcat | src/main.js:171 | count and total (:187) of a concatenation are the sums of the parts' counts and totals |
| CartItems.CountSingle | src/main.js:187 | a one-entry cart counts its quantity and totals price times quantity |
| CartItems.CountUpdate | src/main.js:129 | replacing one entry changes count and total by exactly that entry's difference |
| CartItems.ProductIndex | src/main.js:123 | the catalog lookup finds the first product with the id, or None exactly when the catalog has none |
| CartItems.ItemIndex | src/main.js:126 | the cart lookup finds the first entry with the id, or None exactly when the cart has none |
| CartItems.NewItem | src/main.js:131-137 | the entry pushed for a new product copies its id, name, price and image and has quantity 1 |
| CartItems.Added | src/main.js:122-138 | the effect of `addToCart` on the entries: at most one entry is appended, and every entry with another id stays where it was; cases in AddUnknownProduct, AddExistingProduct and AddNewProduct |
| CartItems.Updated | src/main.js:152-164 | the effect of `updateQuantity` on the entries: the cart never grows, and every entry with another id in the result was already there; cases in UpdateAbsent, UpdateToZeroRemoves and UpdateChangesOneQuantity |
| CartItems.Removed | src/main.js:146 | no entry with the removed id remains |
| CartItems.AddUnknownProduct | src/main.js:123-124 | an id absent from the catalog leaves the cart unchanged |
| CartItems.AddExistingProduct | src/main.js:126-129 | for an id already in the cart, the first matching entry's quantity rises by exactly 1; the length and every other entry stay the same |
| CartItems.AddNewProduct | src/main.js:131-137 | a catalog product not in the cart is appended at the end, with quantity 1 and the product's id, name, price and image; the earlier entries are unchanged |
| CartItems.AddWellFormed | src/main.js:122-138 | adding keeps ids distinct and every quantity at least 1 |
| CartItems.AddCountAndTotal | src/main.js:122-138 | adding a catalog product raises the count by 1. The total rises by the stored entry's price if the product is already in the cart, otherwise by the catalog price |
| CartItems.AddTwice | src/main.js:126-137 | adding one product twice to a cart without it yields a single entry with quantity 2 |
| CartItems.RemoveKeepsOthers | src/main.js:146 | every entry with another id stays, as many times as before, and none with the removed id stays |
| CartItems.RemoveKeepsOrder | src/main.js:146 | the remaining entries keep their original order |
| CartItems.RemoveAbsent | src/main.js:146 | removing an id that is not in the cart leaves the entries unchanged |
| CartItems.RemoveIdempotent | src/main.js:146 | removing the same id twice equals removing it once |
| CartItems.FilterDropsOne | src/main.js:146 | a filter that rejects exactly one entry returns the list without that entry |
| CartItems.FilterDistinct | src/main.js:146 | filtering keeps ids distinct |
| CartItems.RemoveWellFormed | src/main.js:145-146 | removing keeps ids distinct and every quantity at least 1 |
| CartItems.RemoveOne | src/main.js:146 | in a cart with distinct ids, removing entry j's id takes out exactly entry j |
| CartItems.CountDropOne | src/main.js:171 | dropping one entry lowers the count by its quantity and the total (:187) by its subtotal |
| CartItems.RemoveCountAndTotal | src/main.js:145-148 | with distinct ids, removing a product lowers the count by its quantity and the total by its price times quantity |
| CartItems.UpdateAbsent | src/main.js:153-154 | an id not in the cart: updateQuantity changes nothing |
| CartItems.UpdateToZeroRemoves | src/main.js:156-159 | a quantity reaching 0 or less makes the result equal `Removed`, what `removeFromCart` leaves: every entry with the id goes, the others stay in order |
| CartItems.UpdateChangesOneQuantity | src/main.js:156-161 | otherwise only that entry's quantity changes, by `change`, and the count changes by `change` |
| CartItems.UpdateWellFormed | src/main.js:152-164 | updateQuantity keeps ids distinct and never leaves a quantity below 1 |
| Orders.NewOrder | src/main.js:246-256 | the `orders` row: status `pending`, total 0 for an empty cart and never negative for a well-formed cart with non-negative prices; its total equals its lines' sum in OrderLinesTotal |
| Orders.OrderLines | src/main.js:262-267 | one line per cart entry, each carrying the new order's id; per-line contents in OrderLineAt |
| Orders.ItemsPayload | src/main.js:260-271 | an insert error stops before the second write; a payload that is sent has one line per entry; an empty cart is sent (empty) whenever the first write did not fail |
| Orders.OrderLineAt | src/main.js:262-267 | one order line per cart entry, in cart order, with the order id and the entry's product id, quantity and price |
| Orders.OrderLinesTotal | src/main.js:246-267 | the order's `total_amount` equals the sum of price times quantity over its lines |
| Orders.OrderLinesDistinct | src/main.js:262-267 | a cart with distinct ids yields order lines with distinct product ids |
| Orders.PayloadNeedsOrderRow | src/main.js:260-269 | for a non-empty cart the items write is sent exactly when the order write returned a row, and then has one line per entry |
| CartStore.Cart.constructor | src/main.js:7 | the cart starts as the stored entries, or empty when the storage key is missing; the start-up handler's `updateCartCount()` (:334) makes the badge show their count |
| CartStore.Cart.SaveCart | src/main.js:166-168 | afterwards the stored copy equals the cart |
| CartStore.Cart.UpdateCartCount | src/main.js:170-173 | afterwards the badge shows the sum of the quantities |
| CartStore.Cart.AddToCart | src/main.js:122-143 | the new cart is `Added` of the old. An unknown id changes neither storage nor badge; otherwise the cart is saved and counted. The cart invariant is kept |
| CartStore.Cart.RemoveFromCart | src/main.js:145-150 | the new cart is `Removed` of the old; it is saved and counted; the cart invariant is kept |
| CartStore.Cart.UpdateQuantity | src/main.js:152-164 | the new cart is `Updated` of the old. An unknown id changes nothing; otherwise the cart is saved. The badge is refreshed only when the entry is removed and keeps its old number otherwise. The invariant is kept |
| CartStore.Cart.UpdateQuantityAndCount | src/main.js:152-164 | `updateQuantity` with the badge refreshed whenever the cart is saved |
| CartStore.Cart.ProcessOrder | src/main.js:244-285 | the order row carries the customer fields, the cart total and `pending`. The lines are sent only after an order row came back (or the cart is empty). The cart is emptied, saved and counted exactly when the second write succeeds; on any failure the cart, storage and badge are unchanged |
| CartStore.RemoveAfterUpdate | src/main.js:156-159 | changing an entry's quantity before filtering its id out does not change the remaining entries |
| Scenarios.AddSameProductTwice | src/main.js:122-143 | two adds of one product give one entry with quantity 2 and a badge of 2 |
| Scenarios.CheckoutSucceeds | src/main.js:244-277 | a cart of 2 x 500 and 1 x 300 submits an order of 1300 with two lines and ends empty and stored empty, with the badge at 0 |
| Scenarios.ReloadShowsStoredCount | src/main.js:7 | reopening the page with 2 + 1 units stored restores the entries and shows 3 on the badge (count refreshed at :334) |
| Scenarios.CheckoutItemsWriteFails | src/main.js:269-284 | when the items write fails the order row was still sent and the cart and its stored copy are unchanged |
| Scenarios.StaleBadgeAfterIncrement | src/main.js:160-163 | after one add and one "+" the cart holds 2 units while the badge shows 1 |
| Scenarios.BadgeAfterIncrement | src/main.js:160-163 | with the corrected update the badge shows 2 |
| Scenarios.DecrementToZero | src/main.js:156-159 | "-" on a single unit removes the entry and stores the empty cart |
| Scenarios.FilterByCategory | src/main.js:53-59 | filtering by `drinks` keeps only the drinks product; `all` keeps both in order |
| Scenarios.SortedThree | src/main.js:291-304 | a sorted permutation of three products with strictly ordered keys is unique |
| Scenarios.SortByPriceAscending | src/main.js:293-295 | prices 10, 5, 20 sort to 5, 10, 20 under `price-asc` |
| Scenarios.SortByPriceDescending | src/main.js:296-298 | prices 10, 5, 20 sort to 20, 10, 5 under `price-desc` |

## Left out

- Remote reads (`loadCategories`, `loadProducts`, src/main.js:12-47) and the backend client: these are network calls. The catalog is a parameter, and each remote write appears only as its outcome.
- All DOM work: markup in `displayProducts`, `createProductCard`, `displayCart` and the checkout summary; modals; event listeners; `window.*` globals; `showNotification` and its timers; the `console.error` and `alert` in `processOrder`'s catch (src/main.js:282-283), for which `Submission.committed` being false stands in. These are presentation. The start-up handler's remote loads (src/main.js:332-333) are left out with the other reads; its `updateCartCount()` (:334) is folded into the `Cart` constructor.
- The featured strip's scroll amount (`Math.round(clientWidth * 0.8) || 300`) and `toFixed(2)` formatting: floating point and layout.
- `parseFloat` prices: prices are integer cents, so the order of summation in `reduce` cannot change a total, as it could with floats.
- JSON serialisation of the stored cart: the stored value is the entry sequence itself, so the save/load round trip is exact by construction.
- Catalog.SortProducts: stability is not stated. ES2019 `Array.prototype.sort` keeps equal-key products in their previous order. The model's sort only swaps strictly out-of-order neighbours, but no postcondition says so.
- Catalog.SortProducts: `localeCompare` is replaced by character-code lexicographic order, and `new Date(created_at)` by an integer instant (an unparsable date would make the comparator inconsistent).
- Concurrency: two checkout submissions in flight at once (src/main.js:362-371) are not modelled; `ProcessOrder` runs to completion as one step.
- `updateQuantity`'s `change` is any integer (the page only passes +1 and -1); a non-integer or non-numeric `change` is not modelled.

## Findings

| source | as written | input that shows it | evidently intended | confidence | as-written member | corrected member |
|---|---|---|---|---|---|---|
| src/main.js:160-163 | when the new quantity is still positive, `updateQuantity` saves the cart and redraws the panel but does not call `updateCartCount`, so the header badge keeps the old count | empty cart, `addToCart("p1")`, then `updateQuantity("p1", 1)`: the cart holds 2 units and the badge shows 1 (Scenarios.StaleBadgeAfterIncrement) | refresh the badge on this path too, as `addToCart` and `removeFromCart` do | medium; not executed | CartStore.Cart.UpdateQuantity | CartStore.Cart.UpdateQuantityAndCount |
