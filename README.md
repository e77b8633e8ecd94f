# Storefront core in Dafny

A model of the deterministic logic of a Next.js storefront whose data lives in a hosted database.
The database tables are maps from row id to row, held in one `Tables.Store` object. Every insert
takes the next id from a shared counter. Each handler and component in the model is written as the
same sequence of reads and writes that the code performs. Every database call may succeed or fail,
and that outcome is a parameter (`Outcome = Ok | Failed(message)`). This covers the writes, the
product query and the `.single()` lookups. A failed write changes nothing, and there is no
transaction or rollback that the code does not have. The handlers never read a lookup's `error`, so
a failed lookup counts as "no row": the cart inserts a second row and the wishlist adds a duplicate
where a merge or a removal was due. The seller endpoint answers 404.

The model covers these pieces:

- **Pricing.** The checkout, with free shipping above 1999 and a fee of 99. The cart summary, with
  free shipping above 999, savings, and the "more for free shipping" hint. The two thresholds are
  kept apart.
- **Order placement.** Two guards, the signed-in user, then three writes with no rollback: the order
  header, its items, and the user's cart rows removed.
- **The cart endpoint.** It merges into an existing row or inserts a new one. The lookup uses
  `size || ""` and the insert stores `size || null`, so a row stored without a size or colour never
  matches again.
- **The wishlist endpoint.** It toggles a (user, product) row.
- **Moving items.** Items move between cart and wishlist with a delete that runs only after the
  insert succeeded. Cart quantity choices are bounded by stock.
- **Product and shop records.** The slug rule, size and colour lists that behave as sets, the
  discount percentage, and product defaults. The seller products API forces `shop_id` and `slug`.
- **Search filters.** Query parameters as an ordered entry list with the `set`/`delete` rules of
  `URLSearchParams`.
- **List views.** The seller, admin and shop-discovery lists: search predicates, subsequences,
  partitions, counts, and a stable sort with its comparator.
- **The buyer's order list.** Status badges and the status-to-actions rule.

These modelling choices apply throughout:

- Money, coordinates, ratings, distances and timestamps are integers.
- `Math.round` is exact integer rounding.
- Lower-casing and whitespace are the ASCII ones.
- `.single()` yields a row only when exactly one row matches.
- Anything the code fetches or is told (the signed-in user, a parsed body, a location, a response)
  is a parameter.

## Model

| member | source | states |
|---|---|---|
| Text.LowerFacts | components/seller/add-product-form.tsx:61 | lower-casing leaves no upper-case ASCII letter, is the identity on strings without one, and adds no whitespace |
| Text.LowerIdempotent | components/seller/orders-content.tsx:35-37 | lower-casing twice equals lower-casing once |
| Text.IncludesIffWindow | components/seller/orders-content.tsx:36 | `includes` holds exactly when some contiguous window of the string equals the search text |
| Text.IncludesTrivial | components/seller/products-content.tsx:42 | every string includes the empty search text and itself |
| Seqs.Filter | components/admin/products-management.tsx:40-51 | `filter` keeps at most the input's length; an element is kept iff it is in the input and passes; each passing element keeps its multiplicity, others get 0 |
| Seqs.FilterSubsequence | components/seller/orders-content.tsx:34-40 | the kept elements are a subsequence of the input, in their original order |
| Seqs.FilterCongruent | components/seller/orders-content.tsx:34-40 | two predicates that agree on every element filter to the same list |
| Seqs.FilterAll | components/seller/products-content.tsx:41-48 | when every element passes, the filter returns the input itself |
| Seqs.FilterAppend | components/seller/add-product-form.tsx:37-39 | filtering a concatenation is the concatenation of the filtered parts |
| Seqs.SumAppend | components/checkout/checkout-form.tsx:96-98 | the left-fold `reduce` sum of a concatenation is the sum of the parts |
| Seqs.SumCons | components/cart/cart-summary.tsx:22-23 | the sum of a list with a first element is that element's term plus the rest's sum |
| Seqs.SumNonNegative | components/admin/orders-management.tsx:158 | a sum of terms that are never negative is never negative |
| Slug.DropSpaces | components/seller/add-product-form.tsx:61 | the dropped prefix is all whitespace and what is left starts with no whitespace |
| Slug.ReplaceKeepsNoUpper | components/seller/add-product-form.tsx:61 | replacing whitespace runs by "-" introduces no upper-case letter |
| Slug.ReplaceLeavesNoSpace | components/seller/add-product-form.tsx:61 | after `replace(/\s+/g, "-")` no whitespace remains |
| Slug.ReplaceIdentityWithoutSpace | components/seller/add-product-form.tsx:61 | on a string without whitespace the replacement changes nothing |
| Slug.LettersOfDropSpaces | components/seller/add-product-form.tsx:61 | dropping leading whitespace keeps the non-space, non-dash characters |
| Slug.ReplaceKeepsLetters | components/seller/add-product-form.tsx:61 | the replacement keeps every non-space, non-dash character, in order |
| Slug.SlugIsClean | components/seller/shop-registration-form.tsx:35 | a slug has no whitespace and no upper-case ASCII letter |
| Slug.SlugIdempotent | components/seller/add-product-form.tsx:61 | applying the slug rule to a slug gives the same slug |
| Slug.SlugKeepsLetters | components/seller/shop-registration-form.tsx:35 | apart from dashes, the slug holds exactly the lower-cased name's non-whitespace characters, in order |
| Slug.RunBecomesOneDash | components/seller/shop-registration-form.tsx:35 | a maximal whitespace run after a word becomes exactly one "-" and the scan continues after the run |
| Slug.DropRun | components/seller/add-product-form.tsx:61 | dropping whitespace from a run followed by a non-space character leaves that rest |
| Tables.Single | app/api/cart/route.ts:23-30 | `.single()` names a row exactly when exactly one id matches, and then that id is the only match |
| Tables.NumberedKeys | components/checkout/checkout-form.tsx:153 | a multi-row insert takes exactly the ids `first` to `first + n - 1` |
| Tables.NumberedAt | components/checkout/checkout-form.tsx:153 | the i-th row of a multi-row insert is stored under `first + i`, whatever the table held |
| Tables.WithoutUser | components/checkout/checkout-form.tsx:158 | deleting by `user_id` keeps exactly the other users' rows, unchanged |
| Tables.Store.InsertCart | app/api/cart/route.ts:44-50 | one cart row is added under the fresh id and the counter advances |
| Tables.Store.SetCartQuantity | app/api/cart/route.ts:34-37 | `update({ quantity }).eq("id")` changes only that row's quantity; an unknown id changes nothing |
| Tables.Store.DeleteCart | components/cart/cart-items.tsx:53 | `delete().eq("id")` removes exactly that row |
| Tables.Store.DeleteCartOfUser | components/checkout/checkout-form.tsx:158 | `delete().eq("user_id")` leaves the cart as `WithoutUser` |
| Tables.Store.InsertWishlist | app/api/wishlist/route.ts:41-44 | one wishlist row is added under the fresh id |
| Tables.Store.DeleteWishlist | app/api/wishlist/route.ts:32 | exactly the row with that id is removed |
| Tables.Store.InsertOrder | components/checkout/checkout-form.tsx:129-139 | one order row is added under the fresh id |
| Tables.Store.InsertOrderItems | components/checkout/checkout-form.tsx:153 | the rows are added in order under consecutive fresh ids, none of which was in use; every other table is unchanged |
| Tables.Store.InsertProduct | components/seller/add-product-form.tsx:83 | one product record is added under the fresh id |
| Tables.Store.InsertShop | components/seller/shop-registration-form.tsx:49 | one shop row is added under the fresh id |
| Checkout.Shipping | components/checkout/checkout-form.tsx:100-103 | the fee is 0 exactly when the subtotal is above 1999 and 99 otherwise, so a subtotal of exactly 1999 pays 99 |
| Checkout.Total | components/checkout/checkout-form.tsx:105-107 | total minus subtotal is 0 or 99, and it is 0 exactly above 1999 |
| Checkout.SubtotalSplit | components/checkout/checkout-form.tsx:96-98 | the empty cart's subtotal is 0 and the subtotal splits over concatenation |
| Checkout.FindDefault | components/checkout/checkout-form.tsx:84-87 | nothing is picked iff no address is default; otherwise the first default address's id |
| Checkout.OrderItemsFor | components/checkout/checkout-form.tsx:144-151 | one item row per cart line, in cart order, copying product, quantity, price, size, colour under the order id |
| Checkout.OrderTotalMatchesItems | components/checkout/checkout-form.tsx:133 | the stored order total equals the sum of its item rows' amounts plus the shipping fee |
| Checkout.ItemsSum | components/checkout/checkout-form.tsx:144-151 | the item rows' price times quantity sum to the subtotal |
| Checkout.Place | components/checkout/checkout-form.tsx:129-160 | the result is Placed iff all three writes succeed, else OrderFailed; the placed id is the fresh one and is stored; the counter stays put iff the order insert failed |
| Checkout.PlaceKeepsValid | components/checkout/checkout-form.tsx:129-160 | every id stays below the counter and every item row still names a stored order (an invariant of the order tables, since placement writes the header before its items and never deletes one) |
| Checkout.PlacedTables | components/checkout/checkout-form.tsx:129-160 | with all three writes succeeding, the header is stored under the counter, the items under the ids after it, exactly the user's cart rows are gone, and the counter moves past the items |
| Checkout.PlaceKeepsOtherRows | components/checkout/checkout-form.tsx:141-160 | earlier orders and items are kept unchanged; the cart changes only on full success, and then exactly the user's rows go |
| Checkout.PlacedOrderHeader | components/checkout/checkout-form.tsx:129-137 | a placed order is "confirmed" with the cart total, payment method and address; its total is the items' sum plus shipping |
| Checkout.PlacedOrderItems | components/checkout/checkout-form.tsx:144-153 | the k-th cart line is stored as an item row of the order at the k-th id after it |
| Checkout.FailedItemsLeaveBareOrder | components/checkout/checkout-form.tsx:141-160 | on valid tables, a failed items insert leaves the order header stored, no item row names it, and the cart unchanged |
| Checkout.WriteOrder | components/checkout/checkout-form.tsx:128-160 | the three writes, stopping at the first failure, leave the tables and result given by `Place` |
| Checkout.CheckoutForm.constructor | components/checkout/checkout-form.tsx:44-49 | the initial state: empty cart and addresses, no selection, "card", loading, not processing |
| Checkout.CheckoutForm.FetchCheckoutData | components/checkout/checkout-form.tsx:57-94 | without a user nothing changes; otherwise cart and addresses default to empty and the default address is selected when there is one; loading ends |
| Checkout.CheckoutForm.PlaceOrder | components/checkout/checkout-form.tsx:109-170 | no address or an empty cart writes nothing and does not enter processing; no user writes nothing; otherwise the tables and result are `Place`'s; processing ends |
| CartSummary.Shipping | components/cart/cart-summary.tsx:25 | the fee is 0 exactly when the subtotal is above 999, and 99 otherwise |
| CartSummary.Total | components/cart/cart-summary.tsx:26 | the total lies between the subtotal and the subtotal plus 99, and equals the subtotal exactly above 999 |
| CartSummary.HintOnlyWhenCharged | components/cart/cart-summary.tsx:49-57 | the hint shows exactly when shipping is charged |
| CartSummary.HintAmountIsExact | components/cart/cart-summary.tsx:54-57 | the hinted amount is positive, adding it lifts the subtotal above 999, and one less would not |
| CartSummary.SavingsNonNegative | components/cart/cart-summary.tsx:22-24 | with non-negative quantities and no price above its original, savings are never negative |
| CartSummary.ThresholdsDisagree | components/cart/cart-summary.tsx:25 | the summary and checkout fees differ exactly for subtotals 1000 to 1999, where the summary says free and checkout charges 99 |
| CartApi.Reply.Status | app/api/cart/route.ts:18-60 | 200 exactly on success and 401 exactly when unauthorised |
| CartApi.Requested | app/api/cart/route.ts:7 | the quantity defaults to 1 |
| CartApi.LookupKey | app/api/cart/route.ts:28-29 | `v \|\| ""` is "" exactly for a missing or empty value |
| CartApi.StoredValue | app/api/cart/route.ts:48-49 | `v \|\| null` is null exactly for a missing or empty value |
| CartApi.MatchingIds | app/api/cart/route.ts:23-30 | the ids whose rows match user, product and both lookup keys |
| CartApi.Existing | app/api/cart/route.ts:23-32 | the lookup hands back a row iff it succeeded and exactly one row matches, and then that row is the only match |
| CartApi.Post | app/api/cart/route.ts:5-61 | a bad body is a 500 and an absent user a 401, with nothing written; success iff body, user and write are all fine; a failed lookup takes the insert branch; anything else leaves the table |
| CartApi.HandlePost | app/api/cart/route.ts:5-61 | the handler leaves the cart, counter and reply given by `Post` |
| CartApi.MergeRaisesQuantity | app/api/cart/route.ts:32-41 | a single match has its quantity raised by the request, no row is added and every other row is unchanged |
| CartApi.NoMatchInsertsOne | app/api/cart/route.ts:42-50 | without a single match exactly one row is inserted under the fresh id, with the requested quantity and the stored size and colour |
| CartApi.InsertedRowWithoutOptionNeverMatches | app/api/cart/route.ts:28-49 | a row inserted without size or colour never matches such a request |
| CartApi.MatchingAfterWrite | app/api/cart/route.ts:23-30 | after writing one row, the matches are the old ones updated for that id |
| CartApi.RepeatedAddWithoutOptionDuplicates | app/api/cart/route.ts:23-50 | adding the same product twice without a size or colour stores two separate rows |
| CartApi.RepeatedAddWithOptionsMerges | app/api/cart/route.ts:23-50 | with both size and colour a second add raises the first row's quantity instead |
| CartApi.FailedLookupInsertsAnother | app/api/cart/route.ts:23-50 | with one matching row but a failed lookup, a second row is inserted and the first is left as it was |
| WishlistApi.Reply.Status | app/api/wishlist/route.ts:18-54 | 200 exactly for a toggle and 401 exactly when unauthorised |
| WishlistApi.MatchingIds | app/api/wishlist/route.ts:23-28 | the ids whose rows are for this user and product |
| WishlistApi.Post | app/api/wishlist/route.ts:5-55 | a bad body is a 500 and an absent user a 401, with nothing written; a toggle iff all is fine; a failed lookup always adds; anything else leaves the table |
| WishlistApi.HandlePost | app/api/wishlist/route.ts:5-55 | the handler leaves the wishlist, counter and reply given by `Post` |
| WishlistApi.Others | app/api/wishlist/route.ts:32-44 | the rows that are not this user's rows for this product |
| WishlistApi.PresentIsRemoved | app/api/wishlist/route.ts:30-38 | a present (user, product) row is deleted and the action is "removed" |
| WishlistApi.AbsentIsAdded | app/api/wishlist/route.ts:39-50 | an absent one is inserted under the fresh id and the action is "added" |
| WishlistApi.ToggleKeepsOthers | app/api/wishlist/route.ts:32-44 | other users' and other products' rows are untouched |
| WishlistApi.ToggleKeepsAtMostOne | app/api/wishlist/route.ts:23-50 | from at most one (user, product) row a toggle flips between none and one |
| WishlistApi.ToggleTwiceRestores | app/api/wishlist/route.ts:30-50 | two successful toggles restore the other rows and the (user, product) count, and the table itself when it started without the row |
| WishlistApi.DuplicatesOnlyGrow | app/api/wishlist/route.ts:23-50 | with two or more such rows the lookup finds no single row, so every toggle adds one |
| WishlistApi.FailedLookupAddsDuplicate | app/api/wishlist/route.ts:23-50 | with the product on the wishlist but a failed lookup, the reply is "added" and there are then two rows for it |
| CartItems.WithQuantity | components/cart/cart-items.tsx:41 | only the quantity of the given row changes; ids and other rows are kept |
| CartItems.WithoutRow | components/cart/cart-items.tsx:53 | exactly the given row goes and the rest are unchanged |
| CartItems.FailedInsertChangesNothing | components/cart/cart-items.tsx:66-76 | a failed wishlist insert leaves both tables unchanged |
| CartItems.MoveNeverLosesTheProduct | components/cart/cart-items.tsx:62-79 | the cart row leaves only after the wishlist gained a row for its product; no other cart row changes |
| CartItems.QuantityOptions | components/cart/cart-items.tsx:137-141 | there are min(10, stock) choices, none for stock of 0 or less, and choice i is i + 1 |
| CartItems.QuantityOptionsRange | components/cart/cart-items.tsx:137-141 | a value is offered iff 1 <= v <= 10 and v <= stock |
| CartItems.CartItemsView.constructor | components/cart/cart-items.tsx:35 | nothing is loading and no refresh was asked for |
| CartItems.CartItemsView.UpdateQuantity | components/cart/cart-items.tsx:38-48 | on success the cart becomes `WithQuantity` and the page refreshes; otherwise nothing changes |
| CartItems.CartItemsView.RemoveItem | components/cart/cart-items.tsx:50-60 | on success the cart becomes `WithoutRow` and the page refreshes; otherwise nothing changes |
| CartItems.CartItemsView.MoveToWishlist | components/cart/cart-items.tsx:62-79 | the tables become `MovedToWishlist`'s, with a refresh iff the insert went through |
| WishlistItems.CartRowFor | components/wishlist/wishlist-items.tsx:59-63 | the moved row has quantity 1, the user and product, and no size or colour |
| WishlistItems.NoUserOrFailedInsertChangesNothing | components/wishlist/wishlist-items.tsx:53-70 | without a user, or with a failed cart insert, neither table changes |
| WishlistItems.MoveNeverMerges | components/wishlist/wishlist-items.tsx:59-63 | a move always adds exactly one new cart row and changes no existing one |
| WishlistItems.DeleteOnlyAfterInsert | components/wishlist/wishlist-items.tsx:65-70 | the wishlist row leaves only after the cart gained its row; other wishlist rows stay |
| WishlistItems.MoveDisabledWhenOutOfStock | components/wishlist/wishlist-items.tsx:136 | out-of-stock rows cannot be moved; in-stock ones can unless their own call runs; `MoveToCart` requires the button to be enabled |
| WishlistItems.WishlistItemsView.constructor | components/wishlist/wishlist-items.tsx:35 | nothing is loading and no refresh was asked for |
| WishlistItems.WishlistItemsView.RemoveFromWishlist | components/wishlist/wishlist-items.tsx:38-48 | on success exactly that row is deleted and the page refreshes |
| WishlistItems.WishlistItemsView.MoveToCart | components/wishlist/wishlist-items.tsx:50-74 | called only while the row's move button is enabled (`!MoveDisabled`); the tables become `MovedToCart`'s, with a refresh iff a user exists and the insert went through |
| AddProductForm.WithAdded | components/seller/add-product-form.tsx:30-35 | a non-empty value not yet listed is appended; otherwise the list is unchanged; no duplicates are introduced |
| AddProductForm.Without | components/seller/add-product-form.tsx:37-39 | every equal entry goes; the rest keep their order and multiplicities, and no duplicates are introduced |
| AddProductForm.AddIdempotent | components/seller/add-product-form.tsx:30-35 | adding the same value twice equals adding it once |
| AddProductForm.RemoveUndoesAdd | components/seller/add-product-form.tsx:30-39 | removing a value just added restores a list that did not hold it |
| AddProductForm.DefaultsHaveNoDuplicates | components/seller/add-product-form.tsx:23-24 | the default sizes and colours hold no duplicates |
| AddProductForm.RoundDiv | components/seller/add-product-form.tsx:77-79 | `Math.round(n / d)` is the integer nearest to n / d, halves rounded up |
| AddProductForm.DiscountInRange | components/seller/add-product-form.tsx:76-80 | with a discount and a price of at least 0, the percentage is between 0 and 100 |
| AddProductForm.Strings | components/seller/add-product-form.tsx:68-69 | the lists are stored element by element as JSON strings |
| AddProductForm.ProductData | components/seller/add-product-form.tsx:58-80 | the record has the shop id and slug, starts active, not featured and without images, keeps the lists, and carries `discount_percentage` iff there is a discount |
| AddProductForm.AddProductDialog.constructor | components/seller/add-product-form.tsx:21-26 | the defaults S, M, L, XL and Black, White, with empty inputs and no error |
| AddProductForm.AddProductDialog.TypeSize | components/seller/add-product-form.tsx:25 | the size input holds what was typed |
| AddProductForm.AddProductDialog.TypeColor | components/seller/add-product-form.tsx:26 | the colour input holds what was typed |
| AddProductForm.AddProductDialog.AddSize | components/seller/add-product-form.tsx:30-35 | the sizes become `WithAdded`'s and the input clears only when a size was added; no duplicates |
| AddProductForm.AddProductDialog.RemoveSize | components/seller/add-product-form.tsx:37-39 | the sizes become `Without`'s; no duplicates |
| AddProductForm.AddProductDialog.AddColor | components/seller/add-product-form.tsx:41-46 | the colours become `WithAdded`'s and the input clears only when a colour was added; no duplicates |
| AddProductForm.AddProductDialog.RemoveColor | components/seller/add-product-form.tsx:48-50 | the colours become `Without`'s; no duplicates |
| AddProductForm.AddProductDialog.Submit | components/seller/add-product-form.tsx:52-97 | on success the record is inserted, the page refreshes and the dialog closes; on an error its message is shown and the dialog stays open |
| ShopRegistration.ShopData | components/seller/shop-registration-form.tsx:32-46 | `seller_id` is the user passed in, the slug is the name's, and every form field is copied |
| ShopRegistration.ShopSlugIsClean | components/seller/shop-registration-form.tsx:35 | the shop slug has no whitespace or upper-case letter and is its own slug |
| ShopRegistration.ShopSlugMatchesProductSlug | components/seller/shop-registration-form.tsx:35 | a shop and a product of the same name get the same slug |
| ShopRegistration.ShopRegistrationDialog.constructor | components/seller/shop-registration-form.tsx:21-22 | no error and not loading |
| ShopRegistration.ShopRegistrationDialog.Submit | components/seller/shop-registration-form.tsx:26-63 | on success the shop row is inserted and the dialog closes; on an error the message is recorded and the dialog stays open |
| SellerProductsApi.ShopsOf | app/api/seller/products/route.ts:16 | exactly the ids of the user's shops |
| SellerProductsApi.ProductsOf | app/api/seller/products/route.ts:23-30 | exactly the products whose `shop_id` is the shop's id, unchanged |
| SellerProductsApi.ShopOf | app/api/seller/products/route.ts:16-20 | the lookup finds a shop iff it succeeded and the user has exactly one; that shop is then the user's only one |
| SellerProductsApi.Get | app/api/seller/products/route.ts:4-38 | 401 iff no user; 404 iff the shop lookup failed or the user has no single shop; a listing only of that shop's products |
| SellerProductsApi.ListedAreTheSellersOwn | app/api/seller/products/route.ts:16-37 | the seller's listing is exactly their shop's products, and the shop is theirs |
| SellerProductsApi.PostReply.Status | app/api/seller/products/route.ts:47-75 | 200 iff created, 400 iff the body is invalid, 404 iff no shop |
| SellerProductsApi.SellerProductData | app/api/seller/products/route.ts:60-64 | the body's fields with `shop_id` and `slug` overridden |
| SellerProductsApi.Post | app/api/seller/products/route.ts:40-76 | only a creation writes; 401 iff no user; 404 iff the shop lookup failed or there is no single shop; a creation needs a body with a string name and a successful insert |
| SellerProductsApi.HandlePost | app/api/seller/products/route.ts:40-76 | the handler leaves the products, counter and reply given by `Post` |
| SellerProductsApi.CreatedBelongsToOwnShop | app/api/seller/products/route.ts:58-72 | the created product has the seller's own shop id and the name's slug, whatever the body said, and is the only row added |
| SellerProductsApi.NamelessBodyRefused | app/api/seller/products/route.ts:58-75 | an unparsable body, or one without a string name, is a 400 with nothing inserted |
| SearchFilters.Lookup | components/search/search-filters.tsx:35 | `get` finds nothing iff no entry has the name; otherwise it gives the value of the first entry with the name |
| SearchFilters.DeleteEntry | components/search/search-filters.tsx:40 | `delete` keeps exactly the entries of other names, in their order and with their multiplicities |
| SearchFilters.SetEntry | components/search/search-filters.tsx:38 | after `set` every entry of the name holds the value, and there is one |
| SearchFilters.SetEntryCounts | components/search/search-filters.tsx:38 | after `set` the name has exactly one entry, holding the value, and every other entry occurs as often as before |
| SearchFilters.SetAppendsWhenAbsent | components/search/search-filters.tsx:38 | with no entry of the name, `set` appends `(name, value)` at the end |
| SearchFilters.SetAtFirst | components/search/search-filters.tsx:38 | with the name present, the value goes into its first entry and the entries before it are unchanged |
| SearchFilters.LookupAfterSet | components/search/search-filters.tsx:37-38 | after `set` the name looks up to the value and every other name as before |
| SearchFilters.LookupAfterDelete | components/search/search-filters.tsx:39-40 | after `delete` the name is absent and every other name looks up as before |
| SearchFilters.SetKeepsOtherEntries | components/search/search-filters.tsx:37-38 | `set` leaves the other names' entries exactly as they were, in order |
| SearchFilters.DeleteTwice | components/search/search-filters.tsx:40 | deleting twice equals deleting once |
| SearchFilters.SetIdempotent | components/search/search-filters.tsx:38 | setting the same value twice equals setting it once |
| SearchFilters.SearchParams.constructor | components/search/search-filters.tsx:35 | the object starts with the given entries |
| SearchFilters.SearchParams.Set | components/search/search-filters.tsx:38 | the entries become `SetEntry`'s |
| SearchFilters.SearchParams.Delete | components/search/search-filters.tsx:40 | the entries become `DeleteEntry`'s |
| SearchFilters.Updated | components/search/search-filters.tsx:34-44 | a non-empty value leaves the key looking up to it, null or "" leaves the key absent, and every other key is unchanged |
| SearchFilters.SearchFiltersPanel.constructor | components/search/search-filters.tsx:31-32 | the price inputs start from the page's `min_price` and `max_price`, or "" |
| SearchFilters.SearchFiltersPanel.TypeMinPrice | components/search/search-filters.tsx:31 | the minimum input holds what was typed |
| SearchFilters.SearchFiltersPanel.TypeMaxPrice | components/search/search-filters.tsx:32 | the maximum input holds what was typed |
| SearchFilters.SearchFiltersPanel.UpdateFilters | components/search/search-filters.tsx:34-44 | pushes exactly the `Updated` parameters |
| SearchFilters.SearchFiltersPanel.ApplyPriceFilter | components/search/search-filters.tsx:46-62 | pushes the parameters with both price rules applied in turn |
| SearchFilters.SearchFiltersPanel.ClearFilters | components/search/search-filters.tsx:64-72 | pushes `Cleared` and empties both price inputs |
| SearchFilters.Cleared | components/search/search-filters.tsx:64-69 | its only possible name is "q", holding the page's q when present, and it is empty otherwise |
| SearchFilters.PriceFilterTouchesOnlyPrices | components/search/search-filters.tsx:46-62 | each price is set when its input is non-empty and absent otherwise, and every other name keeps its value |
| SellerOrders.FilteredOrders | components/seller/orders-content.tsx:34-40 | a subsequence of the orders; an order is kept iff the search matches its number or the customer's name and the filter is "all" or its status |
| SellerOrders.EmptySearchShowsAll | components/seller/orders-content.tsx:35-38 | an empty search under "all" returns every order |
| SellerOrders.SearchIgnoresCase | components/seller/orders-content.tsx:35-37 | searching for a text or for its lower case gives the same list |
| SellerOrders.CountStatus | components/seller/orders-content.tsx:107-131 | a status count is at most the number of orders |
| SellerOrders.CountStatusCons | components/seller/orders-content.tsx:107 | the count grows by one exactly for an order of that status |
| SellerOrders.StatusCountsWithinTotal | components/seller/orders-content.tsx:96-131 | the pending, processing and delivered counts together are at most the total |
| SellerProducts.FilteredProducts | components/seller/products-content.tsx:41-48 | a subsequence of the products; a product is kept iff its name matches the search and it fits the all/active/inactive filter |
| SellerProducts.EmptySearchShowsAll | components/seller/products-content.tsx:41-47 | an empty search under "all" returns every product |
| SellerProducts.ActiveInactivePartition | components/seller/products-content.tsx:43-46 | for a fixed search, "active" and "inactive" split the "all" list as multisets and in length, with no product in both |
| SellerProducts.ActiveCount | components/seller/products-content.tsx:90 | the active count is at most the total |
| SellerProducts.LowStockCount | components/seller/products-content.tsx:102 | the count of stock below 10 is at most the total |
| SellerProducts.FeaturedCount | components/seller/products-content.tsx:114 | the featured count is at most the total |
| SellerProducts.ActiveCountMatchesTab | components/seller/products-content.tsx:43-90 | the active card equals the size of the "active" list for an empty search |
| AdminProducts.FilteredProducts | components/admin/products-management.tsx:40-51 | a subsequence of the products; a product is kept iff search, category, brand and status all hold |
| AdminProducts.AllFiltersShowEvery | components/admin/products-management.tsx:41-48 | with an empty search and every select at "all", every product is returned |
| AdminProducts.MissingJoinNeverKept | components/admin/products-management.tsx:42-43 | under a specific category or brand, only products with exactly that one are kept |
| AdminProducts.FeaturedKeepsOnlyFeatured | components/admin/products-management.tsx:48 | "featured" keeps exactly the featured products that pass the other filters |
| AdminProducts.ActiveInactivePartition | components/admin/products-management.tsx:45-47 | for fixed other filters, "active" and "inactive" split the "all" list, with no product in both |
| AdminProducts.UnknownStatusListsNothing | components/admin/products-management.tsx:44-48 | a status value outside the four lists nothing |
| AdminOrders.FilteredOrders | components/admin/orders-management.tsx:69-77 | a subsequence of the orders; an order is kept iff its status matches and the search is in its number, name or email |
| AdminOrders.EmptySearchShowsAll | components/admin/orders-management.tsx:71-74 | an empty search under "all" returns every order, even without a profile |
| AdminOrders.MissingProfileMatchesOnlyByNumber | components/admin/orders-management.tsx:70-73 | an order without a profile is found only through its number |
| AdminOrders.MissingFieldNeverMatches | components/admin/orders-management.tsx:72-73 | a missing name or email never matches, and a present one always contains the empty search |
| AdminOrders.CustomerName | components/admin/orders-management.tsx:150 | "Guest" exactly when the profile or its name is missing or empty, or the name is "Guest"; otherwise the name |
| AdminOrders.Units | components/admin/orders-management.tsx:158 | an order without items has 0 units |
| AdminOrders.UnitsAtLeastItems | components/admin/orders-management.tsx:156-158 | with every quantity at least 1 there are at least as many units as items |
| AdminOrders.AtLeastOneEach | components/admin/orders-management.tsx:158 | a sum of quantities each at least 1 is at least the number of lines |
| AdminOrders.UnitsSplit | components/admin/orders-management.tsx:158 | the units split over any division of the items |
| ShopDiscovery.Filtered | components/shops/discovery-content.tsx:86-91 | a subsequence of the shops; a shop is kept iff the search is in its name, business type or city |
| ShopDiscovery.CompareAntisymmetric | components/shops/discovery-content.tsx:92-106 | swapping the comparator's arguments negates it |
| ShopDiscovery.CompareTransitive | components/shops/discovery-content.tsx:92-106 | the comparator's "no later than" is transitive |
| ShopDiscovery.Insert | components/shops/discovery-content.tsx:92 | inserting adds exactly the one shop |
| ShopDiscovery.InsertSorted | components/shops/discovery-content.tsx:92-106 | inserting into a sorted list keeps it sorted |
| ShopDiscovery.SortedCons | components/shops/discovery-content.tsx:92-106 | a shop no later than every shop of a sorted list can head it |
| ShopDiscovery.Sort | components/shops/discovery-content.tsx:92 | the sorted list is a permutation of its input |
| ShopDiscovery.SortSorted | components/shops/discovery-content.tsx:92-106 | the sort's output is in the comparator's order |
| ShopDiscovery.SortKeepsSortedInput | components/shops/discovery-content.tsx:92 | a list already in order comes back unchanged |
| ShopDiscovery.SortStable | components/shops/discovery-content.tsx:92-106 | the sort is stable, as `Array.prototype.sort` is: for every shop, the shops the comparator ties with it come out in the order they went in |
| ShopDiscovery.InsertStable | components/shops/discovery-content.tsx:92-106 | inserting one shop keeps every class of tied shops in the order of the shop followed by the list |
| ShopDiscovery.SortedTail | components/shops/discovery-content.tsx:92 | the tail of a sorted list is sorted |
| ShopDiscovery.FilteredAndSorted | components/shops/discovery-content.tsx:85-106 | the output is a permutation of the filtered list, holding exactly the shops that match |
| ShopDiscovery.DistanceOrder | components/shops/discovery-content.tsx:94-98 | under "distance", shops with a truthy distance come first, nearest first |
| ShopDiscovery.RatingOrder | components/shops/discovery-content.tsx:99-100 | under "rating", ratings do not increase, a missing rating counting as 0 |
| ShopDiscovery.NewestOrder | components/shops/discovery-content.tsx:101-102 | under "newest", creation times do not increase |
| ShopDiscovery.NoDistancesKeepOrder | components/shops/discovery-content.tsx:94-95 | without any distance, sorting by distance keeps the filtered order |
| ShopDiscovery.WithDistance | components/shops/discovery-content.tsx:74-80 | a shop gets a distance iff its latitude and longitude are both truthy, and nothing else about it changes |
| ShopDiscovery.AttachDistances | components/shops/discovery-content.tsx:72-83 | every shop, in place and in order, gets `WithDistance` |
| ShopDiscovery.ZeroCoordinateSortsLast | components/shops/discovery-content.tsx:76-97 | a shop at latitude or longitude 0 sorts after every shop with a distance |
| ShopDiscovery.DiscoveryPage.constructor | components/shops/discovery-content.tsx:40-43 | the shops given, no location, not loading, no error |
| ShopDiscovery.DiscoveryPage.LocationEffect | components/shops/discovery-content.tsx:72-83 | with a location the shops get their distances; otherwise they are unchanged |
| ShopDiscovery.DiscoveryPage.RequestLocation | components/shops/discovery-content.tsx:47-70 | called only while no location is set, as the button is rendered only then; a location failure records its message and changes nothing else; a location is stored and runs the effect; nearby shops replace the list when the response is ok; otherwise the list is what the effect left and a thrown fetch records its message |
| OrdersList.StatusColor | components/profile/orders-list.tsx:34-49 | unknown statuses get gray, and gray goes exactly to "pending" and unknown statuses |
| OrdersList.StatusIcon | components/profile/orders-list.tsx:51-64 | the Package icon goes exactly to the statuses other than delivered, shipped and cancelled; CheckCircle exactly to delivered |
| OrdersList.Actions | components/profile/orders-list.tsx:142-151 | "View Details" comes first; "Write Review" iff delivered, "Track Order" iff shipped, "Cancel Order" iff pending or confirmed |
| OrdersList.AtMostOneAction | components/profile/orders-list.tsx:142-151 | at most one action besides "View Details"; "cancelled" and unknown statuses get only "View Details" |
| OrdersList.Render | components/profile/orders-list.tsx:66-90 | the empty state exactly for no orders; otherwise one card per order with its badge and actions |

## Left out

- Database ordering: the `order(...)` clauses put no order on the model's maps, and the lists are
  taken in the order the page received them.
- Fetch-and-render pages, layouts and the styling of each status are not modelled beyond the badge
  class and icon.
- The `.select().single()` after an insert only returns the inserted row. The model uses the row it
  built.
- Thrown exceptions of the database client are not modelled. The request-body parse of all three
  endpoints and `body.name.toLowerCase()` in the seller endpoint are modelled as their error replies.
- Joined rows are assumed present. Several views read a join without a null guard, and the model
  does not capture that each of these throws when the join is null:
  - the seller order list reads `order.profiles.full_name.toLowerCase()`, so `SellerOrders.Order`
    holds the customer name as a plain string;
  - the checkout form and the cart summary read `item.products.price`, so each line carries its
    product's price.
  Only the admin order view guards its join with `?.`, and `AdminOrders.Profile` models that guard.
- Authentication: the signed-in user is a parameter.
- Money as JavaScript floats and the `parseFloat`/`parseInt` of form fields: money, stock and prices
  are integers in the form data.
- `AddProductForm.DiscountPercentage` is exact rational rounding of integers, not float arithmetic.
- Unicode case folding and non-ASCII whitespace: lower-casing and `\s` are the ASCII ones.
- The `calculateDistance` function of lib/location is not part of this model. It is a parameter
  `distanceTo` returning an integer.
- `getCurrentLocation`, the nearby-shops endpoint and its stored procedure are outcomes given to
  `RequestLocation`.
- `ShopDiscovery.Compare` on "newest": `created_at` is an integer timestamp. An invalid date, whose
  time in JavaScript is NaN, is not modelled.
- Order status transitions: no handler exists, so none is modelled.
- Atomicity and concurrency: overlapping requests, double submission and `Promise.all` fan-out are
  out of scope. Each handler runs alone.
- `Checkout.CheckoutForm.PlaceOrder`: the toast messages and the `router.push` to the success page
  are not modelled, only the writes, the result and the `processing` flag.
- The intermediate `loading` values while a call runs are not modelled in the cart and wishlist
  views: each method states the state after the call ends.
- `SearchFilters.SearchFiltersPanel.UpdateFilters`: the pushed URL is the entry list, not its
  serialised `toString()` form.
- The getStatusColor and getStatusIcon of the seller and admin order views are not modelled; only
  the buyer's list is.
- `ShopDiscovery.DiscoveryPage.RequestLocation` assumes the location effect runs before the nearby
  fetch resolves, as it does when React renders between the two awaits.
