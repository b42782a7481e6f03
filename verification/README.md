# Ridhi-Sidhi shop: a Dafny model of the app's pure logic

This project models the sequential logic inside the Ridhi-Sidhi React Native
shop app. The app is a grocery/product catalogue with a cart, orders, a
"trending" shelf and account screens, backed by Supabase. The model covers:

- the product-level discount arithmetic (`calculateDiscountedPrice`,
  `getDiscountAmount`) that every price in the app derives from;
- the cart store: lines keyed by the pair (product id, variation id),
  merge-on-add, remove, set-quantity, total and item count;
- order placement, which writes a header, then line items with frozen prices
  and snapshots, and clears the cart only when every step succeeded;
- order reconstruction from stored line items, and the local status update;
- the invoice totals: original total, savings, the summary choice and the
  discount label;
- catalogue filtering by location, company and case-insensitive search, the
  list updates of add, update, delete and fetch, and the sorted unique company
  list;
- the company picker, the company filter chips and the product card's price,
  badge and trending decisions;
- the local trending list, capped at five, and the server's clear-then-rank
  update over a product table;
- the cart line's quantity controls and price display, including
  JavaScript's `parseInt`;
- the image uploader's extension to MIME mapping, fallback file names, upload
  path, URL box and error alert;
- the e-mail pattern `^[^\s@]+@[^\s@]+\.[^\s@]+$` and the "first failure
  wins" validation chains and error-message mapping of the signup, login and
  two reset-password screens;
- the routing decision at launch and after login.

Modelling choices:

- Money is an exact `real`, and quantities are unbounded `int`s.
- Strings are `seq<char>`.
- Every storage or service call becomes a parameter, passed in as an oracle:
  `bool`s, `Option`s, `Result`s or a sequence of per-step errors.
- A JavaScript exception becomes a `Result`/`Option` error value. An error
  whose `message` is missing is modelled as the empty string, which JavaScript
  treats the same way under `||`.

One module per source file or component. Shared modules:

- `Wrappers`: `Option` and `Result`.
- `Text`: `\s` white space, `trim`, ASCII `toLowerCase`, `includes`,
  `split(sep).pop()`, UTF-16 `length`.
- `Seqs`: `filter`, and `Array.from(new Set(..))` as `Dedup`.
- `StringOrder`: the default `sort()`.
- `NumberParse`: `parseInt`.
- `Messages`: the "first failing check" chain and the substring-based
  message mapping.
- `Domain`: the entity types of `types/index.ts`.

Three behaviours of the code that the model keeps as they are:

- A percentage discount above 100 is not clamped, so the price goes negative.
- An order message is stored as given, or as null when empty. It is not
  trimmed or length-capped.
- `updateOrderStatus` accepts any transition between any two statuses.

## Model

| member | source | states |
|---|---|---|
| Pricing.DiscountedPrice | types/index.ts:85-93 | no discount or a non-positive value leaves the price; a percentage v gives price × (1 − v/100), within [0, price] for v ≤ 100 and, not clamped, negative for a positive price when v > 100; a flat amount gives price − amount, floored at 0 |
| Pricing.DiscountAmount | types/index.ts:96-104 | no effective discount saves 0; a percentage v saves price × v/100, between 0 and the price for v ≤ 100; a flat discount saves the smaller of the amount and the price |
| Pricing.DiscountIdentity | types/index.ts:85-104 | for every price and discount, discounted price + discount amount == price |
| Pricing.DiscountBounds | types/index.ts:88-92 | for a non-negative price and a flat discount or a percentage ≤ 100, both results lie between 0 and the price |
| Domain.VariationIndex | stores/cartStore.ts:293 | `findIndex` by id: the first index holding the id, or none exactly when no variation has it |
| Domain.FindVariation | stores/cartStore.ts:79 | `find` by id: the first variation of the product with that id, or none exactly when no variation has it |
| Cart.KeyIndex | stores/cartStore.ts:29-31 | the first line whose (product id, variation id) pair matches, none exactly when no line matches |
| Cart.AddToCart | stores/cartStore.ts:27-53 | an existing key gets `quantity` more at the same position, keeping its stored product, the length and all other lines; otherwise exactly one new line is appended after the unchanged old ones |
| Cart.RemoveFromCart | stores/cartStore.ts:55-61 | no line with the key survives, every other line survives, and a key not in the cart changes nothing |
| Cart.RemoveFromCartInOrder | stores/cartStore.ts:55-61 | removal distributes over concatenation and keeps a single line exactly when it lacks the key, so the kept lines stay in order with their repeats |
| Cart.UpdateQuantity | stores/cartStore.ts:63-71 | every line with the key gets exactly the given quantity (no clamping); other lines, the length and the order are unchanged |
| Cart.UnitPrice | stores/cartStore.ts:78-86 | a unit price exactly when the line's variation resolves |
| Cart.UnitPriceIsPriceLessSaving | stores/cartStore.ts:78-86 | a resolved line is charged its variation's price less `getDiscountAmount` of it |
| Cart.LineAmount | stores/cartStore.ts:78-88 | a line whose variation is gone, or that holds no units, adds 0 to the total |
| Cart.StaleCartTotalsZero | stores/cartStore.ts:77-90 | `getTotalAmount` skips every line whose variation is gone, so a cart of such lines totals 0 |
| Cart.TotalNonNegative | stores/cartStore.ts:77-90 | when every line adds a non-negative amount, `getTotalAmount` is non-negative |
| Cart.ItemCountCountsUnits | stores/cartStore.ts:92-94 | `getItemCount` sums units: at least the number of lines when each holds one, and non-negative when none is negative |
| Cart.SumsAppend | stores/cartStore.ts:77-94 | total and item count are additive over concatenation |
| Cart.SumsUpdateAt | stores/cartStore.ts:77-94 | replacing one line moves the total and the item count by that line's difference |
| Cart.AddToCartItemCount | stores/cartStore.ts:92-94 | every add raises `getItemCount` by exactly the quantity added |
| Cart.AddToCartTotal | stores/cartStore.ts:77-90 | every add raises `getTotalAmount` by `quantity` discounted units of the variation, priced from the product the line holds (the stored one when merging) |
| Cart.MergeTotal | stores/cartStore.ts:33-37 | merging more into line k adds that many of its own units to the total |
| Cart.LineAmountSplit | stores/cartStore.ts:84-88 | a line's amount is linear in its quantity, and a stale variation contributes 0 |
| Cart.RemoveFromCartSums | stores/cartStore.ts:55-61 | the old total and count split exactly into what remains plus what was removed |
| Cart.UpdateQuantitySums | stores/cartStore.ts:63-71 | in a cart with distinct keys, setting one line's quantity moves both sums by that line's difference |
| Cart.OperationsKeepKeysDistinct | stores/cartStore.ts:27-71 | add, remove and update never create two lines with the same key |
| Cart.RemoveKeepsKeysDistinct | stores/cartStore.ts:57-59 | filtering a cart with distinct keys keeps them distinct |
| Orders.NonEmpty | stores/cartStore.ts:111 | `message or null`: present exactly when given and non-empty, and then unchanged |
| Orders.BuildLine | stores/cartStore.ts:119-160 | a row exists exactly when the variation resolves ('Variation not found' otherwise); it records the original price, the product discount, the discounted price under that discount, the quantity and snapshots of exactly the listed fields |
| Orders.BuildLines | stores/cartStore.ts:119-161 | rows exist exactly when every line's variation resolves, one per cart line in order |
| Orders.LinesAmountIsCartTotal | stores/cartStore.ts:96-161 | Σ row price × quantity equals the cart total written in the header |
| Orders.RowChargesLineAmount | stores/cartStore.ts:119-160 | one written row charges price × quantity equal to the cart's amount for its line |
| Orders.PlaceOrder | stores/cartStore.ts:96-208 | success exactly when the header insert, every variation lookup and the items insert succeed; the header carries the pre-mutation cart total, 'pending' and the non-empty message; the rows written are exactly the built rows of the cart; a stale variation after the header gives VariationNotFound and a failed items insert ItemsInsertFailed; on success the cart is empty and the new order, carrying the user id, location, creation time and the user's contact when found, is prepended; any failure leaves cart and orders unchanged |
| Orders.ReconstructItem | stores/cartStore.ts:259-313 | a line is rebuilt exactly when the current product is present; id, name, description, image, company, category and discount come from the product snapshot, or from the current product without one; the line's product id is that product's id; quantity and variation id come from the row; price, locations and variations from the current product, with the purchased variation replaced by its snapshot when its id is found; the company image is dropped |
| Orders.WriteThenReconstruct | stores/cartStore.ts:119-313 | a row written at checkout, read back while the product is unchanged, gives back the purchased cart line except its company image |
| Orders.SnapshotsWinOverCurrent | stores/cartStore.ts:267-305 | with snapshots, the snapshot's product fields win; the purchased variation becomes its snapshot when its id is still current, and is absent otherwise |
| Orders.FindUser | stores/cartStore.ts:249 | `find` by id: the contact of the first user row with that id, none exactly when users failed to load or none matches |
| Orders.ReconstructLines | stores/cartStore.ts:260-313 | an order's lines rebuild exactly when every product is present, row by row |
| Orders.ReconstructOrder | stores/cartStore.ts:326-338 | an order is rebuilt exactly when its lines are; id, user id, total, location, date and status come from the row unchanged, the message is `message or undefined`; the name, email and phone are the matched user's, and empty when no user row matches |
| Orders.ReconstructOrders | stores/cartStore.ts:259-339 | a rebuilt list has one order per row |
| Orders.OrderPresentIff | stores/cartStore.ts:259-339 | an order rebuilds exactly when all its line products are present |
| Orders.ReconstructOrdersSpec | stores/cartStore.ts:259-339 | the order list rebuilds exactly when every line of every order has its product, one order per row in order |
| Orders.ReconstructOrdersPresent | stores/cartStore.ts:259-339 | the order list rebuilds exactly when every line of every order has its product |
| Orders.ReconstructOrdersAt | stores/cartStore.ts:259-339 | a rebuilt list holds, at each index, the order rebuilt from the row at that index |
| Orders.FetchOrders | stores/cartStore.ts:210-347 | a failed order fetch or any missing product (the thrown exception) leaves no orders; otherwise one order per row in order, each the order ReconstructOrder rebuilds from its row and the fetched users, so no user names when the users fetch failed |
| Orders.UpdateOrderStatus | stores/cartStore.ts:349-367 | nothing changes unless storage succeeds; then only the `status` of orders with that id changes, and every other field and order is kept |
| Orders.AnyStatusTransition | stores/cartStore.ts:358-362 | every status can be set from every status (no transition guard) |
| Invoice.Row | utils/invoice.ts:13-24 | a row exists exactly when the variation resolves; its original price is the variation's price, its discount amount is `getDiscountAmount` of that price, its discounted price plus its discount amount is its original price and the discounted price is what the cart charges |
| Invoice.RowSplit | utils/invoice.ts:22-24 | a row's original total minus its savings is the cart's amount for that line |
| Invoice.OriginalMinusSavingsIsTotal | utils/invoice.ts:10-27 | originalTotal − totalSavings == Σ discounted price × quantity over resolved items |
| Invoice.SavingsNonNegative | utils/invoice.ts:20-27 | with positive quantities, non-negative prices and percentages ≤ 100, totalSavings ≥ 0 |
| Invoice.UndiscountedInvoice | utils/invoice.ts:10-27 | without an effective discount, totalSavings is 0 and originalTotal is the cart total |
| Invoice.SummaryOf | utils/invoice.ts:170-194 | the savings summary is chosen exactly when totalSavings > 0, and the final total shown is always `order.totalAmount` |
| Invoice.PlacedOrderSummaryAddsUp | utils/invoice.ts:170-194 | for an order whose total is its cart total, the summary's original total minus its savings is the final total |
| Invoice.DiscountLabel | utils/invoice.ts:37-39 | "v% OFF" for a percentage, "₹v OFF" for a flat discount, nothing without a discount |
| Catalog.ApplyFilters | stores/productStore.ts:70-95 | the step-wise location, then company, then search filters equal the single filter by the conjunction of all criteria, in order |
| Catalog.Visible | stores/productStore.ts:70-95 | only products from the list that meet every active criterion, and every product that meets them |
| Catalog.FilterByLocation | stores/productStore.ts:70-101 | records the location, keeps company and query, and leaves `filteredProducts` equal to `products` filtered by all three criteria |
| Catalog.FilterByCompany | stores/productStore.ts:103-139 | records the company (null or empty imposes nothing), keeps location and query, and leaves the list consistent |
| Catalog.FilterBySearch | stores/productStore.ts:141-173 | records the query (case-insensitive substring of name or description), keeps location and company, and leaves the list consistent |
| Catalog.FetchProducts | stores/productStore.ts:33-68 | success resets both lists to the fetched products whatever the criteria; failure only records the error |
| Catalog.FetchIgnoresCriteria | stores/productStore.ts:57-61 | after a fetch the list is consistent with the criteria exactly when they filter nothing out |
| Catalog.AddProduct | stores/productStore.ts:181-254 | the stored product is prepended to `products`; it stays at the head of the filtered list exactly when it matches every active criterion, and otherwise every product with its id leaves that list |
| Catalog.AddProductKeepsConsistent | stores/productStore.ts:217-246 | a fresh product added to a consistent state keeps it consistent |
| Catalog.ReplaceById | stores/productStore.ts:277-282 | every product with the id becomes the updated one; the others keep their place |
| Catalog.UpdateProduct | stores/productStore.ts:256-302 | after a storage success the product is replaced; the filtered list is recomputed when some criterion is set and left as it was otherwise; a failure only records the error |
| Catalog.DeleteProduct | stores/productStore.ts:304-328 | after a storage success every product with the id leaves both lists and the rest keep their order; a failure only records the error |
| Catalog.DeleteProductKeepsConsistent | stores/productStore.ts:324-328 | deleting from a consistent state keeps it consistent |
| Catalog.Companies | stores/productStore.ts:177 | one company name per product, in order |
| Catalog.NamedCompanies | stores/productStore.ts:177-178 | distinct names, exactly the product companies that are not empty or all white space |
| Catalog.UniqueCompanies | stores/productStore.ts:175-179 | sorted, distinct, and containing exactly the product companies that are not empty or all white space |
| CompanyPicker.FilteredCompanies | components/CompanyPicker.tsx:32-34 | exactly the companies containing the search text case-insensitively; an empty search yields all |
| CompanyPicker.FilteredCompaniesInOrder | components/CompanyPicker.tsx:32-34 | the filter distributes over concatenation and keeps one company exactly when it matches, so list order and repeats are kept |
| CompanyPicker.ShowCreate | components/CompanyPicker.tsx:36-37 | offered exactly when text is typed and no company equals it case-insensitively, and then the text is not a listed company |
| CompanyPicker.CreateOnlyForNewNames | components/CompanyPicker.tsx:36-37 | "create" is offered only when no company equals the search text case-insensitively, and never when one does |
| CompanyPicker.FirstCompanyImage | components/CompanyPicker.tsx:44-45 | an image exactly when some product of that company has a non-empty company image, and then the image of the first such product |
| CompanyPicker.Select | components/CompanyPicker.tsx:39-52 | emits the company, plus the first product logo of that company exactly when the caller wants one and one exists; closes and clears the picker |
| CompanyPicker.SelectReportsFirstLogo | components/CompanyPicker.tsx:39-52 | given the index of the first product of the company with a logo, selection reports exactly that logo when logos are wanted and none otherwise |
| CompanyPicker.Create | components/CompanyPicker.tsx:54-60 | blank text emits nothing and changes nothing; otherwise it emits the trimmed, non-empty text and closes and clears the picker |
| CompanyFilter.ChipCompanies | components/CompanyFilter.tsx:18-22 | no duplicates, every product's company and nothing else, in first-occurrence order |
| CompanyFilter.Press | components/CompanyFilter.tsx:24-50 | "All" yields null; pressing the selected company yields null, any other company yields itself |
| CompanyFilter.PressTwice | components/CompanyFilter.tsx:24-31 | pressing the same chip twice returns to that company if it was selected, otherwise to null |
| CompanyFilter.RenderedIffProducts | components/CompanyFilter.tsx:33-35 | the filter renders exactly when there is at least one product |
| ProductCard.ShownPrice | components/ProductCard.tsx:29-31 | the base price, discounted only when the discount is effective, and then the base price minus the discount amount |
| ProductCard.StruckPrice | components/ProductCard.tsx:30-31 | the base price is struck through exactly when the discount is present and positive |
| ProductCard.Badge | components/ProductCard.tsx:52-58 | a badge exactly when the discount is effective: "v%" for a percentage, "₹v" for a flat discount |
| ProductCard.BadgeMatchesInvoiceLabel | components/ProductCard.tsx:55-58 | the card badge followed by " OFF" is the invoice's discount label |
| ProductCard.IsProductTrending | components/ProductCard.tsx:34-36 | the remote list decides when it has data and no error; otherwise the local store does |
| ProductCard.EmptyRemoteOverridesLocal | components/ProductCard.tsx:34-36 | an empty but successful remote answer marks nothing trending, whatever the local list says |
| TrendingStore.Limit | stores/trendingStore.ts:24 | `slice(0, 5)`: a prefix of at most five ids, all of them when there are at most five |
| TrendingStore.IsTrending | stores/trendingStore.ts:71-73 | `includes`: true exactly when some position of the list holds the id |
| TrendingStore.SetTrending | stores/trendingStore.ts:21-55 | the local list becomes the first five ids whether or not storage fails; an error is raised exactly when the reset fails or a non-empty flag update fails |
| TrendingStore.SetKeepsRepeats | stores/trendingStore.ts:24-45 | an id repeated among the first five is stored twice at its positions, so the stored list is not deduplicated |
| TrendingStore.Add | stores/trendingStore.ts:47-63 | a present id or a full list changes nothing and raises nothing; otherwise the id is appended and the setter's error, when a storage step fails, propagates |
| TrendingStore.Remove | stores/trendingStore.ts:47-69 | the result is the first five of the ids other than the removed one, in order: no occurrence remains and nothing new appears; it raises exactly when the clear fails or the flagging of a non-empty list fails |
| TrendingStore.Load | stores/trendingStore.ts:75-95 | a successful load replaces the list with the stored ids; a failed one keeps it |
| TrendingStore.AddKeepsGood | stores/trendingStore.ts:57-63 | add preserves "at most five and distinct" |
| TrendingStore.RemoveKeepsGood | stores/trendingStore.ts:65-69 | remove preserves "at most five and distinct" |
| TrendingStore.LoadIgnoresCap | stores/trendingStore.ts:86-87 | any loaded list of more than five ids is kept whole |
| TrendingUpdate.Clear | backend/trpc/routes/trending/update/route.ts:12-18 | every product row becomes not trending with a null order; no row is added or lost |
| TrendingUpdate.Rank | backend/trpc/routes/trending/update/route.ts:28-34 | the id's row (if present) becomes trending with the given order; every other row is unchanged |
| TrendingUpdate.LastIndex | backend/trpc/routes/trending/update/route.ts:27-34 | the last position holding an id in the input |
| TrendingUpdate.RankedKeys | backend/trpc/routes/trending/update/route.ts:27-40 | ranking never adds or removes product rows |
| TrendingUpdate.RankedRow | backend/trpc/routes/trending/update/route.ts:27-40 | after ranking, an input id's row is trending with order = 1 + its last position, and any other row is unchanged |
| TrendingUpdate.UpdateTrending | backend/trpc/routes/trending/update/route.ts:5-51 | more than five ids are rejected without change, and at most five never are; a clear failure changes nothing and reports the clear message; success ranks every id; a failure at index i leaves ids 0..i−1 ranked over the cleared table and names id i in the message |
| TrendingUpdate.SuccessfulUpdateRows | backend/trpc/routes/trending/update/route.ts:12-41 | after success exactly the input ids are trending, each ordered by its 1-based last position, and all other rows are cleared |
| TrendingUpdate.EmptySelectionClears | backend/trpc/routes/trending/update/route.ts:12-26 | an empty input just clears every trending flag and order |
| NumberParse.DigitRun | components/CartItem.tsx:55 | the longest prefix of digits in the radix |
| NumberParse.ParseUnsigned | components/CartItem.tsx:55 | after "0x" or "0X" the hexadecimal digit run, otherwise the decimal one, is read; NaN exactly when that run is empty |
| NumberParse.ParseSigned | components/CartItem.tsx:55 | a leading "-" negates and a leading "+" keeps the unsigned reading of the rest; without a sign the whole text is read unsigned |
| NumberParse.WithSign | components/CartItem.tsx:55 | a sign applied to an unsigned reading: NaN stays NaN, a minus negates (giving at most 0), otherwise the value is kept (at least 0) |
| NumberParse.ParseInt | components/CartItem.tsx:55 | `parseInt`: white space alone is NaN, and a number needs a digit of the text; after leading white space, every first character is covered: a digit 1-9 reads the decimal digit run; a "-" or "+" reads the rest unsigned and negates or keeps it; a "0" reads unsigned from there (so "0x" starts hexadecimal); any other character, hexadecimal letters included, gives NaN |
| NumberParse.ParseIntFirstCharacters | components/CartItem.tsx:55 | "+7" reads 7, "007" reads 7, "0x1A" reads 26 and "a" is NaN |
| NumberParse.ShowNat | components/CartItem.tsx:58 | the decimal digits of a natural number, reading back to it, with no leading zero |
| NumberParse.ParseShown | components/CartItem.tsx:55-58 | `parseInt(n.toString()) == n` for every integer |
| NumberParse.ParseShownInt | components/CartItem.tsx:55-58 | a printed integer followed by a non-digit still parses back to that integer |
| CartItemView.Increment | components/CartItem.tsx:33-37 | requests quantity + 1 for the same key |
| CartItemView.Decrement | components/CartItem.tsx:39-47 | requests quantity − 1 exactly when more than one is held; otherwise removes the line |
| CartItemView.SubmittedQuantity | components/CartItem.tsx:55-56 | a parsed value ≥ 1 is kept; NaN, 0 and negatives become 1, so the result is always ≥ 1 |
| CartItemView.Submit | components/CartItem.tsx:54-60 | requests exactly the submitted quantity (parseInt or 1, at least 1) for the same key |
| CartItemView.SubmitUnedited | components/CartItem.tsx:49-60 | submitting the box as opened keeps a positive quantity and repairs any other to 1 |
| CartItemView.DecrementLastRemoves | components/CartItem.tsx:44-46 | decrementing a line held once leaves no line with its key |
| CartItemView.IncrementThenDecrement | components/CartItem.tsx:33-47 | increment followed by decrement restores the cart |
| CartItemView.OriginalUnit | components/CartItem.tsx:22-23 | the variation's price, or the product's base price when the variation is gone |
| CartItemView.ItemPrice | components/CartItem.tsx:26-28 | the discounted original unit price, equal to the original minus the discount amount |
| CartItemView.LineTotal | components/CartItem.tsx:30 | the shown line total is the undiscounted amount less the saving on every unit |
| CartItemView.LineTotalMatchesCart | components/CartItem.tsx:30 | where the variation exists the line total is what the cart total counts for it; where it is gone the cart counts 0 |
| CartItemView.StrikeIffSaving | components/CartItem.tsx:31 | the struck-through price shows exactly when the discount saves something on this unit |
| ImageUpload.TypeOfExtension | components/ImageUpload.tsx:80-89 | png → png/image/png, webp → webp/image/webp, anything else (jpeg, jpg included) → jpg/image/jpeg |
| ImageUpload.Classify | components/ImageUpload.tsx:74-90 | no name or an empty one gives JPEG; otherwise the type of the lower-cased text after the last '.' |
| ImageUpload.ClassifyByLastDot | components/ImageUpload.tsx:79 | only the text after the last dot decides, in any letter case |
| ImageUpload.GalleryName | components/ImageUpload.tsx:270-279 | the picture's own name; else "image." plus the URI's lower-cased last segment; else "image.jpg" |
| ImageUpload.LowerKeepsDots | components/ImageUpload.tsx:276 | lower-casing neither adds nor removes dots |
| ImageUpload.GalleryFallbackFollowsUri | components/ImageUpload.tsx:273-278 | a nameless gallery picture is stored as the type its URI names |
| ImageUpload.GalleryFallbackWithoutDot | components/ImageUpload.tsx:276-277 | a nameless gallery picture whose URI has no dot is stored as JPEG |
| ImageUpload.JpgNamesAreJpeg | components/ImageUpload.tsx:86-88 | any "<stem>.jpg" name is classified as JPEG |
| ImageUpload.CameraName | components/ImageUpload.tsx:348-353 | the photo's own name, else "photo.jpg", which classifies as JPEG |
| ImageUpload.UploadPath | components/ImageUpload.tsx:147-149 | "products/", then the unique part, then "." and the classified extension |
| ImageUpload.UploadPathKeepsType | components/ImageUpload.tsx:147-149 | the stored object's own name classifies as the type it was uploaded as |
| ImageUpload.SubmitUrl | components/ImageUpload.tsx:385-391 | blank text changes nothing; otherwise the trimmed, non-empty URL is emitted and the box is cleared and hidden |
| ImageUpload.UploadAlert | components/ImageUpload.tsx:284-299 | 'Bucket not found' and then 'storage' messages are reworded, any other error message is shown as is, a non-error gets the generic text, and the URL tip always follows |
| Text.Trim | components/CompanyPicker.tsx:55-56 | `trim()`: white space, then the result, then white space, and the result neither starts nor ends with white space |
| Text.TrimEmptyIffAllSpace | components/ImageUpload.tsx:386 | a string trims to nothing exactly when it is all white space |
| Text.Contains | stores/productStore.ts:92-93 | `includes`: true exactly when the pattern occurs at some position |
| Text.LastSegment | components/ImageUpload.tsx:79 | `split(sep).pop()`: a separator-free suffix preceded by the separator or the start |
| Seqs.Dedup | components/CompanyFilter.tsx:20 | `Array.from(new Set(..))`: distinct, same members, first-occurrence order |
| StringOrder.Sort | stores/productStore.ts:178 | `sort()`: sorted and a permutation of its input |
| Email.ValidIffPattern | app/signup.tsx:56-57 | the index-based check agrees with the pattern "non-empty, '@', non-empty, '.', non-empty, none of them with white space or '@'", in both directions |
| Email.Check | app/login.tsx:54-55 | the one-pass scan answers true exactly when the address matches the pattern |
| Email.Examples | app/signup.tsx:56 | "a@b.co" matches; "a@b." and "a@@b.co" do not |
| Messages.FirstFailing | app/signup.tsx:40-60 | none exactly when every check passes; otherwise the message of a failing check with all earlier ones passing |
| Messages.Explain | app/signup.tsx:70-78 | the replacement of the first rule whose pattern the message contains; else the message, or the fallback when it is empty |
| Messages.ExplainNeverBlank | app/login.tsx:68-74 | with non-empty replacements and fallback, the mapped validation message is never empty |
| Messages.Shown | app/login.tsx:100-102 | `error || validationError`: the store's error when set, otherwise the validation message; the error box appears exactly when either is set |
| Routing.HomeFor | app/index.tsx:42-53 | no location → location picker; with a location, admin → admin home, anyone else → customer home |
| Routing.LaunchRoute | app/index.tsx:29-60 | nothing until initialised and not loading; then login unless authenticated with a user, and otherwise that user's home |
| Routing.LoginRedirect | app/login.tsx:20-40 | a redirect exactly when authenticated with a user, never back to login |
| Routing.LoginAgreesWithLaunch | app/login.tsx:28-37 | the login screen sends a signed-in user where the launch screen would |
| Signup.Validate | app/signup.tsx:40-60 | the first failing of: all fields filled, passwords equal, at least 6 characters, valid e-mail, with the exact messages |
| Signup.SixIsEnough | app/signup.tsx:50-53 | an otherwise valid form passes with exactly 6 characters and fails at 5 |
| Signup.Submit | app/signup.tsx:34-80 | both errors are cleared; signup is called exactly when validation passes, otherwise the validation message is set; a service error is mapped into the validation message, never blank, while the store records the raw message or its own default |
| Signup.ShownAfterSubmit | app/signup.tsx:34-103 | the screen shows the failed check, or after a service error the store's raw message (or its default), which hides the mapped text |
| Signup.AlreadyRegisteredWins | app/signup.tsx:70-71 | a message containing 'User already registered' always gets the "try logging in" text |
| Signup.SignupRedirect | app/signup.tsx:21-32 | once authenticated with a user, the next screen is the location picker |
| Login.Validate | app/login.tsx:48-58 | the first failing of: both fields filled, valid e-mail |
| Login.EmptyPasswordReportedFirst | app/login.tsx:48-51 | an empty password is reported as "Please fill in all fields" whatever the e-mail |
| Login.Submit | app/login.tsx:42-76 | both errors are cleared; login is called exactly when validation passes; a service error is mapped into the validation message by 'Invalid login credentials', then 'Email not confirmed', else raw or the default, while the store records the raw message or its own default |
| Login.ShownAfterSubmit | app/login.tsx:42-103 | the screen shows the failed check, or after a service error the store's raw message (or its default), which hides the mapped text |
| Login.BadAddressNeverCalls | app/login.tsx:54-58 | an invalid address never reaches the login service |
| ResetPassword.Send | app/reset-password.tsx:19-41 | both errors are cleared; the request is sent exactly when the address is filled and valid; success sets `emailSent`; failure sets the validation message to the service message or the screen default, and the store error to the message or the store default |
| ResetPassword.ShownAfterSend | app/reset-password.tsx:19-84 | the screen shows the failed check, or after a service error the raw message, or for a message-less one the store's default rather than the screen's |
| ResetPassword.TryAgain | app/reset-password.tsx:116-118 | "Try Again" clears `emailSent` and keeps the address and both errors |
| ResetPassword.SendThenTryAgain | app/reset-password.tsx:34-118 | a successful send followed by "Try Again" returns to the form with nothing shown in the error box |
| SimpleReset.KeyOfValidAddress | app/simple-reset-password.tsx:41 | a valid address has no surrounding white space, so its lookup key is its lower-cased form |
| SimpleReset.AccountKey | app/simple-reset-password.tsx:41 | the trimmed address with no capital letters, as long as the trimmed text, and empty exactly when the address is all white space |
| SimpleReset.VerifyEmail | app/simple-reset-password.tsx:21-57 | the email checks report the first failure; a lookup that throws gives "Failed to verify email. Please try again."; one that answers with an error, or with no single row for the trimmed, lower-cased address, gives "No account found with this email address"; otherwise the step moves to 'password' with the error cleared, and only then |
| SimpleReset.LookupIgnoresCase | app/simple-reset-password.tsx:41 | two valid addresses that differ only in letter case verify alike |
| SimpleReset.ChangePassword | app/simple-reset-password.tsx:59-118 | the four password checks run in order; sign-in is tried only when they pass, and from then on only the error changes; a rejected sign-in gives "Current password is incorrect" and no update; the change succeeds exactly when the update does, with the error cleared; a failed update shows its message or the default |
| SimpleReset.Back | app/simple-reset-password.tsx:120-130 | from 'password' back to 'email' with the three passwords and the error cleared; from 'email' the screen is left |
| SimpleReset.ForwardThenBack | app/simple-reset-password.tsx:49-127 | verifying an account and going back returns to the e-mail step with the address kept and everything else cleared |

## Left out

- Supabase, tRPC and auth calls, realtime subscriptions, `isLoading` flags and logging: every storage answer is a parameter instead.
- `clearCart`: a one-line reset to the empty cart; it appears only as the cart `Orders.PlaceOrder` leaves behind.
- JavaScript double-precision rounding, `toFixed`, `Math.round` and locale date formatting: money is an exact `real`.
- Invoice HTML and PDF generation, printing and sharing, and all styling.
- `Date.now`/`Math.random` in the upload path: the unique part is a parameter.
- The upload bucket-retry loop, permissions and file reading: I/O.
- Text.Lower: ASCII letters only, whereas `toLowerCase` maps all of Unicode.
- StringOrder.Sort: compares characters by code point, whereas `sort()` compares UTF-16 code units; the two differ only above the Basic Multilingual Plane.
- NumberParse.ParseInt: unbounded integers, so values beyond 2^53 are not rounded as a JavaScript number would be.
- Orders.ReconstructItem: the rebuilt product has no company image, because the reconstruction code never copies `company_image_url`.
- `addToCart` raises the held line's quantity in place and the reconstruction writes the snapshot variation into the fetched variation list; the model builds new values instead, which gives the same new state.
- SimpleReset.ChangePassword: a sign-in call that throws rather than answering with an error is not separated from a rejected password.
- Orders.FetchOrders: the server-side ordering by creation date is the database's, so rows are taken in the order given.
- A thrown value with no `message` is modelled as an error whose message is the empty string.
- The trending "get" route, the debug screens, location and layout screens, and build scripts: no logic of their own.
