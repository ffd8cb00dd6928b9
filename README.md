# Il-Barri restaurant voice assistant: handler logic in Dafny

The restaurant's voice assistant is backed by six serverless HTTP handlers. This
project models the logic of each handler and proves properties of it:

- `session.js` issues voice sessions. It keeps a per-address rate limiter: a fixed
  window of one hour, at most ten sessions per window, and a sweep of stale entries
  after every accepted request. It also checks that the provider key is configured.
- `create-order.js` validates an order and prices it from the menu. It adds a
  delivery fee, picks an order number and a preparation estimate, and writes the
  order with one line row per item that resolves.
- `check-allergens.js` looks an item up by name, ignoring case, and intersects the
  requested allergens with the item's own.
- `check-availability.js` answers "is there a table?" from a slot table, with a
  two-minute cache in front.
- `create-reservation.js` validates a booking and mints a confirmation code. It
  inserts the reservation, then takes one table off the matching slot rows. These are
  two separate statements.
- `get-menu.js` lists menu items by category and dietary flag in a fixed order, with
  a one-hour cache in front.

Layout: one module per handler (`Session`, `Order`, `Allergens`, `Availability`,
`Reservation`, `Menu`). Two modules are shared:

- `Text` holds optional fields and JavaScript truthiness, ASCII case folding,
  `join`, decimal rendering and the random-code loop.
- `Store` holds the rows, the `Database` class and the `KvStore` cache class.

Conventions:

- The rate-limit map is a class with a `map` field, updated by `Request` and by
  its `Sweep` loop.
- Each table is a `seq` field of `Database`. An insert appends to it. The
  availability `UPDATE` is a loop over rows that rewrites them in place.
- The cache is a `map` field of `KvStore`.
- Pure parts are functions, each with a reference definition and lemmas: validation,
  filters, message choice, key formats, the `WHERE` clauses and the `ORDER BY`.
- Inputs the handlers get from the environment are parameters: the clock, the
  `Math.random` draws (as the floored indices), the ids the database returns, and
  which store statement throws (if one does).
- Money is integer cents.

## Model

| member | source | states |
|---|---|---|
| Session.Counted | api/session.js:29-44 | A request that is not refused gets one more count in an open window, keeping the window's start. Otherwise it gets a new window opening now with count 1. Every other address is untouched. |
| Session.Swept | api/session.js:47-51 | After the sweep no entry older than the window remains. Every entry that is not stale is kept unchanged, and nothing is added. |
| Session.Admission | api/session.js:29-51 | A request is accepted iff the caller is not rate-limited. A refused request leaves the map as it was. An accepted one leaves `Swept(Counted(map))`, and no entry in it is stale. |
| Session.CallerNotSwept | api/session.js:38-51 | The caller's own freshly counted entry survives the sweep. |
| Session.AdmissionKeepsCounts | api/session.js:33-43 | Every request keeps all counts within 1..10. |
| Session.ElapsedWindowReopens | api/session.js:39-44 | A caller with no entry, or with `now - timestamp >= window`, is admitted with `{count: 1, timestamp: now}`, whatever the old count. |
| Session.AdmittedUpToCap | api/session.js:29-38 | Up to ten requests inside a window opened by the first are all admitted. The count equals the number of requests and the window start stays at the first request's time, so the window is fixed, not rolling. |
| Session.CapReachedRefuses | api/session.js:32-37 | The eleventh request inside one window is refused after the first ten were admitted. |
| Session.Decide | api/session.js:29-62 | 429 exactly when rate-limited. A configuration error exactly when not limited and the key is absent or lacks the "sk-" prefix. The provider is called only when neither holds. |
| Session.MisconfiguredKeyConsumesQuota | api/session.js:29-62 | Requests that all end in a configuration error still raise the caller's count, one per request. |
| Session.RateLimiter.Request | api/session.js:29-51 | A refused request leaves the whole map unchanged, because it returns before the sweep. An accepted one leaves exactly `Swept(Counted(old map))`. The 1..10 count invariant is kept. |
| Session.RateLimiter.Sweep | api/session.js:47-51 | The deletion loop over the entries leaves exactly the `Swept` map. |
| Session.RateLimiter.Handle | api/session.js:29-62 | The outcome is `Decide` on the old map, and the new map is the one the admission step leaves. |
| Order.Validate | api/create-order.js:71-92 | 400 "missing" iff name, phone, type or items is falsy or items is empty. "Invalid order_type" iff the type is neither "delivery" nor "pickup". "Missing delivery address" iff delivery with no address. Otherwise the order is accepted with its type. |
| Order.PickupNeedsNoAddress | api/create-order.js:79-92 | A pickup order is accepted whatever its address field holds. |
| Order.CalculateTotal | api/create-order.js:17-39 | The loop's total equals the sum of price times quantity over the lines. A line whose name matches no available item adds 0. |
| Order.SubtotalMatchesRows | api/create-order.js:17-179 | The amount charged for the items equals the total of the `order_items` rows written. It is also the subtotal over the resolving lines alone. |
| Order.SingleLineTotals | api/create-order.js:96-102 | For a one-line order, a pickup costs price times quantity. A delivery costs that plus the 3.00 fee, added exactly once. |
| Order.OrderTotal | api/create-order.js:96-102 | The stored total of a pickup order is the subtotal over the resolving lines alone. A delivery order adds the 3.00 fee to that, once. |
| Order.OrderRowFor | api/create-order.js:111-142 | The `orders` row has status "pending" and carries the given id, number, type, total and estimate, and the request's name and phone. Email, the three delivery fields, instructions and session id are each stored as given when truthy and as null otherwise. This holds for pickup orders too, so a pickup order keeps any address it was sent. |
| Order.InsertLineRows | api/create-order.js:148-179 | The insertion loop fails iff the store throws at a line index inside the request. On failure exactly the rows of the earlier lines are appended. Otherwise exactly `LineRows` of all lines is appended. |
| Order.ResolvedIsFilter | api/create-order.js:148-179 | The lines that get a row form a subsequence of the request's lines. Each resolving line occurs as often as in the request, and no other line occurs. |
| Order.RowFor | api/create-order.js:150-177 | A line's row carries an available menu item whose name matches it ignoring case. The row copies that item's id, name and price, the line's quantity, and its modifications or null. |
| Order.OneRowPerResolvedLine | api/create-order.js:148-179 | Exactly one row per resolving line, in request order. The k-th row is the `RowFor` of the k-th resolving line. |
| Order.EstimatedMinutes | api/create-order.js:105 | The estimate is always within 30..44 minutes. |
| Order.OrderNumberFormat | api/create-order.js:7-14 | Every order number is "ORD" followed by six decimal digits, nine characters in all. |
| Order.GenerateOrderNumber | api/create-order.js:7-14 | The generator loop builds exactly `OrderNumber(draws)`, which has that format. |
| Order.ConfirmationFor | api/create-order.js:181-194 | The response carries the order number, id, customer name, type, total and estimate it is given, and its message opens by naming the order number. It echoes the request's original items, unresolved ones included, and the special instructions as sent. `delivery_address` is null unless the order is a delivery, and then it is the request's address. |
| Order.CreateOrder | api/create-order.js:71-202 | A rejected request writes nothing. A failure before the order insert writes nothing and returns the phone-fallback message. Otherwise exactly one order row is appended, with status "pending", the fee-inclusive total, the estimate and the number. A failure at line k keeps the rows of the earlier lines. Success appends exactly `LineRows` of all lines. |
| Store.FindAvailable | api/create-order.js:22-27 | The lookup returns an available item whose name equals the given one ignoring case. It returns none only when no such item exists or the name is missing. |
| Store.Database.InsertOrder | api/create-order.js:111-142 | Appends exactly the given row to `orders`. |
| Store.Database.InsertOrderItem | api/create-order.js:161-177 | Appends exactly the given row to `order_items`. |
| Allergens.CategoryById | api/check-allergens.js:43 | The join partner is a category row with the item's category id. It is none only when no such row exists. |
| Allergens.FindWithCategory | api/check-allergens.js:34-47 | Returns an available item matching the name ignoring case, together with its category row. It returns none only when no available matching item has a category row. |
| Allergens.Found | api/check-allergens.js:61-65 | `found_allergens` is no longer than the requested list, and each of its entries matches some item allergen ignoring case. |
| Allergens.FoundIsFilter | api/check-allergens.js:61-65 | `found_allergens` is a subsequence of the requested list. It holds each requested allergen exactly as often as the request does when the item lists it ignoring case, and never otherwise. |
| Allergens.FoundExactlyTheMatches | api/check-allergens.js:61-65 | Every found allergen was requested and matches an item allergen. Every requested allergen that was not found matches none. |
| Allergens.WarningIffFound | api/check-allergens.js:69-79 | The message begins with "Warning" iff something was found. When something was found it is exactly the warning naming the found allergens. |
| Allergens.HoweverIffItemHasAllergens | api/check-allergens.js:74-79 | A reassurance is followed by "However, it does contain" iff the item has allergens of its own. |
| Allergens.Message | api/check-allergens.js:69-79 | With something found, the message is the warning naming the found allergens. With nothing found it begins with the reassurance naming the requested ones, and is exactly that when the item has no allergens. |
| Allergens.CheckAllergens | api/check-allergens.js:25-99 | 400 iff the name is falsy or `allergens` is not a list, before any lookup. A query failure gives the 500 "call us" reply. 404 iff no available matching item with a category exists. On 200, `allergens_checked` is the request's list and `found_allergens` is the filter. `has_allergens` holds iff something was found, `safe` is its negation, and the message is chosen accordingly. |
| Allergens.ItemAllergensReported | api/check-allergens.js:57-58 | `item_allergens` is the item's list, or empty when the column is NULL, whether or not anything matched. |
| Availability.CacheKeyInjective | api/check-availability.js:35 | When the dates contain no ':', distinct (date, time, party size) requests get distinct `availability:` keys. Times such as "19:00" may contain ':'. |
| Availability.CacheKey | api/check-availability.js:35 | The key starts with `availability:`, the date and a ':'. It ends with a ':' followed by the decimal party size. Between the two is exactly the time. |
| Availability.FirstMatch | api/check-availability.js:44-52 | The row found matches date, time slot, `available_tables > 0` and `max_party_size >= party_size`. None is found only when no row matches. |
| Availability.Evaluate | api/check-availability.js:54-68 | `available` holds iff some slot row matches. `tables_available` is present iff available, and is then the matched row's count, which is positive. Date, time and party size are echoed. |
| Availability.CheckAvailability | api/check-availability.js:26-81 | A falsy date, time or party size gives 400 with the cache untouched. A hit is returned verbatim and the cache is unchanged. A miss stores the computed answer under the key with a 120-second expiry and returns it. Any store failure gives 500 with `available: false`. |
| Store.KvStore.Get | api/check-availability.js:36 | A value is returned iff the key is present, and then it is the stored value. |
| Store.KvStore.Set | api/check-availability.js:71 | Maps the key to the value with the given expiry and changes nothing else. |
| Text.IntToStringInjective | api/check-availability.js:35 | Different integers print differently in a template string. |
| Reservation.ConfirmationCodeFormat | api/create-reservation.js:8-15 | Every code is "RES" followed by six characters from A-Z0-9, nine in all. The alphabet is exactly those 36 characters. |
| Reservation.GenerateConfirmationCode | api/create-reservation.js:8-15 | The generator loop builds exactly `ConfirmationCode(draws)`, which has that format. |
| Text.RandomCode | api/create-reservation.js:8-15 | The built string is the prefix followed by one alphabet character per draw, in order. |
| Reservation.NewRow | api/create-reservation.js:59-88 | The inserted row has status "confirmed" and the new code, and records the request's name, phone, party size, date and time. `dietary_restrictions` is stored serialized iff present, and as the JSON list of its strings. Email, special requests, occasion and session id are each stored as given when truthy and as null otherwise. |
| Reservation.FailureMessage | api/create-reservation.js:124-134 | The conflict message iff the error text contains "confirmation_code". The phone-fallback message otherwise. |
| Store.Decremented | api/create-reservation.js:91-97 | The decrement keeps the table's length and each row's date, time and party limit. It takes one table off exactly the rows with matching date and time that still have one. Every other row is unchanged, so a count never becomes negative. |
| Reservation.DecrementRemovesOnePerMatchingRow | api/create-reservation.js:91-97 | Across the table, exactly one table is removed per matching row that had one. With none, the table is unchanged. |
| Reservation.FullSlotStillConfirms | api/create-reservation.js:91-118 | A booking for a slot with no free table leaves the slot table as it was, and the booking is still confirmed (see `CreateReservation`). |
| Reservation.CreateReservation | api/create-reservation.js:47-134 | A falsy required field gives 400 and writes nothing. An insert error writes nothing and maps through `FailureMessage`. After a successful insert the row is appended. An update error then still returns 500 and leaves the slots alone. Success applies the guarded decrement and confirms with the code. The availability cache is never touched. |
| Reservation.StaleAnswerAfterReservation | api/create-reservation.js:99-101 | The cached "available" answer outlives the booking that took the slot's last table: the next availability check returns the same cached answer although no table is left. |
| Store.Database.InsertReservation | api/create-reservation.js:59-88 | Appends exactly the given row to `reservations`. |
| Store.Database.DecrementAvailability | api/create-reservation.js:91-97 | The row-by-row loop leaves exactly `Decremented(old slots)`. |
| Text.OrNull | api/create-reservation.js:77-85 | `x or null` (JavaScript `||`) keeps a value iff it is truthy. |
| Menu.CategoryId | api/get-menu.js:37-44 | A name gets an id iff it is one of the six the map knows, and every id lies within 1..6. |
| Menu.CategoryIdInjective | api/get-menu.js:37-44 | No two names share an id. |
| Menu.ShapeOf | api/get-menu.js:49-103 | Each of the four queries is chosen iff its combination of truthy category and truthy filter holds. |
| Menu.Where | api/get-menu.js:49-103 | Only available items qualify, and a truthy category lets items qualify only when it is one of the six known names. |
| Menu.WhereByField | api/get-menu.js:49-103 | Across the four query shapes, an item qualifies iff it is available, in the requested category when one is given, and carries the requested flag when one is given. |
| Menu.RowLeq | api/get-menu.js:62-101 | Without a category, a lower display order comes first and a higher one never does. Within one display order, or with a category, a popular item comes before one that is not. Between equally popular items the name decides. |
| Menu.MatchingMembers | api/get-menu.js:52-102 | A row is returned iff it joins a qualifying item with that item's category row. |
| Menu.SortRowsCorrect | api/get-menu.js:89-101 | The sorted rows are in the listing order, and they are a permutation of the input rows. |
| Menu.Select | api/get-menu.js:49-105 | The query result is in the listing order and is a permutation of the matching join rows. |
| Menu.SelectMembers | api/get-menu.js:49-103 | Every listed row is a qualifying item with its own category, and every such pair is listed. |
| Menu.UnknownCategoryListsNothing | api/get-menu.js:49-77 | A truthy category outside the six known names lists nothing, whatever the filter; this is an empty listing, not an error. |
| Menu.PopularFirst | api/get-menu.js:62-76 | A category listing puts every popular item before every other. |
| Menu.DisplayOrderFirst | api/get-menu.js:89-101 | A listing without a category goes by display order, and within one display order puts popular items first. |
| Menu.EntryFor | api/get-menu.js:111-121 | NULL allergens and flags become `[]`, and present ones are copied. The spice level is 0 iff it is falsy, and a truthy one is kept. Id, name, description, price and `popular` are copied from the item, and the category name comes from the join. |
| Menu.ResponseFor | api/get-menu.js:107-122 | `count` equals the number of items, one entry per row in order. `category` is "all" when absent. `dietary_filter` is null unless truthy, and is then the given filter. |
| Menu.GetMenu | api/get-menu.js:25-135 | A hit is returned verbatim with no query and an unchanged cache. A miss stores the computed response under the key with a 3600-second expiry and returns it. Any store failure gives 500 and leaves the cache unchanged. |
| Menu.ReservedWordsShareCacheEntries | api/get-menu.js:27-66 | Category "all" has the same cache key as no category, yet its query lists nothing. Filter "none" has the same key as no filter. |
| Menu.CacheKey | api/get-menu.js:27 | The key is `menu:`, then the category or "all", then a ':', then the filter or "none" to the end. |
| Menu.AllCategoryEmptiesFullMenu | api/get-menu.js:27-66 | On a cold cache, a request for category "all" and then one with no category both get an empty listing, although the full menu lists at least one item. |
| Menu.Normalize | api/get-menu.js:27 | The normalized request has a category iff the given one is truthy and not "all", and a filter iff the given one is truthy and not "none". What it keeps is unchanged. |
| Menu.NormalizedKeyDeterminesRequest | api/get-menu.js:27 | When neither category contains ':', two requests share a menu key only if they normalize to the same request. |
| Menu.GetMenuNormalized | api/get-menu.js:25-135 | The corrected handler queries the normalized request. Every listing it returns is the one computed for the normalized request. It keeps every cache entry equal to the listing of the request its key stands for. Without a fault it always answers with a listing. |
| Menu.CacheNamespacesDisjoint | api/get-menu.js:27 | No menu key equals any availability key, so the two handlers' entries do not collide in the shared cache. |
| Text.OrElse | api/get-menu.js:27 | `x or fallback` (JavaScript `||`) gives the value iff it is truthy, and the fallback otherwise. |

## Left out

- The voice-provider `fetch` in `session.js`, with its instruction text, tool schema and relayed errors: a network call and a constant payload.
- CORS headers, the OPTIONS preflight and the 405 method gate in every handler: HTTP plumbing with no logic.
- `console` logging and the `NODE_ENV`-dependent error detail: no effect on results.
- `local-server.mjs`: a development static-file server, not part of the handlers.
- Concurrency between requests: every request is modelled alone. This covers races between the availability read and the reservation decrement, and unsynchronised access to the rate-limit map.
- Cache expiry timing: the model records the expiry each entry is written with, but entries never expire.
- `created_at` columns and response fields: the clock behind them is outside the model.
- Ids returned by `RETURNING id` are parameters, and so are the `Math.random` draws (as indices) and the current time.
- Floating point: prices, totals and the 3.00 fee are integer cents, so rounding is not modelled.
- How the caller address is taken from `x-forwarded-for` or the socket: the address is a parameter.
- Session.RateLimiter.Request: does not model a missing caller address, which JavaScript would use as the key `undefined`.
- Text.Lower: folds ASCII letters only; Unicode case mapping in `toLowerCase` and SQL `LOWER` is not modelled.
- Menu.RowLeq: `name ASC` is code-point order, not the database collation. `popular` and `display_order` are taken as never NULL.
- Menu.Select: where the SQL order leaves ties, the model fixes one order. The contracts state only sortedness and permutation, which is all SQL promises.
- Store.FindAvailable: `LIMIT 1` without `ORDER BY` returns some matching row; the model takes the first in table order. Its contract states only that a matching row is returned, but the lemmas about order rows rely on the choice being the same at every lookup (see the next line).
- Order.SubtotalMatchesRows: assumes the price lookup in `calculateTotal` (create-order.js:22-27) and the row lookup in the insertion loop (create-order.js:150-156) pick the same row. SQL promises that only when available item names are unique ignoring case. The same assumption underlies Order.RowFor, Order.LineRows and Order.OneRowPerResolvedLine.
- Allergens.FindWithCategory: the join at check-allergens.js:34-47 is also `LIMIT 1` without `ORDER BY`; the model takes the first available matching item in table order that has a category row. Allergens.ItemAllergensReported and Allergens.CheckAllergens report that item's allergens, which is the database's answer only when available item names are unique ignoring case.
- Availability.FirstMatch: the same choice of the first matching row for `LIMIT 1`, so `tables_available` is the first matching row's count.
- Menu.CategoryId: names inherited by every JavaScript object, such as `constructor`, are treated as unknown categories. The handler would bind a non-numeric value and fail with 500.
- Dates and times are compared as strings. The database would compare `date` as a DATE, so differently written equal dates are not modelled.
- Reservation.JsonEscape: escapes only '"' and '\'; control characters are not escaped as `JSON.stringify` would.
- Order.LineItem: quantities are integers; JavaScript coercion of non-numeric quantities is not modelled.
- Availability.AvailabilityRequest: `party_size` is an integer. The voice tool declares it a JSON number (session.js:203-204 and 230-231), so a fraction or a numeric string could reach the handlers. Their truthiness, key text and SQL comparison are not modelled; the same holds for Reservation.ReservationRequest.
- Menu.GetMenuNormalized: its cache coherence is stated for categories without ':'. A category such as "a:b" shares a key with category "a" and a filter beginning "b:", which no normalization of the two fields separates.
- Allergens.AllergenArg: list elements are strings; a non-string element, which would make `toLowerCase` throw, is not modelled.
- The unused `cachePattern` in `create-reservation.js` has no effect and is not modelled; `StaleAnswerAfterReservation` shows the consequence.

## Findings

| source | as written | input that shows it | evidently intended | confidence | as-written member | corrected member |
|---|---|---|---|---|---|---|
| api/get-menu.js:27 | The cache key writes an absent category as "all" and an absent filter as "none", so category "all" shares the key of no category, while its query binds a NULL category id and lists nothing. | On a cold cache, a request with category "all", then a request with no category: the second is served the cached empty listing for an hour. | The key stands for one listing: "all" and "none" are read as no category and no filter before querying, so each cached entry is the listing for its key. | not executed | Menu.GetMenu, Menu.AllCategoryEmptiesFullMenu | Menu.GetMenuNormalized |
