# Wishlist: a Dafny model

A model of a Shopify storefront wishlist, in three parts. Each part is proved against its own
specification.

- **The storefront script** (`extensions/wishlist/assets/wishlist.js`):
  - a guest store kept in session storage;
  - a logged-in mirror of the customer's list, changed only after the endpoint answers;
  - the wishlist panel, with search and removal;
  - the manager, which does the guest-to-customer merge on start-up, debounced icon clicks
    and the icons' `wishlisted` flags.
- **The service** (`app/services/wishlist.js`), over a table of wishlist rows and a product
  catalogue. Variants are looked up by their base64-encoded global id.
- **The endpoint** (`app/routes/api.wishlist.js`): the loader's parameter check, and the
  action's dispatch with its per-action required fields and its 400 and 500 answers.

Stateful parts are classes:

- `GuestWishlist`, `LoggedInWishlist`, `WishlistUI` and `WishlistManager`.
- The debounce closure, `Debouncer`.
- The icons, an `array` of records.

Every method's postcondition states each field in its `modifies` frame, either outright or
through a function on values (`AddEntry`, `WithoutVariant`, `NewItems`, `Step`,
`SearchFilter`, ...); a panel that throws part-way is pinned down to the cards before the first
nullish item. Those functions carry the lemmas. The service and the route are pure functions of their inputs.

JavaScript values that are read from records and attributes are `Undefined | Null | Str(s)`:

- `===` is datatype equality.
- Truthiness means a non-empty string.
- A replaced `fetch` is a `Reply`: it rejected, it answered with a status outside 200–299,
  or it answered with a JSON body.
- Time is logical. A `Tick(now)` lets every timer due by `now` fire.

Four mismatches in the code are modelled as written. The `Interop` module states them.

- The script posts `_action`, but the route reads `action`. So every add, remove and bulk
  post of the script gets "Missing action"; see `Interop.UpdateFormMissesAction` and
  `Interop.BulkFormMissesAction`.
- The bulk payload goes in `data`, but the route wants `variantData`. The payload is also an
  array of entry objects, not of ids.
- The script reads `result.data`, but the replies carry `wishlisted`.
- `updateProductCards` builds an empty map in both arms of its condition. So every panel
  update empties the panel: `Panel.FilteredMapIsEmpty`,
  `Panel.WishlistUI.UpdateProductCards`.

Some behaviour of the code that the model keeps:

- A click chooses only "add" or "remove", for a guest as for a customer.
- The panel callbacks `removeItem` and `searchWishlist` can throw outside any `try`. Their
  methods return `threw`.
- When the guest merge fails, the script shows the error toaster and does not render the
  fetched list in the panel.
- The bulk post's reply body is never read: only whether the reply was ok matters.

## Model

| member | source | states |
|---|---|---|
| Text.Lower | extensions/wishlist/assets/wishlist.js:214 | `toLowerCase`: same length, each character mapped by the ASCII lower-casing |
| Text.Trim | extensions/wishlist/assets/wishlist.js:214 | `trim`: the result is the slice of the text between a white-space prefix and a white-space suffix, and it neither starts nor ends with white space |
| Text.LastSegment | extensions/wishlist/assets/wishlist.js:182 | `split('/').pop()`: a suffix of the text without "/", preceded by "/" when it is not the whole text |
| Text.LastSegmentAfterSlash | extensions/wishlist/assets/wishlist.js:456 | the last segment of `p + "/" + s` is `s` when `s` has no "/" |
| Gid.Encode | app/services/wishlist.js:8 | base64 output has length 4·⌈n/3⌉ |
| Gid.EncodeAlphabet | app/services/wishlist.js:8 | every character of the base64 output is a digit of the alphabet or the pad |
| Gid.DecodeEncode | app/services/wishlist.js:8 | decoding the base64 text gives back the exact bytes |
| Gid.EncodeDecode | app/services/wishlist.js:8 | any text that decodes is the encoding of what it decodes to, so each byte sequence has one accepted base64 text |
| Gid.EncodeGId | app/services/wishlist.js:8 | `encodeGId(type, id)` is base64 text that decodes to the UTF-8 bytes of `"gid://shopify/" + type + "/" + id`; by `Gid.EncodeDecode` it is the one canonical encoding of them |
| Records.WithoutVariant | extensions/wishlist/assets/wishlist.js:26 | keeps, in order and with their multiplicity, exactly the entries with another variant id; no entry with the id is left; the length is unchanged iff no entry had the id, and then the list is unchanged |
| Records.AddEntry | extensions/wishlist/assets/wishlist.js:15-22 | the id is listed afterwards; the list is unchanged if it was there, else one entry is appended; distinct variant ids stay distinct |
| GuestStore.GuestWishlist.constructor | extensions/wishlist/assets/wishlist.js:2-5 | the list starts as the persisted slot's list, or [] |
| GuestStore.GuestWishlist.FetchWishlist | extensions/wishlist/assets/wishlist.js:7-9 | the list stored in the slot, or [] when the slot is absent |
| GuestStore.GuestWishlist.AddItem | extensions/wishlist/assets/wishlist.js:15-22 | succeeds iff the variant id is absent; then exactly `{id, handle, shop}` is appended and saved; otherwise list and slot are unchanged; the exact messages; no duplicate ids are introduced |
| GuestStore.GuestWishlist.RemoveItem | extensions/wishlist/assets/wishlist.js:24-32 | removes every entry with the id, keeping the rest in order; succeeds iff the length changed, iff the id was present; saves only on success |
| GuestStore.GuestWishlist.ClearWishlist | extensions/wishlist/assets/wishlist.js:34-37 | the list is empty and the slot removed |
| GuestStore.GuestWishlist.SaveWishlist | extensions/wishlist/assets/wishlist.js:11-13 | the slot holds the current list |
| LoggedInStore.UpdateForm | extensions/wishlist/assets/wishlist.js:76-82 | the posted fields are customerId, shop, productVariantId and `_action`, plus productHandle exactly when it is truthy |
| LoggedInStore.LoggedInWishlist.constructor | extensions/wishlist/assets/wishlist.js:41-46 | starts with an empty list and no variant details |
| LoggedInStore.LoggedInWishlist.FetchWishlist | extensions/wishlist/assets/wishlist.js:48-63 | on an ok reply the list becomes `data` or [] and the details `variantData` or []; on any failure nothing changes and `[]` is returned |
| LoggedInStore.LoggedInWishlist.SendWishlistUpdate | extensions/wishlist/assets/wishlist.js:73-106 | success iff the reply is ok; only then does "add" append `{...data}` (an empty object without `data`) and "remove" drop every entry with the id; the exact messages for each outcome; the form posted is `UpdateForm` of the action, id and handle, whatever the reply |
| LoggedInStore.LoggedInWishlist.AddItem | extensions/wishlist/assets/wishlist.js:65-67 | posts `UpdateForm` for "add" with the given id and handle (the handle only when truthy); success iff the reply is ok, and only then the returned entry is appended; the exact messages |
| LoggedInStore.LoggedInWishlist.RemoveItem | extensions/wishlist/assets/wishlist.js:69-71 | posts `UpdateForm` for "remove" with the id and no handle; success iff the reply is ok, and only then every entry with the id is dropped; the exact messages |
| Debounce.BurstLeavesLastTimer | extensions/wishlist/assets/wishlist.js:311-317 | a burst of calls fires nothing and leaves one timer, the last call's, due `delay` after it |
| Debounce.EarlyTickIsQuiet | extensions/wishlist/assets/wishlist.js:315 | a tick before the deadline neither fires nor drops the timer |
| Debounce.BurstFiresOnce | extensions/wishlist/assets/wishlist.js:311-317 | a burst followed by a late enough tick calls the function exactly once, with the last call's arguments |
| Debounce.RunAppend | extensions/wishlist/assets/wishlist.js:311-317 | two stretches of events compose: final timer and firings of the whole are those of the parts |
| Debounce.Debouncer.constructor | extensions/wishlist/assets/wishlist.js:312 | no timer is pending |
| Debounce.Debouncer.Invoke | extensions/wishlist/assets/wishlist.js:313-316 | a call replaces the pending timer by one due `delay` later |
| Debounce.Debouncer.Advance | extensions/wishlist/assets/wishlist.js:315 | the pending timer fires, once, iff it is due |
| Panel.SearchFilter | extensions/wishlist/assets/wishlist.js:213-221 | the empty query keeps the whole list; otherwise it throws iff some item has no `product`, and else keeps, in order and with their multiplicity, exactly the items whose lower-cased title contains the trimmed lower-cased query |
| Panel.TitleOf | extensions/wishlist/assets/wishlist.js:217 | the title the search reads: "" for a nullish item, a throw iff an object has no `product`, and the product's title exactly when that title is non-empty |
| Panel.BlankQueryKeepsAll | extensions/wishlist/assets/wishlist.js:214-220 | a white-space-only query keeps every item |
| Panel.FilteredMapIsEmpty | extensions/wishlist/assets/wishlist.js:237-239 | the lookup map is empty whatever the data |
| Panel.WishlistUI.constructor | extensions/wishlist/assets/wishlist.js:110-139 | no list, no cards, empty search field, a 300-unit search debounce |
| Panel.WishlistUI.RenderProductCards | extensions/wishlist/assets/wishlist.js:160-174 | one card per item, in order, with the item's id as text; it throws iff some item is nullish, and then the cards are those of the items before it |
| Panel.WishlistUI.SetVariantData | extensions/wishlist/assets/wishlist.js:142-145 | stores the list and renders it; `undefined` empties the panel and throws; otherwise it throws iff a nullish item is listed, the cards read the items' ids in order, and on a throw they stop exactly at the first nullish item |
| Panel.WishlistUI.UpdateProductCards | extensions/wishlist/assets/wishlist.js:226-262 | the panel ends with no card, for any data and action |
| Panel.WishlistUI.SearchWishlist | extensions/wishlist/assets/wishlist.js:213-224 | throws iff there is no list or the filter throws, leaving the cards; otherwise the panel is emptied |
| Panel.WishlistUI.RemoveItem | extensions/wishlist/assets/wishlist.js:176-183 | throws iff there is no list or it holds a nullish item; otherwise the list loses the items with that id, the panel is emptied, and the id's last segment is handed on |
| Panel.WishlistUI.OnSearchInput | extensions/wishlist/assets/wishlist.js:133-137 | the input restarts the search debounce with the field's value |
| Panel.WishlistUI.SearchTimerTick | extensions/wishlist/assets/wishlist.js:133-135 | a due search runs `searchWishlist`: it throws iff no list is stored or the filter meets an object without `product`, and the filter throws only for a non-empty query (a query of spaces still filters); a throw leaves the cards as they were and a search that does not throw empties them; when no search is due the cards are untouched |
| Manager.MergeOptions | extensions/wishlist/assets/wishlist.js:284 | the keys of either map; an override wins, a default stays otherwise |
| Manager.DefaultsAllOn | extensions/wishlist/assets/wishlist.js:288-292 | without overrides toaster, guestWishList and variantChange are all on |
| Manager.AnyMatch | extensions/wishlist/assets/wishlist.js:505-507 | true iff some entry matches the key on variant id (or on handle) |
| Manager.IsProductInWishlist | extensions/wishlist/assets/wishlist.js:407-411 | true iff an entry has that variant id |
| Manager.ChosenActionToggles | extensions/wishlist/assets/wishlist.js:421 | "add" is chosen iff the id is absent, and adding lists it; "remove" iff present, and removing unlists it |
| Manager.AddedIconIsFlagged | extensions/wishlist/assets/wishlist.js:499-510 | after a guest add, the icon keyed by that variant id is flagged |
| Manager.NewItems | extensions/wishlist/assets/wishlist.js:351-358 | the order-preserving subsequence of guest items whose (variant id, shop) pair matches no stored item, each kept as often as it occurs; all of them iff none matches, none iff all match |
| Manager.NewItemsIdempotent | extensions/wishlist/assets/wishlist.js:351-358 | filtering twice equals filtering once |
| Manager.NothingNewAfterMerge | extensions/wishlist/assets/wishlist.js:351-362 | once the new items are stored, none of the guest items is new |
| Manager.SuffixKeptMeans | extensions/wishlist/assets/wishlist.js:455-458 | an item survives the removal filter iff its id is a string whose last segment is non-empty and differs from the removed id |
| Manager.GlobalIdMatchesSuffix | extensions/wishlist/assets/wishlist.js:456-457 | the item `gid://shopify/ProductVariant/<n>` is dropped when `n` is removed |
| Manager.EntriesAsItems | extensions/wishlist/assets/wishlist.js:333 | each guest entry appears in the panel as an item with no id and no product |
| Manager.BulkForm | extensions/wishlist/assets/wishlist.js:371-376 | the bulk post has customerId, shop, `data` (the payload) and `_action` = "bulkCreate" |
| Manager.WishlistManager.constructor | extensions/wishlist/assets/wishlist.js:268-285 | customer and shop default to `null`; a logged-in store exists iff there is a customer; the options are merged over the defaults |
| Manager.WishlistManager.UpdateUI | extensions/wishlist/assets/wishlist.js:499-510 | every icon's flag says whether the current list matches it on the selected key; the attributes are unchanged |
| Manager.WishlistManager.UpdateWishlistUI | extensions/wishlist/assets/wishlist.js:447-461 | throws iff the panel has no list, or on a removal it holds a nullish item or the id is not a string while the list is non-empty; otherwise the panel is emptied |
| Manager.WishlistManager.HandleWishlistAction | extensions/wishlist/assets/wishlist.js:419-439 | "remove" iff the flag says listed; the guest store changes by `AddEntry` or `WithoutVariant` and saves to the slot only on success, or the logged-in store changes only on an ok reply; the logged-in store's product details are never touched; the change is announced iff it succeeded and the panel update did not throw; the panel's list is not touched; the icons are refreshed in every case, keeping their ids and handles |
| Manager.WishlistManager.Click | extensions/wishlist/assets/wishlist.js:389-404 | redirects iff guest wishlists are off; otherwise the shared debounce is restarted with the icon's id, handle and its membership at click time |
| Manager.WishlistManager.ActionTick | extensions/wishlist/assets/wishlist.js:414-416 | the pending action runs iff due, changing the stores as `HandleWishlistAction` does for the arguments of the last click, emptying the cards iff it succeeded and the panel update did not throw, and refreshing the icons with their ids and handles kept; when nothing fires, stores, slot, panel and icons are unchanged |
| Manager.WishlistManager.PanelRemove | extensions/wishlist/assets/wishlist.js:176-183 | when the panel removal does not throw, the last segment of the card's id is removed from the store straight away, as `HandleWishlistAction` removes; the panel keeps the items without that id and no cards, and the icons are refreshed with their ids and handles kept; when the panel removal throws, the stores, the panel and the icons are unchanged |
| Manager.WishlistManager.VariantChange | extensions/wishlist/assets/wishlist.js:477-491 | with the listener on and a form in the section, the section's icon takes the non-empty variant id and the icons are refreshed; otherwise nothing changes |
| Manager.WishlistManager.SyncGuestDataWithDB | extensions/wishlist/assets/wishlist.js:340-369 | the logged-in store holds the fetched list; no guest items: the fetched details are shown; otherwise exactly the guest items absent from the fetched list are posted, only when there are some, and the guest store is cleared only when that post succeeded; on any failure it is untouched; when shown, the panel holds one card per fetched item reading its id, and a failed render leaves the cards before the first nullish item (none when the fetch failed); the icons are refreshed when shown or merged, keeping their ids and handles, and unchanged otherwise |
| Manager.WishlistManager.Init | extensions/wishlist/assets/wishlist.js:329-337 | logged-in: the sync runs, with the state `SyncGuestDataWithDB` states; guest: the persisted guest list is rendered, one `"undefined"` card per entry (entries have no `id`), the stores are unchanged and the icons refreshed, keeping their ids and handles |
| Service.CustomerRows | app/services/wishlist.js:49 | exactly the customer's rows of the shop, in table order and with their multiplicity |
| Service.Count | app/services/wishlist.js:184-197 | the number of the customer's rows: 0 iff the table holds none of theirs, the table's size iff all rows are theirs |
| Service.CountAppendOwned | app/services/wishlist.js:184-191 | adding the customer's rows raises the count by their number |
| Service.AsIds | app/services/wishlist.js:82 | the elements as ids iff every element is a string |
| Service.Lookup | app/services/wishlist.js:201-231 | the node stored under the variant's encoded global id, or none when there is no such key |
| Service.LookupAll | app/services/wishlist.js:234-266 | one lookup per id, in order |
| Service.NewIds | app/services/wishlist.js:87-90 | the input ids, in order, that the customer has not stored, a repeated new id kept as often as it occurs; none iff all are stored |
| Service.NewRows | app/services/wishlist.js:93-97 | one row per new id with the call's customer and shop |
| Service.Insert | app/services/wishlist.js:99-117 | the table gains exactly the new ids' rows; a catalogue that is down gives the 500 error with the rows kept, otherwise their number, their lookups and the new count |
| Service.BulkUpdate | app/services/wishlist.js:62-124 | 400 on a string that fails to parse or a value that is not an array; an array with a non-string element fails with nothing created; otherwise the table gains one row of the customer per new id, in input order, "No new items to add" iff there is none, and an addition reports their number, their lookups and the new count |
| Service.BulkUpdateIdempotent | app/services/wishlist.js:76-119 | repeating a bulk update that added rows gives "No new items to add" and creates nothing |
| Service.SearchCondition | app/services/wishlist.js:137-146 | always shop and customer; a title clause with the lower-cased query exactly when the query is not empty |
| Service.EmptyQuerySelectsCustomer | app/services/wishlist.js:140-145 | with an empty query every row of the customer matches |
| Service.SearchIgnoresQueryCase | app/services/wishlist.js:142-143 | the match does not depend on the query's case |
| Service.MatchingItems | app/services/wishlist.js:149-158 | exactly the rows meeting the condition, in table order and with their multiplicity |
| Service.GetSearchResults | app/services/wishlist.js:135-182 | throws iff the catalogue is down and some row matches; "found" carries the matching rows with one lookup each; "no match" carries an empty `data` |
| Service.GetCustomerWishlistedProducts | app/services/wishlist.js:45-59 | 400 iff customer or shop is missing; otherwise the customer's rows, one lookup per row, and a count equal to their number |
| Service.TitleOrDefault | app/services/wishlist.js:17 | the product title when there is a non-empty one, else "Unknown Product" |
| Service.CreateWishlist | app/services/wishlist.js:13-28 | nothing stored when the lookup throws; otherwise one row with the handle and the looked-up or default title, and the count raised by one |
| Service.DeleteWishlist | app/services/wishlist.js:31-42 | removes exactly the matching rows, keeping the others with their multiplicity (the handle only filters when given), even when the lookup throws |
| Service.FetchProductData | app/services/wishlist.js:126-133 | the lookup, or `undefined` when it throws |
| Route.Classify | app/routes/api.wishlist.js:52-97 | "Missing action" without an action; "Invalid action" for an unknown one; a known action that is rejected gets that action's message; a dispatched call is the action named in the form, made only when that action's required fields are present, with its arguments taken from those fields; a removal passes the handle only when the form has one |
| Route.DispatchIffRequired | app/routes/api.wishlist.js:56-91 | a known action is dispatched iff every field it requires is present |
| Route.EmptySearchRejected | app/routes/api.wishlist.js:88-90 | a search with an empty query is rejected |
| Route.Perform | app/routes/api.wishlist.js:56-93 | HTTP 500 iff the call is a search that throws, 200 otherwise |
| Route.Act | app/routes/api.wishlist.js:36-102 | 400 iff the request is rejected, with its message and no change; 500 iff the body cannot be read or a search throws |
| Route.Loader | app/routes/api.wishlist.js:12-34 | 400 iff `customer` or `shop` is missing; otherwise 200, and the service's own 400 is never reached |
| Interop.UpdateFormMissesAction | app/routes/api.wishlist.js:47-54 | every `UpdateForm`, which `SendWishlistUpdate` posts for each add and remove, is rejected with "Missing action" |
| Interop.BulkFormMissesAction | extensions/wishlist/assets/wishlist.js:371-376 | the script's bulk form is rejected with "Missing action" |
| Interop.RenamedBulkFormMissesData | app/routes/api.wishlist.js:73-76 | with the action field renamed, the bulk form is still rejected for lack of `variantData` |
| Interop.EntryPayloadFailsBulkUpdate | extensions/wishlist/assets/wishlist.js:375 | an array of entry objects makes the bulk update fail, creating nothing |
| Interop.LoaderReplyHasNoData | extensions/wishlist/assets/wishlist.js:56 | no loader reply has the `data` field the script reads |
| Interop.CreateReplyHasNoData | extensions/wishlist/assets/wishlist.js:92-94 | no add reply has `data`, so the script appends an empty object |

## Left out

- The DOM is abstracted:
  - Cards are their `data-variant-id` texts. Icons are records holding two attributes and a flag.
  - Card markup, images, dialog show and close, and selectors are left out.
  - A missing product container (which makes `renderProductCards` and `updateProductCards`
    return early) is left out.
- Toaster display and timing, `#triggerEvent` and `console` output are left out.
  `HandleWishlistAction` returns `announced` where the event and the toaster would fire.
- `#redirectToLogin` becomes the `redirected` result of `Click`.
- Session storage holds the list as it was last saved. The JSON round trip is taken as
  identity, and a corrupt slot, which would make `JSON.parse` throw, is left out.
- `fetch`, `FormData` and the response JSON become `Reply` and form maps. The bulk payload
  text is the `stringify` parameter, and `JSON.parse` the `parse` parameter.
- Overlapping requests are left out: the awaits of several actions interleaving is concurrency.
- The search debounce fires with the value given at the last input. In the code it reads
  the field at fire time, which is the same value as long as only input events change the
  field.
- Case folding covers the ASCII letters only. Prisma's case-insensitive matching is
  modelled as lower-casing.
- The white space `trim` removes is the ASCII set (tab, line feed, vertical tab, form feed,
  carriage return, space), U+00A0 and U+FEFF. The other Unicode spaces and line terminators
  that JavaScript also trims (U+1680, U+2000 to U+200A, U+2028, U+2029, U+202F, U+205F,
  U+3000) are not in the set.
- `updatePageCount` (called by `getSearchResults` only for `action === 'view'`, which the
  route never passes) belongs to the dashboard service and is left out.
- Table failures are left out, that is, Prisma errors other than the invalid `in` list.
  Only catalogue failures are modelled. The catalogue is keyed by encoded id and ignores
  `shop`. A GraphQL reply without `nodes` is left out.
- Service.Row: the table's other columns (ids, timestamps) and the exact JSON body values
  are left out. A reply is its status, `message` and field names.
- Form data is text. Service arguments are strings, because every caller passes route form
  fields. The `method` value echoed in the "Missing action" body is not modelled.
