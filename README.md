# evently_app — a Dafny model of the server-side data rules

evently_app is an event-management web application. Organizers create,
update and delete events. Visitors browse and search them by title and by
category, and buy tickets through a hosted payment page. Two webhooks keep the
database in step with the outside world: the payment provider reports each
completed checkout, which becomes an order, and the identity provider reports
each user creation, update and deletion.

This project models the part of the application that decides what is stored
and what is shown:

- **The four collections** (users, categories, events, orders). They are
  sequences in natural order. Their required fields, defaults and unique
  indexes are in `models.dfy`.
- **The failure convention.** Every action except `checkoutOrder` catches
  what it throws and hands it to `handleError`; `checkoutOrder` rethrows the
  error unchanged. The model is in `errors.dfy`.
- **The read actions** (`listings.dfy`). These are the three paged event
  listings, with title search, category lookup by name and related events.
  They also include the single lookups, the category list, the
  orders-of-an-event join with buyer search, and the paged orders of a buyer.
  The sorting and paging arithmetic they share is in `paging.dfy`.
- **The write actions** (`db.dfy`). These are pure functions from the store
  before to the outcome and the store after. The class `Actions.Store`
  (`store.dfy`) holds the collections as fields, updates them in place, and is
  proved to agree with those functions.
- **The checkout session request** (`checkout.dfy`).
- **The payment webhook** (`stripe_webhook.dfy`). It includes the integer
  conversion of cents to the decimal text the handler stores.
- **The identity webhook** (`clerk_webhook.dfy`), with its gates and dispatch.
- **The two URL query helpers** (`url_query.dfy`).
- **The pager's arithmetic** (`pagination.dfy`).

Each write action's function comes with lemmas. They state that the unique
indexes are preserved, that a created or updated event, an updated user and a
created category are then found, and that a refused action changes nothing. One lemma states that a checkout
session is recorded at most once. Another states that deleting a user created
through the schema leaves every event and order as it was.

## Model

| member | source | states |
|---|---|---|
| Errors.HandleError | lib/utils.ts:111-115 | a thrown string becomes the message verbatim; any Error built with `new Error(m)` serializes to "{}", never to `m`; only driver errors serialize to driver-defined JSON |
| Errors.ActionMessagesAreLost | lib/utils.ts:114 | every action message (e.g. "Event not found") reaches the caller as the same "{}" |
| Errors.HandleErrorIntended | lib/utils.ts:113-114 | the corrected handler: an Error's own message reaches the caller; strings and driver errors as before |
| Errors.IntendedMessagesAreDistinct | lib/utils.ts:113-114 | with the corrected handler, failures with different messages are distinguishable by the caller |
| Text.ContainsIffOccurs | lib/actions/event.actions.ts:64 | the substring test behind `$regex` holds exactly when the pattern occurs at some position |
| Text.MatchIgnoresCase | lib/actions/event.actions.ts:64 | the `'i'` option: matching is unchanged by lower-casing either side |
| Text.EmptyPatternMatchesAll | lib/actions/order.actions.ts:126 | an empty search text matches every buyer name |
| Text.ParseIntToString | components/shared/Pagination.tsx:29 | a page number written with `toString()` reads back as the same number |
| Models.NewEvent | lib/actions/event.actions.ts:44 | a created event takes every field of the form (title, description, location, image, price, url, start/end defaulting to now), `category := categoryId`, `organizer := userId`, createdAt now, and isFree true only when the form says so |
| Models.PatchedEvent | lib/actions/event.actions.ts:129-133 | an update replaces every field of the form (title, description, location, image, start/end, price, isFree, url) and sets `category := categoryId`, keeping id, createdAt and organizer |
| Models.NewOrder | lib/actions/order.actions.ts:60-64 | a created order has `event := eventId`, `buyer := buyerId`, the session id, and createdAt defaulting to now |
| Models.NewUser | lib/actions/user.actions.ts:20 | a created user carries every field of the record as given (clerk id, email, username, names, photo), with no event or order lists |
| Models.PatchedUser | lib/actions/user.actions.ts:55 | a profile update sets names, username and photo from the patch and keeps the email, ids and lists |
| Paging.CeilDiv | lib/actions/event.actions.ts:93 | `Math.ceil(n / d)`: the least whole number whose multiple of `d` covers `n`; zero exactly for no matches |
| Paging.PageSlice | lib/actions/event.actions.ts:81-82 | `.skip((page-1)*limit).limit(limit)`: at most `limit` items, the ones after the skipped prefix, empty past the end |
| Paging.SortDescSpec | lib/actions/event.actions.ts:80 | sorting by createdAt descending yields a sequence ordered newest first that is a permutation of its input |
| Paging.Paginate | lib/actions/event.actions.ts:75-93 | a page before the first fails with a negative skip; otherwise the page is exactly the slice of the sorted matches after `(page - 1) * limit`, of length min(limit, remaining), with `totalPages = ceil(count/limit)` |
| Paging.PageItemsAreMatches | lib/actions/event.actions.ts:79 | every item on a page is one of the matches |
| Paging.PageIsSorted | lib/actions/event.actions.ts:80 | every page is ordered newest first |
| Paging.PageBeyondLastIsEmpty | lib/actions/event.actions.ts:81-82 | a page past the last is empty and not an error |
| Paging.PagesUpToLastAreNonEmpty | lib/actions/event.actions.ts:93 | every page from 1 to totalPages holds at least one item |
| Paging.EveryItemHasItsPage | lib/actions/event.actions.ts:75 | the k-th sorted match appears on page `k/limit + 1` at position `k % limit` |
| Listings.PopulateOrganizer | lib/actions/event.actions.ts:22 | the organizer is populated exactly when it resolves to a stored user, as that user's id, first name and last name |
| Listings.PopulateCategory | lib/actions/event.actions.ts:23 | the category is populated exactly when it resolves to a stored category |
| Listings.PopulateEvent | lib/actions/event.actions.ts:19-24 | a populated event keeps the event and carries its organizer (id and names) and its category, each as it resolves |
| Listings.EventListingSpec | lib/actions/event.actions.ts:79-93 | a listing fails only for page < 1; its events all satisfy the condition, are newest first, are the page of the sorted matches, and totalPages counts all matches; each shown event has its organizer (id, first and last name) and category populated, each null when its id resolves to nothing |
| Listings.EventListingBeyondLastPage | lib/actions/event.actions.ts:81-82 | a listing page past the last is empty with the full page count |
| Listings.CategoryIdByName | lib/actions/event.actions.ts:27-29 | the first category in natural order whose name contains the text case-insensitively; none for an empty name or no match |
| Listings.GetAllEventsSpec | lib/actions/event.actions.ts:58-94 | `getAllEvents` refuses a page below 1; otherwise it shows only events whose title matches the query and, when a category matched, of that category; at most `limit` (default 6); newest first; exactly the page-th slice of the sorted matches; totalPages = ceil(matches/limit); each shown event has its organizer (id, first and last name) and category populated, each null when its id resolves to nothing |
| Listings.UnknownCategoryIsIgnored | lib/actions/event.actions.ts:67-71 | a category name no category matches filters nothing: the result equals having no category |
| Listings.GetEventsByUserSpec | lib/actions/event.actions.ts:143-158 | only events organized by the user, at most `limit` (default 6), newest first, exactly the page-th slice of the sorted matches, with the page count; a page below 1 is refused; each shown event has its organizer (id, first and last name) and category populated, each null when its id resolves to nothing |
| Listings.GetRelatedEventsSpec | lib/actions/event.actions.ts:165-185 | only events of the category, never the event itself, at most `limit` (default 3), page defaulting to 1, newest first, exactly the page-th slice of the sorted matches, totalPages = ceil(matches/limit); each shown event has its organizer (id, first and last name) and category populated, each null when its id resolves to nothing |
| Listings.GetEventById | lib/actions/event.actions.ts:102-112 | the first stored event with that id, with its organizer and category populated; "Event not found" exactly when none has it |
| Listings.GetUserById | lib/actions/user.actions.ts:31-41 | the stored user with that id; "User not found" exactly when none has it |
| Listings.GetAllCategories | lib/actions/category.actions.ts:28-37 | every stored category, unfiltered; never fails |
| Listings.JoinOrder | lib/actions/order.actions.ts:87-122 | an order yields a row exactly when its buyer and event both resolve (inner join); the row is id, totalAmount, createdAt, event title, event id and "first last" |
| Listings.JoinedRowsIff | lib/actions/order.actions.ts:87-108 | the joined rows are exactly the rows of the orders that join |
| Listings.GetOrdersByEvent | lib/actions/order.actions.ts:81 | "Event ID is required" exactly when the event id is empty |
| Listings.GetOrdersByEventSpec | lib/actions/order.actions.ts:87-129 | a row is returned exactly when its order joins, its event is the one asked for and the buyer's name contains the search text case-insensitively |
| Listings.EmptySearchKeepsAll | lib/actions/order.actions.ts:126 | an empty search returns every joined row of the event |
| Listings.PopulateOrder | lib/actions/order.actions.ts:157-165 | an order's event is populated exactly when it has one that resolves to a stored event, and then that event's organizer is populated with its id and names |
| Listings.PopulateOrders | lib/actions/order.actions.ts:157-165 | every order of the page is populated, in the page's order |
| Listings.GetOrdersByUserSpec | lib/actions/order.actions.ts:140-171 | only orders bought by the user, at most `limit` (default 3), newest first, exactly the page-th slice of the sorted matches, totalPages = ceil(count/limit); each shown order has its event populated, and within it the event's organizer |
| Db.CreateEvent | lib/actions/event.actions.ts:34-50 | "Organizer not found" exactly when the user is unknown; a missing title or image fails validation; otherwise exactly the event built from the form (`Models.NewEvent`) is appended and returned; a failure changes nothing |
| Db.CreateEventKeepsValid | lib/actions/event.actions.ts:44 | creating an event with a fresh id keeps every unique index |
| Db.CreatedEventIsFound | lib/actions/event.actions.ts:44 | after a create, `getEventById` returns the new event |
| Db.ReplaceEvent | lib/actions/event.actions.ts:129-130 | the document with the id is replaced and every other is unchanged |
| Db.UpdateEventRefusal | lib/actions/event.actions.ts:124-127 | the update is allowed exactly when the event exists and its organizer is the user; an absent event or another organizer gives "Unauthorized or event not found"; an event with no organizer gives the runtime's TypeError |
| Db.UpdateEvent | lib/actions/event.actions.ts:120-136 | an allowed update stores and returns the patched event; a refused one fails with exactly the refusal `UpdateEventRefusal` gives ("Unauthorized or event not found", or the runtime's TypeError for an event without organizer) and changes nothing |
| Db.UpdateEventKeepsValid | lib/actions/event.actions.ts:129-133 | an update keeps every unique index |
| Db.UpdatedEventIsFound | lib/actions/event.actions.ts:132 | after an update the event found by id is the returned document (`new: true`) |
| Db.OnlyOrganizerUpdates | lib/actions/event.actions.ts:125-127 | anyone but the organizer is refused and the store is unchanged |
| Db.DeleteEvent | lib/actions/event.actions.ts:192-201 | after a delete no event has the id, every other event is kept and no event is added, and nothing else in the store changes; reports whether one was removed |
| Db.DeleteEventKeepsValid | lib/actions/event.actions.ts:198 | a delete keeps every unique index |
| Db.DeletedEventIsGone | lib/actions/event.actions.ts:198 | a deleted event is "Event not found" afterwards and every other event is kept |
| Db.DeleteAbsentEventIsNoOp | lib/actions/event.actions.ts:198-201 | deleting an id that is not stored changes nothing |
| Db.CreateOrder | lib/actions/order.actions.ts:54-67 | an empty session id fails validation, a stored one is a duplicate key, otherwise exactly the new order is appended; a failure changes nothing |
| Db.CreateOrderKeepsValid | lib/database/models/order.model.ts:37-41 | creating an order with a fresh id keeps ids and session ids unique |
| Db.SecondOrderForSessionFails | lib/database/models/order.model.ts:41 | a second order for the same session is a duplicate key and the count stays one above the start |
| Db.CreateUser | lib/actions/user.actions.ts:14-23 | a missing field fails validation, a taken clerk id, email or username is a duplicate key, otherwise exactly the new user is appended |
| Db.CreateUserKeepsValid | lib/database/models/user.model.ts:8-10 | creating a user with a fresh id keeps the four unique keys |
| Db.UserByClerkId | lib/actions/user.actions.ts:73 | the index of the first user with the clerk id (no earlier user has it), or none exactly when no user has it |
| Db.UpdateUser | lib/actions/user.actions.ts:49-59 | "User update failed" exactly when no user has the clerk id; a username another user holds gives DuplicateKey; it succeeds exactly when neither happens, and then that user is replaced by the patched one and returned; a failure changes nothing |
| Db.UpdateUserKeepsValid | lib/database/models/user.model.ts:10 | a profile update keeps the four unique keys |
| Db.UpdatedUserIsFound | lib/actions/user.actions.ts:55-59 | after an update the user found by clerk id is the returned one, with the old email |
| Db.DetachOrganizer | lib/actions/user.actions.ts:82-85 | on the listed events whose organizer is the user, the organizer is removed; all others unchanged |
| Db.UnsetBuyer | lib/actions/user.actions.ts:88 | on the listed orders the buyer is unset; all others unchanged |
| Db.DeleteUser | lib/actions/user.actions.ts:67-95 | "User not found" exactly when no user has the clerk id; otherwise detaches, unsets, removes that user and keeps every other user, and returns the removed user |
| Db.DeleteUserKeepsValid | lib/actions/user.actions.ts:80-92 | deleting a user keeps every unique index |
| Db.DeletedUserIsGone | lib/actions/user.actions.ts:92 | afterwards no user has that clerk id |
| Db.DeletingCreatedUserKeepsReferences | lib/actions/user.actions.ts:80-89 | for a user created through the schema the cleanup changes no event and no order |
| Db.CreateCategory | lib/actions/category.actions.ts:11-20 | an empty name fails validation, a taken name is a duplicate key, otherwise exactly the new category is appended |
| Db.CreateCategoryKeepsValid | lib/database/models/category.model.ts:13 | creating a category keeps ids and names unique |
| Db.CreatedCategoryIsListed | lib/database/models/category.model.ts:13 | a created category is listed, and creating the same name again is a duplicate key |
| Actions.Store.CreateEvent | lib/actions/event.actions.ts:34-50 | performs `Db.CreateEvent` in place and keeps the indexes |
| Actions.Store.UpdateEvent | lib/actions/event.actions.ts:120-136 | performs `Db.UpdateEvent` in place and keeps the indexes |
| Actions.Store.DeleteEvent | lib/actions/event.actions.ts:192-201 | performs `Db.DeleteEvent` in place and keeps the indexes |
| Actions.Store.CreateOrder | lib/actions/order.actions.ts:54-67 | performs `Db.CreateOrder` in place and keeps the indexes |
| Actions.Store.CreateUser | lib/actions/user.actions.ts:14-23 | performs `Db.CreateUser` in place and keeps the indexes |
| Actions.Store.UpdateUser | lib/actions/user.actions.ts:49-59 | performs `Db.UpdateUser` in place and keeps the indexes |
| Actions.Store.DeleteUser | lib/actions/user.actions.ts:67-95 | performs `Db.DeleteUser` in place (events, then orders, then the user) and keeps the indexes |
| Actions.Store.CreateCategory | lib/actions/category.actions.ts:11-20 | performs `Db.CreateCategory` in place and keeps the indexes |
| Checkout.UnitAmount | lib/actions/order.actions.ts:19 | 0 for a free event; otherwise the price in cents |
| Checkout.CheckoutSession | lib/actions/order.actions.ts:23-43 | one US-dollar line item of quantity 1 named after the event; metadata exactly {eventId, buyerId}; payment mode; profile and home return URLs |
| Checkout.FreeSessionIgnoresPrice | lib/actions/order.actions.ts:19 | a free event's session is the same whatever its price and charges 0 |
| StripeWebhook.CentsToDecimal | app/api/webhook/stripe/route.ts:37 | the decimal text of cents/100: a point only when the cents are not zero, no trailing zero, no leading zero before the whole part |
| StripeWebhook.CentsToDecimalRoundTrip | app/api/webhook/stripe/route.ts:37 | the text reads back as the same number of cents |
| StripeWebhook.CentsToDecimalInjective | app/api/webhook/stripe/route.ts:37 | different amounts give different texts |
| StripeWebhook.MetadataField | app/api/webhook/stripe/route.ts:35-36 | a missing metadata map or key gives "" |
| StripeWebhook.TotalAmount | app/api/webhook/stripe/route.ts:37 | "0" for an absent or zero amount; otherwise exactly the decimal text of amount/100, which reads back as the amount |
| StripeWebhook.OrderFromSession | app/api/webhook/stripe/route.ts:33-39 | the order's stripeId is the session id, event and buyer come from the metadata, createdAt is now |
| StripeWebhook.CheckoutMetadataReachesOrder | app/api/webhook/stripe/route.ts:35-36 | a session built by checkout yields an order for the same event and buyer |
| StripeWebhook.HandleStripe | app/api/webhook/stripe/route.ts:17-49 | a failed signature check answers "Webhook error" and changes nothing; other event types answer empty and change nothing; a completed session makes exactly one `createOrder` call whose result is the response |
| StripeWebhook.CompletedSessionAddsOneOrder | app/api/webhook/stripe/route.ts:42-45 | a completed session appends exactly the returned order, carrying the session id, or changes nothing when refused |
| StripeWebhook.ReplayedSessionRecordedOnce | app/api/webhook/stripe/route.ts:42 | the same session delivered twice is recorded once |
| StripeWebhook.Handle | app/api/webhook/stripe/route.ts:6-50 | performs `HandleStripe` on the shared store |
| ClerkWebhook.CreatedUser | app/api/webhook/clerk/route.ts:64-71 | clerkId is the event id, email the first address, photo the image URL |
| ClerkWebhook.UpdatedUser | app/api/webhook/clerk/route.ts:95-100 | the patch carries names, username and photo only |
| ClerkWebhook.Decide | app/api/webhook/clerk/route.ts:12-122 | a missing secret throws; missing headers then a failed check give 400; then user.created (with an email), user.updated and user.deleted dispatch to exactly those user actions with those records; a created user without email throws; other types are ignored |
| ClerkWebhook.SecretCheckedFirst | app/api/webhook/clerk/route.ts:14-16 | a missing secret throws whatever the headers and body |
| ClerkWebhook.HeadersCheckedBeforeBody | app/api/webhook/clerk/route.ts:25-29 | missing headers give 400 whatever the body |
| ClerkWebhook.HandleClerk | app/api/webhook/clerk/route.ts:58-122 | the response for each decision (the throw, the 400 text, an empty 200, or the user action's user or rejection); the metadata is pushed exactly when `createUser` returned a user, with the new id; gates and ignored types change nothing; create, update and delete apply the user actions |
| ClerkWebhook.Respond | app/api/webhook/clerk/route.ts:86-118 | a user action's returned user becomes the `{message: 'OK', user}` reply carrying that user; a rejection makes the handler reject with the action's cause |
| ClerkWebhook.CreatedUserMatchesEvent | app/api/webhook/clerk/route.ts:59-86 | a created user is appended with the event's id and first email |
| ClerkWebhook.EmailNeverUpdated | app/api/webhook/clerk/route.ts:90-103 | a user.updated event never changes a stored user's email |
| ClerkWebhook.Handle | app/api/webhook/clerk/route.ts:9-123 | performs `HandleClerk` on the shared store |
| UrlQuery.StringifyUrl | lib/utils.ts:81-87 | the URL carries exactly the non-null parameters, with their values |
| UrlQuery.WithParam | lib/utils.ts:78 | the key maps to the value; every other key is present as before with its value |
| UrlQuery.WithoutKeys | lib/utils.ts:96-98 | exactly the keys not listed remain, with their values |
| UrlQuery.FormUrlQuery | lib/utils.ts:73-88 | the URL of the current path whose query is the parsed one with `key` set to `value` |
| UrlQuery.RemoveKeysFromQuery | lib/utils.ts:91-108 | the URL of the current path whose query is the parsed one with every listed key deleted; no listed key remains |
| UrlQuery.WithParamIdempotent | lib/utils.ts:78 | setting the same key and value twice equals setting it once, down to the URL |
| UrlQuery.WithParamKeepsOthers | lib/utils.ts:75-78 | every other parameter of the URL comes through unchanged |
| UrlQuery.RemovingAbsentKeysIsHarmless | lib/utils.ts:96-98 | removing keys that are not present changes nothing |
| UrlQuery.WithoutKeysIdempotent | lib/utils.ts:96-98 | removing the same keys twice equals removing them once |
| UrlQuery.NullValuesOmitted | lib/utils.ts:86 | a null-valued parameter never appears in the URL |
| Pagination.TargetPage | components/shared/Pagination.tsx:23 | Next targets page + 1, Previous page − 1 |
| Pagination.ParamName | components/shared/Pagination.tsx:28 | the parameter name, "page" when absent or empty |
| Pagination.Disabled | components/shared/Pagination.tsx:44-54 | Previous is disabled exactly when its target is before page 1, Next exactly when its target is past totalPages |
| Pagination.ClickUrlSpec | components/shared/Pagination.tsx:26-30 | the clicked URL carries the target page under the parameter name, reading back as that page, and keeps every other parameter |
| Pagination.EnabledTargetInRange | components/shared/Pagination.tsx:44-54 | from a page in 1..totalPages an enabled button targets a page in 1..totalPages |
| Pagination.SinglePageDisablesBoth | components/shared/Pagination.tsx:44-54 | with a single page both buttons are disabled |

## Left out

- Database connection, `revalidatePath`, `redirect`, the payment provider's session creation, the identity provider's metadata update (an output of the handler here), and `console` logging. These are I/O.
- Signature verification of both webhooks: the handlers receive the verified event, or `None` when the check threw.
- Reading the request body, `window.location.pathname` (a parameter), and query-string parsing and stringifying. A parsed query is a map, so repeated keys and array values are not modelled.
- Document ids are opaque strings supplied as fresh parameters. `ObjectId` casting and its errors (for example, `new ObjectId(eventId)` on malformed input in `getOrdersByEvent`) are not modelled.
- The clock: `now` is a parameter.
- `Promise.all` in `deleteUser`: its two updates touch disjoint collections, so they are applied in sequence.
- JSON round-trips of returned documents (`JSON.parse(JSON.stringify(...))`) are treated as the identity.
- `Number(order.price) * 100` is floating point. It is a parameter (`priceCents`) of `Checkout.UnitAmount`.
- StripeWebhook.CentsToDecimal: assumes `(n / 100).toString()` prints the exact decimal. That holds only while adjacent doubles near n / 100 are less than 0.01 apart, that is for amounts below 100·2^46 (about 7.0e15) cents. The model does not bound `n`: for n = 7036874417766401 the runtime prints "70368744177664.02", where the model gives "70368744177664.01".
- Paging.SortDesc: events or orders with equal `createdAt` are ordered here by natural order (a stable sort). The store promises no order among equal sort keys, not even across the separate `skip` queries for different pages. So the exact-slice conjuncts of `Paging.Paginate`, `Listings.EventListingSpec`, `Listings.GetAllEventsSpec`, `Listings.GetEventsByUserSpec`, `Listings.GetRelatedEventsSpec` and `Listings.GetOrdersByUserSpec`, and an item landing on exactly one page, hold in the source only when the `createdAt` values are distinct.
- Text.MatchIgnoresCase: `$regex` is modelled as a plain substring test with ASCII case folding. Regex metacharacters in the search text and non-ASCII case folding are not modelled.
- Null fields of identity-provider events (names, username, image) arrive as "". A `required` field rejects both null and "", so creation behaves the same. The event id is always present.
- ClerkWebhook.UpdatedUser: a null first or last name in a user.updated event is stored as null by the source, and the model stores "". The difference shows in `getOrdersByEvent`: `$concat` with a null name gives null, so `$match` drops that order even for an empty search, while the model keeps the row with buyer " last" (`Listings.EmptySearchKeepsAll`).
- `Number(page)` on non-numeric text (NaN) is not modelled: page numbers are integers.
- A limit of 0 (which the store reads as "no limit") is excluded by `limit > 0`; every caller passes a positive limit or the default.
- Db.DetachOrganizer: the store would reject `$pull` on the scalar `organizer` field as an update error; the model instead clears the organizer when it equals the user. The lists `events` and `orders` that `deleteUser` reads are fields the user schema does not declare. For schema-created users they are empty, so no event matches and the rejection cannot arise (`Db.DeletingCreatedUserKeepsReferences`).
- Update actions run no required-field validation, so `Db.Valid` states only the unique indexes and ids, not non-empty required fields.
- Formatting helpers (`formatDateTime`, `formatPrice`, `cn`, `convertFileToUrl`) and all UI components are not part of this model.

## Findings

| source | as written | input that shows it | evidently intended | confidence | as-written member | corrected member |
|---|---|---|---|---|---|---|
| lib/utils.ts:114 | `JSON.stringify(error)` on an `Error` gives "{}", because `message` is not an enumerable own property; every action message thrown with `new Error(...)` reaches the caller as "{}" | `getEventById` with an id no event has: the caller receives an Error whose message is "{}", not "Event not found" | the caller receives the thrown Error's own message, as the comment on line 113 says | high (not executed) | Errors.ActionMessagesAreLost | Errors.HandleErrorIntended |
