# Order service — a Dafny model

This project models the order service of a food-delivery web application.
The service stores customer orders and the food items on them. It lists, counts
and totals them, and it runs the checkout: an order is placed, the customer pays
with an external payment provider, and the provider's redirect is verified.
Verification either records the payment or deletes the order with its items.

The model is functional. One immutable store value `Store.Db` holds:

- the orders;
- the order items;
- the next fresh id.

`Store.Valid` says that ids are distinct and all below the next fresh id. Every
repository operation is a pure function from a store to a result and, for
writes, a new store. Each handler of the controller is one such function. The
effects of the database, payment provider and user service become parameters
(`OrderController.Services`).

Modules:

- `Basics`: results, options, errors and ids.
- `Seqs`: filters, counts and sums over sequences.
- `Sorting`: a stable descending sort.
- `Pagination`: the `skip`/`limit`/`pages` window.
- `Ids`: the text form of an id and the cast back.
- `OrderItemModel`: the item schema and its validity.
- `OrderModel`: the order record and field updates.
- `Store`: the store itself.
- `OrderItemRepository`: the item repository.
- `OrderRepository`: the order repository.
- `Checkout`: line items and redirect URLs.
- `OrderController`: the handlers.

Conventions:

- Ids are natural numbers, printed in decimal without leading zeros. The cast
  from request text accepts any non-empty run of digits, so a zero-padded text
  is another spelling of the same id, as letter case is for hexadecimal object
  ids. Text that is not a run of digits fails the cast.
- An item refers to its order by the printed text of the order's id. Item
  queries by order match that text verbatim, with no cast.
- Prices, quantities and amounts are `real`.
- Dates and timestamps are integers.
- A submitted item may carry its own `createdAt` and `updatedAt`. Insertion fills only the missing ones, with the insertion time. Saving a single new item also sets its `updatedAt` to its `createdAt`.

Placement, as the handler is written:

- an empty item list is accepted;
- a failure after the order is saved leaves the order in the store, and, once
  they were inserted, its items as well;
- a failed cart-clearing call makes the whole placement fail.

## Model

| member | source | states |
|---|---|---|
| OrderItemModel.MissingFields | models/orderItemModel.js:5-24 | each of the five fields is reported missing exactly when it is absent; the three string fields, the order reference among them, are also missing when empty |
| OrderItemModel.ValidIffComplete | models/orderItemModel.js:5-24 | an item is valid if and only if all five required fields are present and the three string fields are non-empty |
| OrderItemModel.ValidityIgnoresAmounts | models/orderItemModel.js:13-20 | validity is presence only: any price and quantity, negative or fractional, keep a valid item valid |
| OrderItemModel.Materialize | models/orderItemModel.js:3-29 | a bulk-inserted item carries exactly the submitted fields and has no `itemId`; each timestamp keeps a submitted time and is the insertion time when none was submitted |
| OrderItemRepository.CreateMany | repositories/orderItemRepository.js:15-21 | all or nothing: the insertion fails exactly when some item is invalid; otherwise there is one new item per input, in input order, with the submitted fields, no `itemId`, each submitted timestamp kept and each missing one set to the insertion time, and fresh ids that are distinct from each other and from all stored ids; orders are untouched and the store stays valid |
| OrderItemRepository.Create | repositories/orderItemRepository.js:5-12 | a single item is stored exactly when it is valid, under a fresh id, with the submitted fields and no `itemId`; a submitted creation time is kept, a missing one is the save time, and the update time equals the creation time; nothing else changes |
| OrderItemRepository.FindById | repositories/orderItemRepository.js:24-30 | yields the stored item with that id, and nothing exactly when no item has it |
| OrderItemRepository.FindByOrderId | repositories/orderItemRepository.js:33-39 | the result holds exactly the stored items whose order reference is that text, each as often as it is stored, newest first |
| OrderItemRepository.FindByRestaurantId | repositories/orderItemRepository.js:42-48 | the result holds exactly the stored items of that restaurant, each as often as it is stored, newest first |
| OrderItemRepository.Listing | repositories/orderItemRepository.js:56-58 | the listing holds exactly the stored items the filter matches, each as often as it is stored, newest first |
| OrderItemRepository.FindAll | repositories/orderItemRepository.js:51-73 | a page before the first fails; otherwise the page is the run of the matching items, newest first, that starts `(page-1)*limit` entries in and has exactly the length that leaves it (at most `limit`, none past the last page); `total` counts every matching item whatever the window, the page number comes back unchanged, `pages` is the ceiling of total over limit |
| OrderItemRepository.ApplyItemPatch | repositories/orderItemRepository.js:76-99 | each patched field takes the new value and every other field keeps its value; id and creation time never change; the update time becomes now |
| OrderItemRepository.UpdateById | repositories/orderItemRepository.js:76-86 | an update that would blank a required string field fails; otherwise only the item with that id changes; an unknown id yields nothing and changes nothing |
| OrderItemRepository.UpdateByOrderId | repositories/orderItemRepository.js:89-99 | an invalid update fails; otherwise exactly the items whose order reference is that text are patched, all others stay as they were, and the matched count is the number of such items |
| OrderItemRepository.DeleteById | repositories/orderItemRepository.js:102-108 | removes exactly the item with that id; an unknown id yields nothing and changes nothing; the store stays valid |
| OrderItemRepository.DeleteByOrderId | repositories/orderItemRepository.js:111-117 | afterwards no item's order reference is that text; every other item keeps its multiplicity; the deleted count is the number of items that carried that reference |
| OrderItemRepository.GetTotalQuantityByItemId | repositories/orderItemRepository.js:120-130 | the sum of quantities over the items carrying that `itemId`, and 0 when none does |
| OrderItemRepository.QuantityByItemIdOfInserted | repositories/orderItemRepository.js:120-130 | items created through the schema carry no `itemId`, so after a bulk insertion into such a store every quantity total is 0 |
| OrderItemRepository.GetRevenueByRestaurant | repositories/orderItemRepository.js:133-153 | revenue is the sum of price times quantity and the item total is the sum of quantities, over that restaurant's items created within the optional bounds; with no match both are 0 |
| OrderItemRepository.RevenueByRestaurantAdd | repositories/orderItemRepository.js:135-140 | the bounds are inclusive and an omitted bound is open: one more item raises both sums by its own takings and quantity exactly when its creation time is within the bounds, and otherwise leaves them alone |
| OrderModel.ApplyPatch | repositories/orderRepository.js:118-128 | each field named in the update takes the new value; every other field, and the id, user, amount, address and date, keep theirs; the empty update changes nothing |
| OrderRepository.CategoryOf | repositories/orderRepository.js:84-115 | an order is pending, completed or cancelled exactly when it matches the pending, completed or cancelled filter; being one value, the three filters are pairwise disjoint and every order matches one |
| OrderRepository.ViewsPartition | repositories/orderRepository.js:84-115 | the pending, completed and cancelled listings together count every order exactly once |
| OrderRepository.Create | repositories/orderRepository.js:6-13 | the new order is unpaid, not cancelled, "In Process", dated now, has no items and a fresh id; it is appended and nothing else changes |
| OrderRepository.FindById | repositories/orderRepository.js:16-22 | yields the order with that id, and nothing exactly when there is none |
| OrderRepository.Listing | repositories/orderRepository.js:56-58 | the listing holds exactly the stored orders the filter matches, each as often as it is stored, newest first |
| OrderRepository.FindAll | repositories/orderRepository.js:51-73 | a page before the first fails; otherwise the page is the run of the matching orders, newest first, that starts `(page-1)*limit` entries in and has exactly the length that leaves it (at most `limit`, none past the last page), each stored and matching; `total` counts every match whatever the window, the page number comes back unchanged, `pages` is the ceiling of total over limit |
| OrderRepository.FindByUserId | repositories/orderRepository.js:25-48 | the same page of that user's orders, newest first, with the window, `total` (the user's order count), page and `pages` as in the listing |
| OrderRepository.FindByStatus | repositories/orderRepository.js:76-82 | the same page of the orders with exactly that status, newest first, with window, total, page and pages |
| OrderRepository.FindPending | repositories/orderRepository.js:85-94 | the same page of the pending orders, newest first, with window, total, page and pages |
| OrderRepository.FindCompleted | repositories/orderRepository.js:97-106 | the same page of the completed orders, newest first, with window, total, page and pages |
| OrderRepository.FindCancelled | repositories/orderRepository.js:109-115 | the same page of the cancelled orders, newest first, with window, total, page and pages |
| OrderRepository.FindByDateRange | repositories/orderRepository.js:168-180 | both bounds are inclusive: the same page of the orders dated within them, newest first, with window, total, page and pages |
| OrderRepository.UpdateById | repositories/orderRepository.js:118-128 | only the order with that id changes, by the update; items are untouched; an unknown id yields nothing and changes nothing |
| OrderRepository.UpdateStatus | repositories/orderRepository.js:131-137 | only the status of the order with that id changes; an unknown id changes nothing |
| OrderRepository.MarkAsPaid | repositories/orderRepository.js:140-146 | only the payment flag of the order with that id changes, to paid; an unknown id changes nothing |
| OrderRepository.CancelOrder | repositories/orderRepository.js:149-155 | only the cancelled flag of the order with that id changes, to cancelled; an unknown id changes nothing |
| OrderRepository.DeleteById | repositories/orderRepository.js:158-165 | the items whose order reference is exactly the given text go first, and every other item keeps its multiplicity; then text that fails the cast fails the call with the orders untouched; text that casts removes the order with that id, returned exactly when it existed, and every other order remains |
| OrderRepository.DeleteByOtherSpelling | repositories/orderRepository.js:158-165 | a zero-padded spelling of a stored order's id removes the order but keeps the items that refer to it by its printed id |
| OrderRepository.CountByUserId | repositories/orderRepository.js:275-281 | the number of orders of that user: at most the number of orders, and 0 exactly when the user has none |
| OrderRepository.GetUserOrderHistory | repositories/orderRepository.js:183-211 | a page before the first fails; otherwise the page of the user's orders newest first with window, total, page and pages as in the listing; completed, cancelled and pending are the numbers of the user's orders in each view, and they add up to the user's total |
| OrderRepository.UserViewCount | repositories/orderRepository.js:194-197 | counting a view restricted to one user is the same as counting the view within that user's orders |
| OrderRepository.RevenueStage | repositories/orderRepository.js:216 | the caller's filter is spread last: its payment and cancelled keys override the paid-and-not-cancelled defaults, and its other keys are added |
| OrderRepository.GetTotalRevenue | repositories/orderRepository.js:214-233 | the total is the sum of amounts and the count is the number of orders matching the merged filter; with no match both are 0 |
| OrderRepository.RevenueOfPaidOrders | repositories/orderRepository.js:214-233 | over orders that are all paid and not cancelled, the revenue is the sum of all amounts and the count is the number of orders |
| OrderRepository.RevenueAdd | repositories/orderRepository.js:214-233 | adding an order raises revenue by its amount and the count by one exactly when it is paid and not cancelled, and otherwise changes neither |
| OrderRepository.GetRevenueByDateRange | repositories/orderRepository.js:236-248 | the revenue and count of paid, uncancelled orders dated within the inclusive bounds |
| OrderRepository.GetStatistics | repositories/orderRepository.js:251-272 | total is the number of orders; completed, cancelled, pending and "In Process" are the numbers of orders each filter matches; completed plus cancelled plus pending equals total; revenue is that of the paid, uncancelled orders |
| OrderRepository.StatisticsMatchListings | repositories/orderRepository.js:251-257 | each count equals the total that the listing with the same filter reports, and the overall total that of the unfiltered listing |
| OrderRepository.MatchAll | repositories/orderRepository.js:51-62 | the empty filter matches every order, in store order |
| Pagination.PageCount | repositories/orderRepository.js:43 | the page count is the ceiling of total over limit: the pages hold every order, the last page is not empty, and there are no pages exactly when nothing matches |
| Pagination.Paginate | repositories/orderRepository.js:27-43 | a page below 1 gives a negative skip and fails; otherwise the page counts the whole listing, echoes the page number, and holds exactly the entries from `(page-1)*limit` on, as many as remain up to `limit`, in listing order; it is empty past the last page |
| Pagination.PageOfIndex | repositories/orderRepository.js:27-34 | every entry of a listing appears, at the position within the page that its index determines, on the page its index determines, and that page is not past the last |
| Pagination.PageSorted | repositories/orderRepository.js:56-60 | every page of a descending listing is itself descending |
| Pagination.PageMembers | repositories/orderRepository.js:56-60 | a page holds only entries of the listing it was cut from |
| Pagination.SortedListing | repositories/orderRepository.js:56-60 | every page of a filtered, sorted listing is sorted and holds only stored entries that match the filter |
| Sorting.SortDesc | repositories/orderRepository.js:27 | the sorted listing is a permutation of the input and is descending by the key |
| Ids.IdText | controllers/orderController.js:17 | the text an id is written as, in the items' `orderId` and in the redirect URLs, is a run of digits without leading zeros; `Ids.ParseIdText` and `Ids.ParseIdExact` show it is the one such text that casts back to that id |
| Ids.ParseId | repositories/orderRepository.js:16-22 | the cast accepts exactly the non-empty runs of digits; an accepted text is the printed text of its id or starts with a padding zero |
| Ids.ParseIdText | controllers/orderController.js:69-70 | the id written into a redirect URL reads back as the same id |
| Ids.ParseIdExact | repositories/orderRepository.js:16-22 | among the texts the cast accepts as an id, the printed text is the only one without leading zeros |
| Ids.LeadingZero | repositories/orderRepository.js:16-22 | a leading zero does not change the id a text casts to |
| Ids.ZeroPadded | repositories/orderRepository.js:158-161 | every id has a second spelling that casts to it and differs from its printed text |
| Checkout.CheckoutLines | controllers/orderController.js:42-62 | one line per submitted item, in input order, in rupees with the item's name, its price times 100 in paise and its quantity, followed by exactly one delivery line of 10000 paise and quantity 1 |
| Checkout.CheckoutTotal | controllers/orderController.js:42-62 | the session charges 100 times the item subtotal, plus the delivery fee |
| Checkout.RedirectRoundTrip | controllers/orderController.js:69-70 | the flag and the order id written into a redirect URL are read back unchanged by the verification page |
| Checkout.SuccessAndCancelUrls | controllers/orderController.js:69-70 | the success URL carries `success=true`, the cancel URL carries `success=false`, both carry the order id, and they differ |
| OrderController.StampOrderId | controllers/orderController.js:16-18 | every submitted item, in order, now refers to the new order by its id's text, and nothing else about it changes |
| OrderController.SessionRequest | controllers/orderController.js:42-71 | the session is requested for the created customer, in payment mode, with required billing address, the order's success and cancel URLs, and one checkout line per submitted item carrying its name, its price in paise (100 × price), its quantity and the currency `inr`, followed by the delivery line |
| OrderController.CreateAndInsert | controllers/orderController.js:14-19 | with valid items: the order is appended unpaid, uncancelled, "In Process" and without items, then one item per submitted item is appended, each referring to the new order by its id's text, carrying the submitted fields and no `itemId`, keeping each submitted timestamp and stamping each missing one with the placement time |
| OrderController.LinkItems | controllers/orderController.js:21-22 | writing the new item ids onto the new order changes that order's item list and nothing else |
| OrderController.StoreAndLink | controllers/orderController.js:14-22 | with valid items: one new order and one new item per submitted item, each referring to the order and carrying its fields, submitted timestamps and no `itemId`; the order lists the new ids in input order; earlier orders and items are untouched |
| OrderController.PlaceOrder | controllers/orderController.js:10-78 | an unsaved order changes nothing; a saved order stays whatever fails later; invalid items leave it without items and fail; items stored but not linked stay, one per submitted item, and the placement fails; when every step succeeds the answer is the session's URL, and a checkout session is requested only after the order is saved, its items linked and the cart cleared, and a created session implies every step succeeded |
| OrderController.JoinIsTrue | controllers/orderController.js:83 | an array's comma-joined text is "true" exactly when the array has one element whose text is "true" |
| OrderController.ElementIsTrue | controllers/orderController.js:83 | inside an array, only the string "true", the boolean true, or an array that is itself loosely "true" has the text "true" |
| OrderController.LooselyTrueValues | controllers/orderController.js:83 | the values loosely equal to "true" are the string itself and the one-element arrays of such an element; the boolean true is not |
| OrderController.VerifyOrder | controllers/orderController.js:80-93 | a flag whose comparison throws fails and changes nothing; a flag loosely equal to "true" marks exactly the order the text casts to paid and keeps everything, or fails and changes nothing when the text is no id; any other flag deletes the items that refer to the order by exactly that text, then fails if the text is no id, and otherwise deletes the order too, keeping everything else |
| OrderController.GetOrderById | controllers/orderController.js:105-115 | a missing order is "not found" rather than an error; only a text that is no id fails; a found order is stored and its id is the one the text casts to |
| OrderController.UpdateStatusHandler | controllers/orderController.js:128-135 | only the status of the order whose id the text casts to changes; success is reported also when no order has that id; text that is no id fails and changes nothing |
| OrderController.CancelOrderHandler | controllers/orderController.js:137-144 | writes an object whose cancelled key is true into the status; an unparsable id changes nothing and fails; otherwise exactly the order with that id gets the new status and every other field and order is untouched, so no order's payment flag, cancelled flag or view changes |
| OrderController.CancelKeepsStatistics | controllers/orderController.js:137-144 | after the cancel handler the cancelled, completed, pending and total counts are what they were |
| OrderController.UserOrders | controllers/orderController.js:96-103 | always succeeds with the first page of ten of the user's orders, newest first, with the window, the user's total count and the page count |
| OrderController.ListAllOrders | controllers/orderController.js:118-125 | always succeeds with the first ten of all orders, newest first, the window of the full sorted listing, and the number of all orders |
| OrderController.GetOrderByRestaurantId | controllers/orderController.js:146-153 | exactly the restaurant's stored items, each as often as it is stored, newest first |
| OrderController.PayPlaced | controllers/orderController.js:83-85 | verifying a freshly placed order as paid marks exactly that order paid and changes nothing else |
| OrderController.PaySuccessRedirect | controllers/orderController.js:69-85 | after a successful placement, following the success URL marks the new order paid and keeps every other order and item |
| OrderController.UndoPlacementOrders | controllers/orderController.js:86-88 | deleting a freshly placed order by its printed id leaves exactly the orders stored before placement |
| OrderController.UndoPlacementItems | controllers/orderController.js:86-88 | deleting a freshly placed order by its printed id leaves the items stored before placement, except those that already referred to that text |
| OrderController.AbandonPlaced | controllers/orderController.js:86-88 | verifying a freshly placed order as unpaid deletes it: it is then not found and has no items, the earlier orders remain, and so do the earlier items that did not already refer to its id's text |
| OrderController.AbandonCancelRedirect | controllers/orderController.js:69-88 | after a successful placement, following the cancel URL deletes the order and its items: the order is then not found, it has no items, and the earlier orders remain |

## Left out

- The payment provider and the user service. Creating the Stripe customer and the checkout session, and the cart-clearing PUT, are foreign network calls. They are parameters of `OrderController.Services`: whether each succeeds, the customer id, and the session URL as a function of the request.
- Saving and linking the order. The database may fail to save the order or to link the items, so these outcomes are also parameters in `Services`.
- The order schema. `models/orderModel.js` is not part of this model. The order record is inferred from the repository's uses of it. A new order defaulting to unpaid, not cancelled, "In Process" and dated now is an assumption. Whether the schema would cast or reject the object the cancel handler writes into the status is unknown, so the value is stored as given.
- Type casting by the database driver. The only casting modelled is of ids. Values in filters and updates are already typed, and the order id in a request body is taken to be a string.
- Ids. MongoDB ObjectIds are 24 hexadecimal digits, and the cast also accepts upper-case digits and 12-character strings. Ids here are natural numbers in decimal, and leading zeros stand in for the other spellings.
- `populate("items")` in the user listing. The model returns the orders with their item ids.
- Custom `sort` options. The listings sort newest first, and equal keys keep store order. The database's tie order is unspecified.
- A `limit` of 0 or below. MongoDB treats 0 as "no limit", which makes `pages` infinite. All paginated operations require `limit >= 1`.
- Dates. Dates and timestamps are integers; parsing date strings is not modelled.
- Falsy bounds. The source treats a bound of 0, the epoch, as absent in the restaurant revenue bounds, because it tests truthiness. The model takes an absent bound only from `None`.
- Floating point. Prices, quantities and amounts are `real`, so `price * 100` and the sums are exact. In the verification flag a JSON number is modelled only as an integer below 10^21 in magnitude, printed as plain decimal digits. Other numbers print as "1e-7", "1e+21" or "Infinity" and the like. Every number's text begins with a digit, '-' or 'I' and never with 't', so no number spells "true".
- Responses. Messages, logging, environment configuration and the frontend address other than the fixed URL are not modelled. A response is a small datatype with the outcome.
- Concurrency. Each handler is one atomic step.
- Express routing, authentication middleware and the server are not part of this model.
- OrderItemModel.Materialize: a submitted `_id` is not modelled. Every new item gets a fresh id from the store. A submitted timestamp is taken as an already-cast time; a value that does not cast to a date, which fails validation, is not modelled.
- OrderItemRepository.CreateMany: a submitted `_id` is not modelled, so the insertion is all or nothing. The source's ordered bulk insert stores the items before a duplicate `_id` and then fails; that partial insert is not modelled.
- OrderItemRepository.Create: a submitted `_id` is not modelled. The saved item always gets a fresh id, and a duplicate-key failure is not modelled.
- OrderController.CreateAndInsert: a submitted `_id` on an item is not modelled, so its items always get fresh ids and no partial insert happens (see CreateMany).
- OrderController.StoreAndLink: inherits the gap of CreateAndInsert: a submitted `_id` on an item is not modelled.
- OrderController.PlaceOrder: a submitted `_id` on an item is not modelled. The partial insert that a duplicate `_id` causes before placement fails is not modelled either.
- OrderItemRepository.UpdateByOrderId: reports the number of matched items. It does not report the number of modified items, which depends on whether values actually changed.
