# Order and entitlement engine of a course and digital-product shop

This project models the part of the Laravel shop that sells courses and
digital products, and decides who may use them. The model covers:

- **Product keys.** The `product_keys` table holds activation keys for digital
  products. `markAsUsed` claims a key for a user and `release` frees it. Both
  recompute the product's cached `inventory_count`. The four query scopes
  select keys by column.
- **The session cart.** It is a PHP array keyed `type_id`. The checkout page
  totals it, and `addToCart`, `removeFromCart`, `buyNow` and `cancel` change it.
- **Building orders.** `OrderService::createOrder` builds a pending order from a
  cart and `createDirectPurchaseOrder` builds one from a single item. Each
  order gets a generated `CM-YYYYMMDD-XXXXXX` number.
- **Completing orders.** `completeOrder` marks the order completed. It grants a
  `user_courses` row per course item and draws the first unused key per
  product item. An administrator's `verifyPayment` / `rejectPayment` of a bank
  transfer leads to the same completion or to a failed order.
- **Subscriptions.** Verifying a subscription sets its period and grants every
  course and product of the plan. `handleSubscriptionProduct` hands a
  subscriber one key per product. Cancelling frees the user's subscription
  keys and ends the subscription at once.
- **Access decisions.** The `CheckSubscription` middleware and the ownership
  test of the customer's digital-product page.

## How the model is built

The database tables are objects whose fields the operations update in place:

- `Keys.KeyPool`: the key rows and every product's cached count.
- `UserCourses.UserCourseTable`: the `user_courses` rows.
- `Orders.OrderTable`: orders, order items, the next id and the coupons'
  usage counters.
- `Checkout.Session`: cart, coupon and pending order id.
- `Subscriptions.UserSubscription`: one subscription row.

Each method's `ensures` ties the new state to a pure function of the old state
(for example `AfterMarkAsUsed`, `GrantItems`, `GrantCourses`,
`AfterHandleSubscriptionProduct`). The properties the code promises are lemmas
about those functions.

An Eloquent `where(...)` chain on `product_keys` is a `Where` record of
optional column tests. `first()` is the index of the first matching row.

Other modelling choices:

- Money is in integer minor units.
- Time is an integer number of seconds. Carbon's `addMonth` / `addYear` are
  function parameters.
- `now()`, `md5(uniqid())` and `Str::random` are parameters.
- PHP's `empty()` test on an optional string is `Basics.IsBlank`: absent, `""`
  or `"0"`.
- Eloquent mass assignment keeps only `$fillable` attributes, so the model drops
  what the source passes but never stores:
  - `payment_verified_by`, `payment_verified_at` and `admin_notes` on orders
    and subscriptions;
  - `subscription_id` on `user_courses`.

Where the code and its documentation disagree, the model follows the code:

- `createOrder` does not reject an empty cart.
- `completeOrder` has no guard against completing an order twice.
  `OrderService.CompleteOrderTwiceDrawsTwoKeys` shows a buyer receiving two
  keys for one purchased product.
- Cancelling a subscription ends it immediately. The confirmation message
  promises access until the end of the billing period, and
  `Subscriptions.CanceledHasNoGracePeriod` shows there is none.
- `isExpiringSoon` also holds for a subscription that ended up to a week ago
  (`Subscriptions.ExpiringSoonWindow`).

## Model

| member | source | states |
|---|---|---|
| Keys.Select | app/Models/ProductKey.php:130-167 | a where-chain returns exactly the rows matching every column test, and no more rows than the table |
| Keys.First | app/Services/OrderService.php:253-261 | `first()` returns a matching row with no matching row before it, or none when no row matches |
| Keys.IsAvailable | app/Models/ProductKey.php:109-112 | a key is available iff it is not used; `ScopesSelect` ties it to the `available` scope |
| Keys.IsSubscriptionAssigned | app/Models/ProductKey.php:119-122 | the key's subscription flag |
| Keys.ScopesSelect | app/Models/ProductKey.php:109-167 | `available` selects exactly the keys `isAvailable` accepts (`!is_used`); `used`, `subscriptionAssigned` and `purchased` (used and not subscription-assigned) select exactly their keys |
| Keys.AvailablePlusUsed | app/Models/ProductKey.php:130-145 | every key is in exactly one of the `available` and `used` scopes |
| Keys.AfterMarkAsUsed | app/Models/ProductKey.php:51-73 | on a used key: returns false and changes nothing; on an unused key: returns true and sets is_used, used_by, used_at and the subscription flag, keeping id, product and value; no other row and no other product's count changes |
| Keys.AfterRelease | app/Models/ProductKey.php:81-102 | on an unused key: returns false and changes nothing; on a used key: returns true and clears is_used, used_by, used_at and the flag; no other row or count changes |
| Keys.CountUpdate | app/Models/ProductKey.php:65-69 | changing one row changes any count by exactly that row's contribution before and after |
| Keys.MarkAsUsedCounts | app/Models/ProductKey.php:58-69 | a successful markAsUsed lowers its product's unused-key count by one, leaves other products' counts, and stores the recount, so an accurate `inventory_count` stays accurate |
| Keys.ReleaseCounts | app/Models/ProductKey.php:87-99 | a successful release raises its product's unused-key count by one, leaves the rest, and keeps `inventory_count` accurate |
| Keys.ReleaseUndoesMarkAsUsed | app/Models/ProductKey.php:51-102 | releasing a key just marked used restores the whole pool, key row and counts |
| Keys.MarkAsUsedClaims | app/Models/ProductKey.php:51-73 | markAsUsed only turns an unused key into one held by the caller's user and keeps every row consistent |
| Keys.OnlyClaimedByTrans | app/Services/OrderService.php:245-262 | successive claims for one user compose into one claim |
| Keys.ClaimsKeepHoldsAndSoldOut | app/Services/PaymentReceiptService.php:190-229 | claims never take a key away from its holder and never free a key |
| Keys.HoldsIffFirst | app/Services/PaymentReceiptService.php:193-196 | the `digital_product_id` + `used_by` lookup finds a row iff the user holds a key of the product |
| Keys.SoldOutIffFirst | app/Services/PaymentReceiptService.php:198-202 | the unused-key lookup finds nothing iff every key of the product is used |
| Keys.ClearWhere | app/Http/Controllers/User/SubscriptionController.php:57-64 | a bulk update clears exactly the matching rows and leaves every other row as it was |
| Keys.ClearSubscriptionKeysCounts | app/Http/Controllers/User/SubscriptionController.php:57-64 | clearing a user's subscription keys raises each product's unused count by exactly the keys the user held of it through the subscription |
| Keys.KeyPool.constructor | app/Models/ProductKey.php:12-25 | a pool holds the given rows and counts |
| Keys.KeyPool.MarkAsUsed | app/Models/ProductKey.php:51-73 | the in-place update and return value are those of `AfterMarkAsUsed`; rows stay consistent |
| Keys.KeyPool.Release | app/Models/ProductKey.php:81-102 | the in-place update and return value are those of `AfterRelease`; rows stay consistent |
| Keys.KeyPool.ClearAllWhere | app/Http/Controllers/User/SubscriptionController.php:57-64 | the row-by-row loop leaves the table equal to `ClearWhere`, with the cached counts untouched |
| Carts.CartKeyInjective | app/Http/Controllers/CheckoutController.php:104 | the `type_id` key names exactly one item type and id |
| Carts.CartKey | app/Http/Controllers/CheckoutController.php:104 | the `type_id` session key of an item; `CartKeyInjective` proves two items share a key only when type and id agree |
| Carts.KeysOf | app/Http/Controllers/CheckoutController.php:106 | the cart's keys are exactly the keys of its lines |
| Carts.Lookup | app/Http/Controllers/CheckoutController.php:106-107 | `$cart[$key]` is absent iff the key is not in the cart, and when present it is the item of a line with that key |
| Carts.LookupFirstMatch | app/Http/Controllers/CheckoutController.php:106-107 | the entry found is the item of the first line carrying the key |
| Carts.Put | app/Http/Controllers/CheckoutController.php:146-154 | `$cart[$key] = $item` overwrites the line in place when the key is present and appends a line otherwise; `PutLookup` and `PutKeys` state its effect |
| Carts.Remove | app/Http/Controllers/CheckoutController.php:167-169 | `unset($cart[$key])` drops the line with that key; `RemoveLookup` and `RemoveKeys` state its effect |
| Carts.PutLookup | app/Http/Controllers/CheckoutController.php:146-154 | after `$cart[$key] = $item` the key maps to the item and every other key maps as before |
| Carts.PutKeys | app/Http/Controllers/CheckoutController.php:146-154 | the assignment adds exactly its key, keeps keys unique, and appends a new key at the end |
| Carts.RemoveLookup | app/Http/Controllers/CheckoutController.php:167-169 | `unset` leaves every other key's entry as it was |
| Carts.RemoveKeys | app/Http/Controllers/CheckoutController.php:167-169 | `unset` removes exactly its key, keeps keys unique, and is the identity on an absent key |
| Carts.Subtotal | app/Http/Controllers/CheckoutController.php:48-51 | the sum of price × quantity over the lines; the lemmas below state its algebra |
| Carts.SubtotalAppend | app/Http/Controllers/CheckoutController.php:48-51 | the subtotal of two carts joined is the sum of their subtotals |
| Carts.SubtotalCons | app/Http/Controllers/CheckoutController.php:48-51 | a leading line adds its price × quantity |
| Carts.SubtotalRemove | app/Http/Controllers/CheckoutController.php:163-177 | removing a present key lowers the subtotal by that line's price × quantity; an absent key changes nothing |
| Carts.SubtotalNonNegative | app/Http/Controllers/CheckoutController.php:48-51 | with non-negative prices and quantities the subtotal is non-negative |
| Catalog.Find | app/Services/OrderService.php:118-144 | `Course::find` / `DigitalProduct::find` returns a record iff the item exists, and that record is the course's title and price or the product's name and price |
| Checkout.Session.constructor | app/Http/Controllers/CheckoutController.php:38-41 | a session holds a cart with unique keys, a coupon and a pending order id |
| Checkout.Index | app/Http/Controllers/CheckoutController.php:38-85 | an empty cart redirects; otherwise the looped subtotal is the sum of price × quantity, total = subtotal − discount, the discount and code come from the session coupon (0 and none without one), and the single-item flag holds iff the cart has one line |
| Checkout.PageTotalIsOrderFinal | app/Http/Controllers/CheckoutController.php:54-71 | the page's total equals the final amount of the order created from the same cart and coupon, as long as the stored discount is what the coupon service computes now |
| Checkout.AfterAddToCart | app/Http/Controllers/CheckoutController.php:90-158 | addToCart's checks in the source's order (already in cart, missing item, then owned for a course, or out of stock then owned for a product) and the line it puts; `AddToCartEffect` states the result |
| Checkout.AddToCartEffect | app/Http/Controllers/CheckoutController.php:90-158 | a present key, a missing item, an owned item or an out-of-stock product leaves the cart unchanged; otherwise the only change is one new line at the end with quantity 1 and the catalogue price, the subtotal grows by that price, and other keys look up as before |
| Checkout.AddToCart | app/Http/Controllers/CheckoutController.php:90-158 | the session's new cart and the outcome are those of `AfterAddToCart`; coupon and pending order are untouched |
| Checkout.RemoveFromCartEffect | app/Http/Controllers/CheckoutController.php:163-177 | exactly the given key is removed, other keys look up as before, an absent key leaves the cart unchanged, and the subtotal drops by the removed line |
| Checkout.RemoveFromCart | app/Http/Controllers/CheckoutController.php:163-177 | the new cart is `Remove(old cart, key)` and the result says whether the key was present |
| Checkout.BuyNow | app/Http/Controllers/CheckoutController.php:322-386 | cart and coupon are cleared first; a refused item leaves an empty cart with the reason; on success the cart is exactly the one item at quantity 1 and catalogue price |
| Checkout.BuyNowCartMatchesDirectPurchase | app/Http/Controllers/CheckoutController.php:372-380 | checking out the buy-now cart without a coupon writes the same order and the same single item as `createDirectPurchaseOrder` for that item |
| Checkout.Cancel | app/Http/Controllers/CheckoutController.php:389-410 | with a pending order id: the order and its items are deleted only when it exists and is pending, and the id is always dropped; without one (or with id 0) nothing changes |
| Checkout.CancelRemovesOnlyThatOrder | app/Http/Controllers/CheckoutController.php:396-400 | no item of the cancelled order is left, and every item of another order is kept |
| Orders.GenerateOrderNumber | app/Models/Order.php:34-41 | "CM-", the `Ymd` stamp, "-" and the first six digest characters upper-cased; `OrderNumberShape` states the shape |
| Orders.OrderNumberShape | app/Models/Order.php:34-41 | an order number is 18 characters: "CM-", eight digits that read back as the year, month and day, "-", and six upper-case hex characters |
| Orders.Creating | app/Models/Order.php:147-157 | the creating hook fills in a number iff the order number is blank, and otherwise keeps the order |
| Orders.CreatingKeepsGeneratedNumber | app/Models/Order.php:151-155 | an order created with a generated number keeps it |
| Orders.StatusesExclusive | app/Models/Order.php:99-126 | at most one of isCompleted, isPending, hasFailed, isRefunded holds |
| Orders.ItemsOf | app/Models/Order.php:62-65 | an order's items are exactly the item rows with its id |
| Orders.HasItem | app/Models/Order.php:88-94 | an item of the order with that item id and type exists; `HasItemIff` restates it over the item rows |
| Orders.HasItemIff | app/Models/Order.php:88-94 | hasItem holds iff some item row of the order matches both id and type |
| Orders.ScopeCompleted | app/Models/Order.php:131-134 | the scope selects exactly the completed orders |
| Orders.OrderTable.constructor | app/Models/Order.php:12-30 | an empty table is valid and its auto-increment starts at 1, so every order id is positive |
| Orders.OrderTable.SetStatus | app/Services/PaymentReceiptService.php:82-90 | only that order's status changes |
| Orders.OrderTable.MarkCompleted | app/Services/OrderService.php:237-240 | only that order's status (completed) and payment id change |
| Orders.OrderTable.DeleteWithItems | app/Http/Controllers/CheckoutController.php:396-400 | the order leaves the table and the item rows become `WithoutOrder(items, id)`; the table stays valid |
| Orders.OrderTable.AddItem | app/Services/OrderService.php:201-208 | one item row is appended for an existing order; nothing else changes |
| Orders.OrderTable.IncrementCouponUsage | app/Services/OrderService.php:89-92 | that coupon's usage rises by one and nothing else changes |
| Orders.WithoutOrder | app/Http/Controllers/CheckoutController.php:396-397 | the remaining rows are exactly those of other orders |
| Orders.KeptItemsBelong | app/Http/Controllers/CheckoutController.php:396-397 | after the deletion every remaining item still belongs to a remaining order |
| Orders.DropOrderItems | app/Http/Controllers/CheckoutController.php:396-397 | the loop keeps exactly `WithoutOrder(items, id)` in table order |
| OrderService.CartOrderItems | app/Services/OrderService.php:78-87 | exactly one order item per cart line, copying type, id, name, quantity and price |
| OrderService.CartOrder | app/Services/OrderService.php:65-76 | the order row createOrder writes; `CartOrderAmounts` states its amounts and links |
| OrderService.CartOrderAmounts | app/Services/OrderService.php:44-72 | a cart order is pending without payment id, its total is the cart subtotal, final = total − discount, a blank code gives no discount and no coupon, it links a coupon iff the code validates, the method defaults to "stripe", and a discount within the total keeps the final amount within it |
| OrderService.UsageAfter | app/Services/OrderService.php:89-92 | with no coupon, or a coupon whose id is 0 (false in PHP), the counters are unchanged; otherwise that coupon's counter, created at 0 if missing, rises by one and every other counter is kept |
| OrderService.CartTotal | app/Services/OrderService.php:44-47 | the accumulation loop computes the cart subtotal |
| OrderService.AddCartItems | app/Services/OrderService.php:78-87 | the loop appends exactly `CartOrderItems(cart, id)` to the item table |
| OrderService.InsertOrder | app/Models/Order.php:147-157 | `Order::create` stores the row under a fresh id with its generated number |
| OrderService.CartCoupon | app/Services/OrderService.php:49-62 | the coupon is the validated non-blank code, and the discount is the service's discount for the cart, 0 without a coupon |
| OrderService.CreateOrder | app/Services/OrderService.php:36-101 | the new order is `CartOrder(...)` under a fresh id, its items are `CartOrderItems(cart, id)` appended, and coupon usage becomes `UsageAfter` of the applied coupon |
| OrderService.DirectPurchaseCheck | app/Services/OrderService.php:118-144 | succeeds iff the item exists, is not owned, and (for a product) is in stock, returning its name and price; each refusal reason holds exactly in its case, checked in the source's order |
| OrderService.IsValidForItem | app/Services/OrderService.php:171-177 | a coupon is valid for an item it names, or for any item of a type it names none of |
| OrderService.DirectOrder | app/Services/OrderService.php:188-200 | the order row createDirectPurchaseOrder writes; `DirectOrderAmounts` states its amounts |
| OrderService.DirectOrderAmounts | app/Services/OrderService.php:163-200 | the direct order's total is the item price, final = total − discount, a coupon is linked iff it validates, and one that is not valid for the item gives no discount |
| OrderService.DirectCoupon | app/Services/OrderService.php:163-186 | the coupon is the validated code; the discount is applied only when the coupon is valid for the item |
| OrderService.WriteDirectOrder | app/Services/OrderService.php:188-213 | the order `DirectOrder(...)` and its single item at quantity 1 are written under a fresh id, and usage becomes `UsageAfter` of the applied coupon |
| OrderService.CreateDirectPurchaseOrder | app/Services/OrderService.php:112-222 | a refused item writes nothing and reports its reason; otherwise the direct order and its one item are written |
| OrderService.GrantItem | app/Services/OrderService.php:245-262 | a course item adds its (user, course, order) row unless that row exists; a product item takes its first unused key, or none; a product that no longer exists aborts |
| OrderService.GrantItems | app/Services/OrderService.php:245-262 | the item grants in order, failing as soon as one fails; `GrantItemsEffect` and `GrantItemsNoneStays` state the result |
| OrderService.AfterCompleteOrder | app/Services/OrderService.php:231-277 | completion succeeds iff every item grant succeeds, and then the order alone is marked completed with the payment id |
| OrderService.GrantItemsNoneStays | app/Services/OrderService.php:245-277 | a failure part way through fails the whole completion |
| OrderService.GrantItemsEffect | app/Services/OrderService.php:245-262 | after a successful run every course item has its row and earlier rows are kept; keys only go from unused to the buyer; products, consistency and accurate counts are kept |
| OrderService.GrantOrderItem | app/Services/OrderService.php:246-261 | one iteration's table updates are those of `GrantItem` |
| OrderService.GrantOrderItems | app/Services/OrderService.php:245-262 | the item loop's updates are those of `GrantItems`, stopping at the first failure |
| OrderService.CompleteOrder | app/Services/OrderService.php:231-277 | on success the tables are those of `AfterCompleteOrder`; on failure the transaction rolls back and nothing changes |
| OrderService.SingleItemCompletion | app/Services/OrderService.php:231-262 | completing a one-item order is that item's grant plus the status update |
| OrderService.FirstCompletionDraw | app/Services/OrderService.php:253-261 | concretely, the first grant takes the first of two keys and the count drops to 1 |
| OrderService.SecondCompletionDraw | app/Services/OrderService.php:253-261 | concretely, the grant repeated takes the second key and the count drops to 0 |
| OrderService.FirstCompletion | app/Services/OrderService.php:231-262 | concretely, the first completion marks the order completed and draws the first key |
| OrderService.SecondCompletion | app/Services/OrderService.php:231-262 | concretely, completing the already completed order again succeeds and draws the second key |
| OrderService.HeldKeyCounts | app/Services/OrderService.php:253-261 | concretely, the buyer holds one key after the first draw and two after the second |
| OrderService.CompleteOrderTwiceDrawsTwoKeys | app/Services/OrderService.php:231-240 | completeOrder is not idempotent: completing one order twice hands its buyer both keys of the product and leaves none in stock |
| UserCourses.AfterFirstOrCreate | app/Services/OrderService.php:247-251 | firstOrCreate keeps the rows and adds the row only when no identical row exists |
| UserCourses.AfterCreateIfAbsent | app/Services/PaymentReceiptService.php:167-178 | afterwards the user has the course; a row is added only when the pair had none, so the pair's row count is unchanged or 1 |
| UserCourses.NoRowsFor | app/Services/PaymentReceiptService.php:167-170 | a pair with no row has a row count of 0 |
| UserCourses.HasCourseIffRows | app/Services/PaymentReceiptService.php:167-172 | the `where user, course` lookup finds a row iff the pair's row count is positive |
| UserCourses.CreateIfAbsentOthers | app/Services/PaymentReceiptService.php:172-177 | the grant of one course leaves every other (user, course) pair's rows unchanged |
| UserCourses.UserCourseTable.constructor | app/Models/UserCourse.php:12-17 | a table holds the given rows |
| UserCourses.UserCourseTable.FirstOrCreate | app/Services/OrderService.php:247-251 | the table becomes `AfterFirstOrCreate` |
| UserCourses.UserCourseTable.CreateIfAbsent | app/Services/PaymentReceiptService.php:167-178 | the lookup loop and conditional create leave the table equal to `AfterCreateIfAbsent` |
| PaymentReceipts.VerifiedAsWritten | app/Services/PaymentReceiptService.php:80-96 | as written, the order is left completed and the call fails with ArgumentCountError |
| PaymentReceipts.VerifyPaymentAsWritten | app/Services/PaymentReceiptService.php:80-96 | as written, only the order's status changes and an error is returned; no course or key is granted |
| PaymentReceipts.AfterVerifyPayment | app/Services/PaymentReceiptService.php:80-96 | corrected verifyPayment: the status update, then completeOrder with the order's payment id; `VerifiedOrderIsGranted` states the result |
| PaymentReceipts.VerifyPayment | app/Services/PaymentReceiptService.php:80-96 | corrected: the status becomes completed and completeOrder runs with the order's own payment id; on success the tables are those of `AfterVerifyPayment`, on failure only the status is saved |
| PaymentReceipts.VerifiedOrderIsGranted | app/Services/PaymentReceiptService.php:82-90 | a verified order is completed with its payment id kept, every course in it is granted to its buyer, keys only move to the buyer, and accurate counts stay accurate |
| PaymentReceipts.VerifyPaymentAsWrittenGrantsNothing | app/Services/PaymentReceiptService.php:90 | on a one-course order, as written the order is completed while the buyer has no access; the corrected version grants the course |
| PaymentReceipts.RejectPayment | app/Services/PaymentReceiptService.php:242-255 | only the order's status changes, to failed |
| PaymentReceipts.GrantCourses | app/Services/PaymentReceiptService.php:165-181 | the course half of the grant, one lookup-or-create per plan course; `GrantCoursesRows` states the result |
| PaymentReceipts.GrantCoursesRows | app/Services/PaymentReceiptService.php:164-181 | afterwards the user has every plan course; a pair gains exactly one row iff it had none; rows are never duplicated; nobody else's rows change |
| PaymentReceipts.GrantProduct | app/Services/PaymentReceiptService.php:190-228 | one plan product: skipped when the user holds a key of it, otherwise its first unused key is marked used with the subscription flag |
| PaymentReceipts.GrantProducts | app/Services/PaymentReceiptService.php:188-231 | `GrantProduct` over the plan's products in order |
| PaymentReceipts.GrantProductStep | app/Services/PaymentReceiptService.php:190-229 | for one product: afterwards the user holds a key or none is left; a user already holding one is skipped; at most one key changes, an unused key of the product, which goes to the user with the subscription flag; accurate counts stay accurate |
| PaymentReceipts.GrantProductsEffect | app/Services/PaymentReceiptService.php:188-231 | over the plan: keys only move to the user and rows stay consistent with accurate counts; the user holds a key of every plan product that has one left; products already held are untouched; each new key is a plan product's and subscription-flagged; no two new keys belong to the same product |
| PaymentReceipts.GrantSubscriptionContentAccess | app/Services/PaymentReceiptService.php:160-232 | the tables become `GrantCourses` and `GrantProducts` of the plan |
| PaymentReceipts.GrantPlanCourses | app/Services/PaymentReceiptService.php:165-181 | the course loop's result is `GrantCourses` |
| PaymentReceipts.GrantPlanProduct | app/Services/PaymentReceiptService.php:190-228 | one product iteration's result is `GrantProduct` |
| PaymentReceipts.GrantPlanProducts | app/Services/PaymentReceiptService.php:188-231 | the product loop's result is `GrantProducts` |
| PaymentReceipts.VerifySubscriptionPayment | app/Services/PaymentReceiptService.php:106-152 | the subscription is activated (completed, active, starts now, ends a year or a month later) and the plan's content is granted |
| PaymentReceipts.RejectSubscriptionPayment | app/Services/PaymentReceiptService.php:265-278 | only the subscription's status changes, to failed |
| PaymentReceipts.ValidateReceiptFile | app/Services/PaymentReceiptService.php:384-398 | accepted iff the size is at most 5·1024·1024 bytes and the MIME type is one of the four; an oversize file is refused for size before the type is looked at |
| PaymentReceipts.GenerateFilename | app/Services/PaymentReceiptService.php:315-322 | type, id, `YmdHis` stamp and random part joined by `_`, then the extension; `FilenameFields` reads it back |
| PaymentReceipts.FilenameFields | app/Services/PaymentReceiptService.php:315-322 | a receipt name reads back into its type, its id in decimal, a 14-digit stamp giving the upload instant, the random part and the extension |
| Subscriptions.UserSubscription.constructor | app/Models/UserSubscription.php:12-31 | a subscription holds the given columns |
| Subscriptions.UserSubscription.Update | app/Services/PaymentReceiptService.php:118-126 | `update([...])` sets the row to the given columns |
| Subscriptions.IsExpired | app/Models/UserSubscription.php:48-51 | an end date is set and already past; `NoEndDateNeverExpires` and `ExpiredStaysExpired` state its behaviour |
| Subscriptions.IsExpiringSoon | app/Models/UserSubscription.php:56-59 | an end date is set and lies at most seven whole days away; `ExpiringSoonWindow` states the window |
| Subscriptions.NoEndDateNeverExpires | app/Models/UserSubscription.php:49-60 | without an end date a subscription is neither expired nor expiring soon |
| Subscriptions.ExpiredStaysExpired | app/Models/UserSubscription.php:49-52 | once expired, a subscription stays expired |
| Subscriptions.ExpiringSoonWindow | app/Models/UserSubscription.php:57-60 | expiring soon holds iff the end date lies less than eight days before or after now |
| Subscriptions.EndsAtFor | app/Services/PaymentReceiptService.php:112-115 | a year on for "yearly", a month on for any other cycle |
| Subscriptions.Activated | app/Services/PaymentReceiptService.php:118-126 | the columns verifySubscriptionPayment writes; `ActivatedPeriod` states them |
| Subscriptions.CanceledAt | app/Http/Controllers/User/SubscriptionController.php:66-70 | the columns cancel writes; `CanceledHasNoGracePeriod` states them |
| Subscriptions.ActivatedPeriod | app/Services/PaymentReceiptService.php:112-126 | an activated subscription is active and completed, starts now, ends a year later when yearly and a month later otherwise, and is not expired at activation |
| Subscriptions.CanceledHasNoGracePeriod | app/Http/Controllers/User/SubscriptionController.php:66-70 | a cancelled subscription is inactive, cancelled, and expired at every later instant |
| SubscriptionManagement.CancelAsWritten | app/Http/Controllers/User/SubscriptionController.php:48-78 | as written: with a subscription that has a Stripe id, the user's subscription keys are cleared while the cached counts stay, and the subscription is cancelled now; otherwise nothing changes |
| SubscriptionManagement.ReleaseTouchesOnlySubscriptionKeys | app/Http/Controllers/User/SubscriptionController.php:57-64 | every key the user holds through a subscription becomes unused with all fields cleared; the user's purchased keys and other users' keys are untouched; none is left |
| SubscriptionManagement.CancelAsWrittenCountsLag | app/Http/Controllers/User/SubscriptionController.php:57-64 | as written, each product's cached count lags its real unused count by exactly the keys released |
| SubscriptionManagement.CancelAsWrittenLeavesStaleCount | app/Http/Controllers/User/SubscriptionController.php:57-64 | concretely, a product shows 0 keys in stock after cancel while 1 is free |
| SubscriptionManagement.Recounted | app/Models/ProductKey.php:65-69 | recomputing every product's count from the table makes all counts accurate |
| SubscriptionManagement.Cancel | app/Http/Controllers/User/SubscriptionController.php:48-78 | corrected: the same release, then every product's count is recomputed |
| SubscriptionManagement.CancelKeepsCountsAccurate | app/Http/Controllers/User/SubscriptionController.php:57-64 | with the recount, cancelling keeps counts accurate and rows consistent, and each product's count rises by the keys released |
| DigitalProducts.PurchasedKeys | app/Http/Controllers/User/DigitalProductController.php:26-29 | the list holds exactly the user's keys that are not subscription-assigned |
| DigitalProducts.AfterHandleSubscriptionProduct | app/Http/Controllers/User/DigitalProductController.php:119-187 | show the user's subscription key of the product if one exists, else take its first unused key, else report none; `HandleSubscriptionProductGrants` states the result |
| DigitalProducts.HandleSubscriptionProduct | app/Http/Controllers/User/DigitalProductController.php:119-187 | the page and the pool update are those of `AfterHandleSubscriptionProduct` |
| DigitalProducts.HandleSubscriptionProductGrants | app/Http/Controllers/User/DigitalProductController.php:127-172 | a shown key is one the user holds through the subscription; an existing one is returned with the pool unchanged; "no keys" leaves the pool unchanged and means the product is sold out; keys only move to the user, and counts stay accurate |
| DigitalProducts.HandleSubscriptionProductTwice | app/Http/Controllers/User/DigitalProductController.php:127-149 | asking again returns the same key and changes nothing |
| DigitalProducts.FirstIsLeastMatch | app/Http/Controllers/User/DigitalProductController.php:127-130 | a matching row with no match before it is the one `first()` returns |
| DigitalProducts.FindKey | app/Http/Controllers/User/DigitalProductController.php:69 | `ProductKey::find` returns a row with that id, or none when no row has it |
| DigitalProducts.AfterShow | app/Http/Controllers/User/DigitalProductController.php:64-95 | the show action's branches on key ownership, access and the subscription flag; `ShowDecision` states the result |
| DigitalProducts.Show | app/Http/Controllers/User/DigitalProductController.php:64-95 | the result and the pool update are those of `AfterShow` |
| DigitalProducts.ShowDecision | app/Http/Controllers/User/DigitalProductController.php:64-95 | denied iff the user neither owns the key with that id nor may access a product with that id; an owned key picks the subscription view iff it is subscription-assigned, and changes nothing |
| Access.CheckSubscription | app/Http/Middleware/CheckSubscription.php:19-69 | login redirect iff logged out; plans redirect iff logged in without an active subscription; a course redirect names the requested course the user may not reach; a product redirect names the requested product the user may not reach, and only once the course check passed |
| Access.CheckSubscriptionPasses | app/Http/Middleware/CheckSubscription.php:19-69 | a request passes iff the user is logged in, has an active subscription, and may reach the course and the product requested; logged out goes to login; without a subscription it goes to the plans whatever was bought; with neither route parameter it passes |
| Access.CourseCheckedFirst | app/Http/Middleware/CheckSubscription.php:39-49 | a refused course redirects to the course even when the product is refused too |
| Access.ProductAccessSurvivesClaims | app/Http/Middleware/CheckSubscription.php:53-65 | a product a subscriber may reach stays reachable after other grants, which only add holders |
| Formats.DecimalRoundTrip | app/Http/Controllers/CheckoutController.php:104 | the decimal form of an id reads back as the id |
| Formats.PaddedRoundTrip | app/Models/Order.php:37-38 | a zero-padded field reads back as its number |
| Formats.YmdRoundTrip | app/Models/Order.php:37-38 | the `Ymd` stamp reads back as the year, month and day |
| Formats.YmdHisRoundTrip | app/Services/PaymentReceiptService.php:318 | the `YmdHis` stamp is 14 digits and reads back as the instant |

## Left out

- The Stripe side is not part of this model: `process`, `handleSuccess`, the
  StripeService, the public SubscriptionController and config/stripe.php.
  The subscriber's cancel takes the Stripe cancellation to succeed; if it
  throws, the source changes nothing, and the model does not cover that path.
- Receipt upload, download and delete, `getBankDetails`, notifications, the
  confirmation e-mail and logging are I/O and are not modelled.
- Database transactions and locking are not modelled. Each operation is one
  sequential step. A failed `completeOrder` rolls back to the state before it.
  A product deleted after the order was placed makes `completeOrder` fail
  (the source calls a method on null, and the open transaction is never
  committed).
- CouponService and ReferralService are not part of this model.
  `validateCoupon` and the discount computation are given functions.
  `processCommissionForOrder` is not modelled. Nothing bounds the discount
  by the total, so the amount lemmas state that bound as a hypothesis.
- `User::activeSubscription`, `hasAccessToCourse`, `hasAccessToDigitalProduct`
  and `DigitalProduct::isInStock` are not part of this model. Their answers
  are inputs.
- Cart keys are built from the canonical decimal form of an id. A request
  whose id string has another form (such as "+7" or "07") is not modelled.
- Money is integer minor units, not decimal casts.
- Relations whose models are not part of this model are read as follows:
  `$user->courses()` is the user's user_courses rows; `$user->productKeys()`
  is the keys whose `used_by` is the user; `availableKeys()` is the product's
  unused keys; a plan's courses and digital products are plain id lists in
  relation order; and `inventory_count` is a writable column of
  digital_products. `Access.CheckSubscriptionPasses`,
  `DigitalProducts.PurchasedKeys` and `Access.ProductAccessSurvivesClaims`
  hold under these readings. `CouponService::incrementCouponUsage(Coupon::find($couponId))`
  is read as raising that coupon's usage counter by one and changing nothing
  else (`Orders.OrderTable.IncrementCouponUsage`, `OrderService.UsageAfter`).
- Order numbers take the md5 digest and today's date as inputs.
- `Subscriptions.IsExpiringSoon`: takes Carbon's `diffInDays` to be whole,
  absolute days. A Carbon version that returns signed values would differ for
  end dates in the future.
- `DigitalProducts.AfterShow`: compares `used_by === $user->id` as integers,
  which assumes the database driver returns `used_by` as an integer. With a
  string column the strict comparison would always fail.
- `Keys.KeyPool.MarkAsUsed`, `Keys.KeyPool.Release`: the product's existence is
  the domain of the count map. A key whose product row is gone skips the
  recount, as the source does.
- `Subscriptions.EndsAtFor`: month and year addition are parameters. Carbon's
  month overflow rules are not modelled.

## Findings

| source | as written | input that shows it | evidently intended | confidence | as-written member | corrected member |
|---|---|---|---|---|---|---|
| app/Services/PaymentReceiptService.php:90 | `verifyPayment` calls `completeOrder($order)` with one argument, but `completeOrder(Order $order, $paymentId)` requires two. PHP raises ArgumentCountError at the call, before completeOrder's body runs. The status update, made outside any transaction, is already saved, so the order is left completed and nothing is granted | a pending bank-transfer order for one course, verified by an administrator | complete the order with its existing payment reference, so its courses and keys are granted | not executed | PaymentReceipts.VerifyPaymentAsWritten, PaymentReceipts.VerifyPaymentAsWrittenGrantsNothing | PaymentReceipts.VerifyPayment, PaymentReceipts.VerifiedOrderIsGranted |
| app/Http/Controllers/User/SubscriptionController.php:57-64 | cancel frees the user's subscription keys with a bulk query update, which runs no model hook, so no product's `inventory_count` is recomputed | one product with one key, held through a subscription, count 0; after cancel the key is free and the count still says 0 | recompute each product's count, as `markAsUsed` and `release` do | not executed | SubscriptionManagement.CancelAsWritten, SubscriptionManagement.CancelAsWrittenLeavesStaleCount | SubscriptionManagement.Cancel, SubscriptionManagement.CancelKeepsCountsAccurate |
