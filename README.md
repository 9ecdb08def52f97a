# BunShop order workflow, payment bookkeeping and category guard in Dafny

This project models the three services of the BunShop e-commerce backend that
hold business rules:

- **orderService** — `createOrder` checks every line against the product's
  stock and snapshots its price. It then writes the order PENDING with a total of
  Σ price × quantity and charges that total in USD. On success it marks the order
  PAID and takes each line's quantity out of stock. `cancelOrder` refunds a
  COMPLETED payment in full, puts every line's quantity back into stock and marks
  the order CANCELLED. `updateOrderStatus` overwrites the status.
  `getOrderById` and `getUserOrders` read orders back.
- **paymentService** — `processPayment` either declines or stores one
  COMPLETED payment with a `mock_…` transaction id. `refundPayment` marks a
  payment REFUNDED and lowers its amount by the refunded sum.
- **categoryService** — `createCategory`, `updateCategory`, `getCategoryById`,
  and `deleteCategory`. Delete refuses a missing category, and a category that
  still has subcategories or products.

The store is the class `Store.Database`: one map per table (products, orders
with their lines, payments, categories) and one auto-increment counter for
each of orders, payments and categories. Products are only read and updated,
never created, so they have no counter. `Db` is a snapshot of the store as a value. `Consistent(db)` states the
primary and foreign keys the services rely on.

Every operation that writes has two parts:

- a pure step function `XStep(db, …)` that returns the result and the new snapshot;
- a method `X(store, …)` that updates the store in place.

Each method's postcondition equates its result and new state with the step
function. Each database transaction is all-or-nothing: if its body throws, the
store is unchanged. The lemmas about the step functions carry the properties.

Modules: `Records` (rows, `Result`, errors and their HTTP codes), `Text`
(decimal numerals), `Store`, `PaymentService`, `OrderService`, `CategoryService`.

Inputs that replace nondeterminism:

- the random payment outcome is the boolean `paymentSucceeds` / `succeeds`;
- the random suffix of a transaction id is the string `nonce`;
- the clock is a number in milliseconds. In `createOrder`, `now` is the
  reading at the order insert, the database's default for `createdAt`.
  `payTime` is the later `Date.now()` that the payment simulator embeds in
  the transaction id after its delay. In `cancelOrder`, `now` / `later` is
  the `new Date()` stored as `cancelledAt`.

Money is in whole cents (`int`). Order and payment statuses are plain strings,
as the code writes them.

Behaviours of the code that the model keeps, each with a lemma:

- Lines are checked one by one against the stock before the order. An order
  that names the same product twice can pass every check and still oversell
  (`DuplicateLinesOversell`). Stock stays non-negative only when product ids
  are distinct (`CreateOrderKeepsStockNonNegative`).
- `cancelOrder` restores stock whatever the order's status. A PENDING order
  never had stock taken, so cancelling it over-credits stock
  (`CancelPendingOverCredits`).
- `updateOrderStatus` checks no transition. A cancelled order that is set back
  to PENDING can be cancelled again, and its stock is then credited twice
  (`ReopenedOrderCancelsAgain`).
- `createOrder` returns the order row as first written, whose status is still
  PENDING, while the stored row is PAID (`CreateOrderStep`).
- `refundPayment` does not check the amount, so a refund larger than the
  payment drives the amount negative (`RefundBalance`).

A failed payment leaves no order behind. `createOrder` writes PAYMENT_FAILED
and then throws inside its transaction, so that write is discarded along with
the order row (`CreateOrderSucceedsIff`).

The code has no operation that refunds an order by an amount, and none that
edits a pending order's lines.

In `src/services/paymentSservice.ts`, line 16 misspells `throw` and lines
33-34 name an undefined `error`. The model follows the evident intent: a
declined charge raises `PaymentDeclined`, and a caught error is rethrown
unchanged.

Assumptions about the database schema, which is not part of this model:

- `Payment.orderId` is a unique foreign key to `Order`. This is what the
  one-to-one `payment` relation of an order requires.
- `Category.parentId` and `Product.categoryId` are foreign keys to `Category`.
- `OrderItem.productId` is a foreign key to `Product`.

A write that violates one of these keys fails with `ConstraintViolation`. An
update of a missing row fails with `RecordNotFound`. Outside `createOrder`,
both reach the caller as status 500, the code `handleError` in
`src/utils/ errorHandler.ts` gives to anything that is not an application
error. Inside `createOrder`, the catch around the payment turns any failure
of the charge, a refused payment insert included, into the 400 error
`PaymentProcessingFailed`.

## Model

| member | source | states |
|---|---|---|
| `Records.StatusCode` | src/services/orderService.ts:13-16 | the codes the services raise: a missing product, order or category answers 404, the database's own errors answer 500, and every other refusal of a service answers 400 |
| `Store.PaymentOf` | src/services/orderService.ts:111-114 | the payment an order row includes belongs to that order and is a stored payment |
| `Store.PaymentOfUnique` | src/services/orderService.ts:125 | in a consistent store, the payment found for an order is the one stored payment naming it |
| `PaymentService.TransactionId` | src/services/paymentSservice.ts:26 | every transaction id starts with "mock_" and ends with the random suffix |
| `PaymentService.TransactionIdInjective` | src/services/paymentSservice.ts:26 | two transaction ids are equal only when both the clock reading and the random suffix are equal |
| `PaymentService.ProcessPaymentStep` | src/services/paymentSservice.ts:7-36 | a failed charge stores nothing; a successful one adds exactly one payment row; no other table or counter changes |
| `PaymentService.ProcessPaymentOutcome` | src/services/paymentSservice.ts:13-28 | on a failure outcome the charge is declined with nothing stored. On a success outcome it succeeds exactly when the order exists and has no payment yet, and then adds one fresh COMPLETED payment with the given order, amount, currency and method and a "mock_" transaction id |
| `PaymentService.ProcessPaymentKeepsConsistent` | src/services/paymentSservice.ts:19-28 | inserting a payment keeps primary keys, foreign keys and one payment per order |
| `PaymentService.RefundPaymentStep` | src/services/paymentSservice.ts:38-58 | a missing payment is a database error and changes nothing; otherwise that payment becomes REFUNDED, its amount drops by exactly the refunded amount, and nothing else in the store changes |
| `PaymentService.RefundTouchesOnlyThatPayment` | src/services/paymentSservice.ts:43-45 | every other payment is unchanged and no payment appears or disappears |
| `PaymentService.RefundBalance` | src/services/paymentSservice.ts:47 | the amount left is 0 exactly for a full refund and negative exactly when the refund exceeds the amount |
| `PaymentService.RefundPaymentKeepsConsistent` | src/services/paymentSservice.ts:43-49 | a refund keeps the store consistent |
| `PaymentService.ProcessPayment` | src/services/paymentSservice.ts:7-36 | the in-place insert yields exactly the result and store of `ProcessPaymentStep` and keeps the store valid |
| `PaymentService.RefundPayment` | src/services/paymentSservice.ts:38-58 | the in-place update yields exactly the result and store of `RefundPaymentStep` and keeps the store valid |
| `OrderService.LineError` | src/services/orderService.ts:12-17 | a failing line reports not-found exactly when its product is missing, and insufficient stock otherwise |
| `OrderService.CheckLines` | src/services/orderService.ts:10-23 | the check passes exactly when every line's product exists with stock at least the line's quantity, judged against the stock before the order. It then yields one line per request, in order, with the product's current price. Otherwise the error is that of the first failing line |
| `OrderService.TotalOfSnapshot` | src/services/orderService.ts:18-25 | the total of the snapshotted lines equals Σ current price × quantity over the request |
| `OrderService.TotalIgnoresLineOrder` | src/services/orderService.ts:25 | lines holding the same items in any order have the same total |
| `OrderService.StockShift` | src/services/orderService.ts:56-61 | moving stock line by line never adds or removes a product |
| `OrderService.StockShiftAt` | src/services/orderService.ts:130-135 | each product's stock moves by the total quantity its lines name, in the given direction; no other column changes |
| `OrderService.IncrementUndoesDecrement` | src/services/orderService.ts:130-135 | incrementing by the lines of an order undoes decrementing by them, for every product |
| `OrderService.QuantityOfDistinct` | src/services/orderService.ts:56-61 | when no product is named twice, the quantity taken from a line's product is exactly that line's quantity |
| `OrderService.CreateOrderStep` | src/services/orderService.ts:8-74 | a failed createOrder leaves the whole store as it was; a successful one returns the order still PENDING while the stored row is PAID |
| `OrderService.CreateOrderRejectsBadLine` | src/services/orderService.ts:10-17 | a line whose product is missing or short of stock makes createOrder fail with a not-found or insufficient-stock error and leaves the store unchanged. When it is the first failing line, its own error is the one raised |
| `OrderService.CreateOrderSucceedsIff` | src/services/orderService.ts:45-69 | createOrder succeeds exactly when every line passes and the payment goes through; a failed payment fails with the payment error and leaves everything, stock included, unchanged |
| `OrderService.CreateOrderRecords` | src/services/orderService.ts:18-53 | a successful order sits under the next id, PAID, with lines snapshotted at current prices. Its total equals Σ price × quantity of those lines and the request's cost at order time. There is exactly one new COMPLETED USD payment of that total, whose transaction id carries the payment's own clock reading. Categories are untouched |
| `OrderService.CreateOrderTakesStock` | src/services/orderService.ts:56-61 | each product's stock drops by the quantity the order names for it; unnamed products keep their stock; with distinct products each line's product drops by exactly that line's quantity |
| `OrderService.CreateOrderKeepsStockNonNegative` | src/services/orderService.ts:15-17 | when no product is named twice, no stock count goes below zero |
| `OrderService.DuplicateLinesOversell` | src/services/orderService.ts:10-17 | two one-unit lines for a product with one unit in stock pass the check and leave its stock at -1 |
| `OrderService.CreatedOrderIsPaid` | src/services/orderService.ts:46-61 | right after createOrder the order is stored PAID, its payment is the new COMPLETED one, and stock has been taken for its lines |
| `OrderService.CancelOrderStep` | src/services/orderService.ts:109-157 | cancelOrder succeeds exactly for an existing PENDING or PAID order, and a failure changes nothing. On success it returns the order as now stored, CANCELLED, with the payment the store now holds for it |
| `OrderService.CancelOrderReturns` | src/services/orderService.ts:124-155 | the returned order is the original with status CANCELLED and the given cancellation time. Its payment is the refunded row (REFUNDED, amount 0) when the payment was COMPLETED, the unchanged row when it was not, and none when the order had no payment |
| `OrderService.RefundIfCompleted` | src/services/orderService.ts:124-127 | the refund step changes no table but payments |
| `OrderService.CancelOrderRejects` | src/services/orderService.ts:116-122 | a missing order is not found; an order neither PENDING nor PAID cannot be cancelled; both leave the store unchanged |
| `OrderService.CancelOrderEffects` | src/services/orderService.ts:124-143 | a successful cancel marks the order CANCELLED at the given time and makes a COMPLETED payment REFUNDED with amount 0, touching no other payment. Every product's stock rises by the quantity the order names |
| `OrderService.CancelPendingOverCredits` | src/services/orderService.ts:129-135 | cancelling a PENDING order raises the stock of the products it names, though that stock was never taken |
| `OrderService.CancelAfterCreateRestoresStock` | src/services/orderService.ts:126-135 | cancelling an order right after it was placed returns every product's stock to its value before the order and refunds the payment in full |
| `OrderService.CancelIsNotRepeatable` | src/services/orderService.ts:120-122 | a cancelled order cannot be cancelled again, and the attempt changes nothing |
| `OrderService.UpdateOrderStatusStep` | src/services/orderService.ts:94-107 | any status string is written to an existing order and nothing else changes; a missing order is a database error. The returned order is the updated row with the payment it already had |
| `OrderService.ReopenedOrderCancelsAgain` | src/services/orderService.ts:94-97 | a cancelled order set back to PENDING can be cancelled again, crediting its products' stock a second time |
| `OrderService.GetOrderById` | src/services/orderService.ts:76-92 | the stored order with a payment belonging to it, or not found exactly when the id is absent |
| `OrderService.GetOrderByIdPayment` | src/services/orderService.ts:79-85 | in a consistent store the returned payment is the one stored payment naming the order, and none when no payment names it |
| `OrderService.InsertNewestFirst` | src/services/orderService.ts:170 | inserting adds exactly the new entry: the result is the old list plus that entry, as a multiset |
| `OrderService.InsertNewestFirstSorted` | src/services/orderService.ts:170 | inserting into a newest-first list keeps it newest first |
| `OrderService.InsertNewestFirstDistinct` | src/services/orderService.ts:170 | inserting an order whose id is new keeps the order ids distinct |
| `OrderService.UserOrdersBelowSound` | src/services/orderService.ts:160-168 | every listed entry is a stored order of the user with its own payment |
| `OrderService.UserOrdersBelowComplete` | src/services/orderService.ts:160-162 | every stored order of the user with an id below the bound is listed, with its payment |
| `OrderService.UserOrdersBelowSorted` | src/services/orderService.ts:170 | the listing is ordered by createdAt, newest first |
| `OrderService.UserOrdersBelowDistinct` | src/services/orderService.ts:159-171 | no order is listed twice |
| `OrderService.GetUserOrders` | src/services/orderService.ts:159-172 | exactly the orders whose userId matches, each once with its payment, ordered by createdAt descending |
| `OrderService.PlaceKeepsConsistent` | src/services/orderService.ts:27-43 | writing a new order whose lines name existing products under the next id keeps the store consistent |
| `OrderService.SettleKeepsConsistent` | src/services/orderService.ts:50-61 | overwriting an order's status and moving stock keeps the store consistent |
| `OrderService.CreateOrderKeepsConsistent` | src/services/orderService.ts:9-73 | createOrder keeps the store consistent |
| `OrderService.CancelOrderKeepsConsistent` | src/services/orderService.ts:110-156 | cancelOrder keeps the store consistent |
| `OrderService.UpdateOrderStatusKeepsConsistent` | src/services/orderService.ts:94-97 | updateOrderStatus keeps the store consistent |
| `OrderService.CreateOrderKeepsTotals` | src/services/orderService.ts:25-53 | after createOrder every stored total still equals Σ price × quantity of its stored lines |
| `OrderService.CancelOrderKeepsTotals` | src/services/orderService.ts:137-143 | cancelOrder leaves every stored total equal to Σ price × quantity of its lines |
| `OrderService.UpdateOrderStatusKeepsTotals` | src/services/orderService.ts:94-97 | updateOrderStatus leaves every stored total equal to Σ price × quantity of its lines |
| `OrderService.ShiftStock` | src/services/orderService.ts:56-61 | the loop of stock updates leaves the store exactly as `StockShift` describes and changes nothing else |
| `OrderService.CreateOrder` | src/services/orderService.ts:8-74 | the in-place transaction yields exactly the result and store of `CreateOrderStep` and keeps the store valid. A failed payment rolls back the order and its PAYMENT_FAILED status |
| `OrderService.CancelOrder` | src/services/orderService.ts:109-157 | the in-place transaction yields exactly the result and store of `CancelOrderStep` and keeps the store valid |
| `OrderService.UpdateOrderStatus` | src/services/orderService.ts:94-107 | the in-place update yields exactly the result and store of `UpdateOrderStatusStep` |
| `CategoryService.GetCategoryById` | src/services/categoryService.ts:10-15 | the category with exactly the categories naming it as parent and exactly the products in it, or nothing when the id is absent |
| `CategoryService.DeleteGuard` | src/services/categoryService.ts:28-34 | deletion may proceed exactly when the category exists, no category names it as parent, and no product belongs to it. A missing id gives not-found, and any other refusal is in-use |
| `CategoryService.DeleteCategoryStep` | src/services/categoryService.ts:22-37 | a refused delete changes nothing; an allowed one removes that category only |
| `CategoryService.DeleteCategoryOutcome` | src/services/categoryService.ts:28-36 | a missing id fails with not-found. A category with a subcategory or a product fails with in-use. Both leave the store unchanged. Otherwise exactly that category is removed and the others stay as they were |
| `CategoryService.DeleteCategoryKeepsConsistent` | src/services/categoryService.ts:32-36 | deleting under the guard leaves no subcategory or product pointing at a missing category |
| `CategoryService.UnguardedDeleteBreaksConsistency` | src/services/categoryService.ts:32-34 | removing a category that is still a parent without the guard would leave a dangling parent reference |
| `CategoryService.CreateCategoryStep` | src/services/categoryService.ts:6-8 | creation fails exactly when the named parent does not exist, and then changes nothing |
| `CategoryService.CreateCategoryAddsOne` | src/services/categoryService.ts:6-8 | a created category is new, carries the given name, description and parent, and is the only change to the table |
| `CategoryService.UpdateCategoryStep` | src/services/categoryService.ts:16-21 | the update succeeds exactly when the category exists and the parent it ends up with, if any, exists. A missing id fails with a record-not-found database error, and a missing parent with a constraint violation. A failure changes nothing |
| `CategoryService.UpdateCategoryChangesOnlyThatOne` | src/services/categoryService.ts:16-21 | the columns the patch names take its values, the others and the id stay, and every other category is untouched |
| `CategoryService.CreateCategoryKeepsConsistent` | src/services/categoryService.ts:6-8 | createCategory keeps the store consistent |
| `CategoryService.UpdateCategoryKeepsConsistent` | src/services/categoryService.ts:16-21 | updateCategory keeps the store consistent |
| `CategoryService.CreateCategory` | src/services/categoryService.ts:6-8 | the in-place insert yields exactly the result and store of `CreateCategoryStep` |
| `CategoryService.UpdateCategory` | src/services/categoryService.ts:16-21 | the in-place update yields exactly the result and store of `UpdateCategoryStep` |
| `CategoryService.DeleteCategory` | src/services/categoryService.ts:22-37 | the guarded delete yields exactly the result and store of `DeleteCategoryStep` |

## Left out

- The HTTP route handlers, request parsing, JSON responses, authentication (JWT, password hashing), role and ownership checks, and the request schemas. These wrap the services and are not part of this model.
- The tag and review services. They pass data straight to the database.
- The simulated one-second delays in the payment service, and logging.
- Concurrency and transaction isolation. Each transaction is one atomic step. `processPayment` and `refundPayment` write through their own database client rather than the transaction's; the model treats those writes as part of the enclosing transaction.
- Error messages. Errors are tagged variants with their HTTP status (`StatusCode`); the message texts are not modelled.
- The product rows that the orders' `include` joins into each line. `GetOrderById`, `GetUserOrders`, `CancelOrderStep` and `UpdateOrderStatusStep` return the order, its lines and its payment, but not the joined product rows.
- `createOrder`'s catch block also catches failures of the PAID update and of the stock updates. In the model those writes cannot fail: the order was just written, and the check found every product. So only the payment can send `createOrder` down the failure path.
- The Prisma schema itself. The keys listed above are assumed, and `Consistent` states them; user ids are not checked against a users table.
- `CheckLines`: when several lines fail, the lookups run concurrently and the error is whichever rejects first. The model reports the first failing line in request order.
- `GetUserOrders`: the order among orders with equal `createdAt` is not specified by the query. The model puts the higher id first.
- The categories' `createdAt` and `updatedAt` columns, which the database sets on create and on every update. `Category` has no timestamp fields, so `CreateCategoryStep` and `UpdateCategoryStep` do not state them.
- Floating-point prices and amounts. Money is modelled in whole cents as unbounded integers.
