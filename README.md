# Orders and authentication of the storefront API, in Dafny

This project models the order-handling core of a small Express/Mongoose
storefront backend:

- **`authenticate`**, the middleware in front of every order route. It reads the
  `Authorization` header and splits it on single spaces. It demands
  `Bearer <token>`, hands the token to the JWT verifier, attaches
  `{ id, roles }` to the request and calls `next`. Every failure is a 401 with
  its own message.
- **`create`** (`POST /orders`). It validates the body against
  `createOrderValidationSchema` and prechecks each item against the product
  stock. It saves one order owned by the caller and decrements each product's
  `qty`. Then it looks up the caller and mails an invoice. The replies are 201,
  400 (validation, product, stock, user) and 500 (save or mail failure).
- **`getOrderHistory`** (`GET /orders`). It parses `limit` and `page` with
  `parseInt` (defaults 10 and 1) and answers 400 on NaN. It returns the
  caller's orders newest first, skipping `(page - 1) * limit` and taking
  `limit`, together with `total` and `totalPages = Math.ceil(total / limit)`.
- **`OrderSchema`**, the order document: required fields, the `status` enum
  with default `pending`, and creation timestamps.

Modules:

- `Wrappers`: `Option` and `Result`.
- `Js`: the JavaScript built-ins the code relies on, as pure functions with
  their laws. These are `split` on one character (with its join round trip),
  `parseInt(s, 10)` (white space, sign, digit prefix, NaN) and `Math.ceil` of
  an integer quotient.
- `OrderModel`: the order document and Mongoose's cast, validate, default and
  timestamp step before `save`.
- `AuthMiddleware`: the header checks and decision as functions, and an
  `Exchange` class whose `Authenticate` method updates `req.user`, the
  response and the count of `next` calls.
- `OrderController`: the request schema, the precheck and decrement loops, the
  whole `create` workflow as the specification function `PlaceOrder`, and a
  `Store` class holding the product quantities, the saved orders and the sent
  invoices. `Store.Create` runs the workflow step by step with loops, and is
  proved to end in exactly the state `PlaceOrder` describes.
- `OrderHistory`: the owner filter, the newest-first sort (an insertion sort
  proved sorted and a permutation), MongoDB's skip/limit window, and the
  handler. Orders stamped in insertion order, as the store keeps them, have
  exactly one newest-first arrangement, so the page contents do not depend on
  how the sort breaks ties.

The model treats these as parameters:

- The external world is a parameter. The JWT verifier is a function from
  token to payload or thrown value. The mail service's outcome is a
  `MailResult`.
- The databases are values: a map from product id to quantity, a sequence of
  saved orders, and a map of users.
- The timestamp of an order is its insertion position.

Behaviour of the source worth knowing:

- The stock precheck compares each item with the stock as it was before the
  order; two items of the same product are not summed. Nothing reserves stock
  atomically, and quantities can go negative (`DuplicateItemsOversell`).
- The body is spread into the new document, so a client-supplied `status` is
  stored. A status outside the enum makes the save throw, which gives a 500
  (`BadStatusFailsSave`). A client-supplied `createdBy` is overwritten
  (`BodyOwnerIgnored`).
- An empty `orderItems` array passes the schema, since `array().required()`
  admits `[]`.
- The order and its decrements are kept when the user lookup or the mail
  fails afterwards.
- `limit=0` and negative values are not rejected. MongoDB treats limit 0 as
  "no limit" and a negative limit as its absolute value. A negative skip makes
  the query throw, which the handler turns into 500.

## Model

| member | source | states |
|---|---|---|
| Js.Split | src/middleware/auth.middleware.ts:13 | `split(" ")` yields at least one piece; joining the pieces with the separator gives back the header; no piece contains the separator |
| Js.SplitJoin | src/middleware/auth.middleware.ts:13 | splitting the join of separator-free pieces gives back exactly those pieces |
| Js.SplitAtFirstSeparator | src/middleware/auth.middleware.ts:13 | the first piece ends at the first separator and the remainder is split on its own |
| Js.ParseIntOfDecimal | src/controller/order.controller.ts:112-113 | `parseInt` reads back the decimal form of any integer, also when non-digits follow it |
| Js.ParseInt | src/controller/order.controller.ts:112-115 | a number comes out only when the text holds a decimal digit, so text without one is NaN; `ParseIntOfDecimal`, `ParseIntOfPlusDigits` and `ParseIntSkipsWhiteSpace` state what the number is |
| Js.ParseTrimmed | src/controller/order.controller.ts:112-113 | after the white space, a number comes out only when a digit follows the optional sign |
| Js.ParseIntOfPlusDigits | src/controller/order.controller.ts:112-113 | a `+` before the digits is skipped: `parseInt("+5")` is 5 |
| Js.ParseIntSkipsWhiteSpace | src/controller/order.controller.ts:112-113 | leading white space never changes the result: `parseInt(" 12")` is `parseInt("12")` |
| Js.CeilDiv | src/controller/order.controller.ts:134 | the result is the ceiling of `total / limit` for either sign of a non-zero limit |
| OrderModel.ParseStatus | src/model/order.model.ts:37-41 | a status string is admitted exactly when it is one of the three enum values, and then maps back to the same string |
| OrderModel.StatusNameRoundTrip | src/model/order.model.ts:39 | every status is admitted under its stored name |
| OrderModel.CastItems | src/model/order.model.ts:11-31 | the item array casts exactly when every item has a non-empty name and product id and a price and quantity; the cast keeps length, order and field values |
| OrderModel.Materialize | src/model/order.model.ts:5-46 | the document saves exactly when grand total, owner and every item's required fields are present and any status is in the enum. The saved order is valid, keeps the given fields, defaults the status to pending, and is stamped with its creation time |
| OrderModel.DefaultIsPending | src/model/order.model.ts:40 | an order given without status is saved as pending |
| OrderModel.SchemaLeavesQuantityUnbounded | src/model/order.model.ts:26-29 | the document schema saves an item of any quantity; only the request schema bounds it |
| OrderController.ValidateBody | src/controller/order.controller.ts:15-27 | the body passes exactly when `grandTotal` and `orderItems` are present and every item has all fields and quantity in 1..5; the items then keep their order and values |
| OrderController.PrecheckPassesIff | src/controller/order.controller.ts:38-48 | the precheck passes exactly when each item's product exists and has at least the item's quantity |
| OrderController.PrecheckReportsFirstFailure | src/controller/order.controller.ts:38-48 | a failing precheck reports "not found" or "insufficient" according to the first item that fails |
| OrderController.FirstFailure | src/controller/order.controller.ts:38-48 | a "not found" outcome names an item whose product is missing, and an "insufficient" one an item asking more than its product's stock; `PrecheckPassesIff` and `PrecheckReportsFirstFailure` state the rest |
| OrderController.Decremented | src/controller/order.controller.ts:57-61 | the decrement adds and removes no product |
| OrderController.Demand | src/controller/order.controller.ts:57-61 | the total quantity the `$inc` loop takes from one product; `DemandOfDistinct` and `UnnamedProductsUnchanged` state its value |
| OrderController.DemandOfDistinct | src/controller/order.controller.ts:57-61 | with distinct products, each product loses exactly the quantity of its one item |
| OrderController.UnnamedProductsUnchanged | src/controller/order.controller.ts:57-61 | a product no item names keeps its quantity |
| OrderController.DistinctOrderKeepsStockNonNegative | src/controller/order.controller.ts:38-61 | with distinct products, a passing precheck keeps non-negative quantities non-negative |
| OrderController.DuplicateItemsOversell | src/controller/order.controller.ts:38-61 | two items of 2 against a stock of 3 both pass the precheck and leave -1 |
| OrderController.WithOwner | src/controller/order.controller.ts:50-53 | the document fields are the body's, with the owner set to the authenticated id |
| OrderController.StatusCode | src/controller/order.controller.ts:41-103 | 201 exactly for a created order, 500 exactly for a failed save or mail, 400 otherwise |
| OrderController.Message | src/controller/order.controller.ts:41-103 | the message of each exit; `OrderOfTwoFromThree` and `FirstFailingItemDecides` pin the exits it is read with |
| OrderController.PlaceOrder | src/controller/order.controller.ts:30-105 | validation fails exactly when the schema rejects the body. Every exit before the save leaves stock, orders and mail untouched. After the save, exactly one order is appended, owned by the caller with the validated items, and the stock is decremented by the items. The saved order carries the body's grand total, and the body's status or else pending. An invoice to the caller's address is recorded exactly when the reply is 201 |
| OrderController.FirstFailingItemDecides | src/controller/order.controller.ts:38-48 | after validation, the first failing item decides between "Product not found" and "Insufficient product quantity", and nothing changes |
| OrderController.InStockOrderIsSaved | src/controller/order.controller.ts:50-90 | a valid, in-stock order is saved and every product loses what the items ask of it. The reply is 201 when the user exists and the mail is sent, and otherwise "User not found" or the 500 |
| OrderController.BodyOwnerIgnored | src/controller/order.controller.ts:50-53 | any `createdBy` in the body has no effect on the outcome |
| OrderController.BadStatusFailsSave | src/controller/order.controller.ts:50-55 | a body status outside the enum fails the save with 500 and changes nothing |
| OrderController.OrderOfTwoFromThree | src/controller/order.controller.ts:30-90 | an order of 2 of a product with 3 in stock is created as pending with status 201 and leaves 1 |
| OrderController.Store.Precheck | src/controller/order.controller.ts:38-48 | the loop returns the outcome of the first failing item, or pass |
| OrderController.Store.DecrementStock | src/controller/order.controller.ts:57-61 | the loop leaves the stock that the decrement specification gives |
| OrderController.Store.Create | src/controller/order.controller.ts:30-105 | the handler leaves the reply, stock, orders and sent mail that `PlaceOrder` gives, and keeps every stored order valid and stamped in insertion order (so the history order is unique, by `StampedHistoryIsUnique`) |
| AuthMiddleware.CheckHeader | src/middleware/auth.middleware.ts:7-19 | there is no token exactly when the header is missing or empty; an accepted token is non-empty and has no space |
| AuthMiddleware.BearerAccepted | src/middleware/auth.middleware.ts:13-19 | `Bearer <token>` is accepted with that token for any non-empty space-free token, whatever follows after a space |
| AuthMiddleware.AcceptedHeaderShape | src/middleware/auth.middleware.ts:13-19 | an accepted header begins with `Bearer `, then the token, then ends or continues with a space |
| AuthMiddleware.DoubleSpaceRejected | src/middleware/auth.middleware.ts:13-19 | `Bearer` followed by two spaces has an empty token and is rejected |
| AuthMiddleware.ThirdPieceIgnored | src/middleware/auth.middleware.ts:13 | `Bearer x y` verifies `x` |
| AuthMiddleware.SchemeComparedExactly | src/middleware/auth.middleware.ts:15 | `bearer x` and `Bearer` alone are rejected |
| AuthMiddleware.DecideOutcomes | src/middleware/auth.middleware.ts:6-39 | `next` runs exactly when the header is well formed and verification returns a payload, and the user is its id and roles. Otherwise the reply is the 401 message of the check that failed, with separate messages for a thrown `Error` and any other thrown value |
| AuthMiddleware.Decide | src/middleware/auth.middleware.ts:6-39 | `next` runs only on a well-formed header, and every 401 carries one of the four messages; `DecideOutcomes` states the decision exactly |
| AuthMiddleware.VerifierSeesOnlyTheToken | src/middleware/auth.middleware.ts:21-25 | the outcome depends on the verifier only through the extracted token |
| AuthMiddleware.Exchange.Authenticate | src/middleware/auth.middleware.ts:6-39 | on success `req.user` is set and `next` is called once with the response untouched; on failure the response is 401 with the message and `req.user` and `next` are untouched |
| OrderHistory.OwnedBy | src/controller/order.controller.ts:121 | the filter keeps exactly the caller's orders, each as often as stored |
| OrderHistory.InsertByDateSorted | src/controller/order.controller.ts:124 | inserting into a newest-first list keeps it newest first |
| OrderHistory.InsertByDateAdds | src/controller/order.controller.ts:124 | inserting adds exactly the one order |
| OrderHistory.SortNewestFirst | src/controller/order.controller.ts:124 | the sort is newest first and a permutation of its input |
| OrderHistory.CallersNewestFirst | src/controller/order.controller.ts:121-126 | the query order is newest first and holds exactly the caller's orders, as many as `countDocuments` counts |
| OrderHistory.Window | src/controller/order.controller.ts:122-123 | skip drops that many documents and limit keeps at most its absolute value, 0 meaning all; the documents kept are consecutive from the skip |
| OrderHistory.GetOrderHistory | src/controller/order.controller.ts:110-119 | the reply is 400 exactly when `limit` or `page` (or its default) parses to NaN |
| OrderHistory.HistoryStatusCode | src/controller/order.controller.ts:116-142 | 200 exactly for a page, 400 exactly for NaN pagination, 500 exactly when the query throws |
| OrderHistory.HistoryMessage | src/controller/order.controller.ts:116-142 | the message of each reply; `GetOrderHistory` and `EmptyParamRejected` pin which reply is read |
| OrderHistory.ParamText | src/controller/order.controller.ts:110-113 | the text `parseInt` receives, the default's decimal form when absent; `HistoryDefaults` states what the defaults give |
| OrderHistory.Skip | src/controller/order.controller.ts:123 | the number of documents before a page; `HistoryPage` and `NonPositivePageFails` state its effect |
| OrderHistory.Paginate | src/controller/order.controller.ts:121-135 | the query fails exactly when the skip is negative; otherwise the reply echoes page and limit and `total` counts the caller's orders |
| OrderHistory.TotalPages | src/controller/order.controller.ts:134 | `Math.ceil(total / limit)` is a finite number exactly when the limit is not 0, and NaN exactly for 0 / 0 |
| OrderHistory.TotalPagesIsCeiling | src/controller/order.controller.ts:134 | for a positive limit `totalPages` is the least page count whose pages hold `total` |
| OrderHistory.DecimalParams | src/controller/order.controller.ts:112-123 | decimal parameters reach the query as the numbers they spell |
| OrderHistory.WindowOfNewestFirst | src/controller/order.controller.ts:122-124 | a window of a newest-first list is newest first and drawn from it |
| OrderHistory.HistoryHoldsCallersOrdersNewestFirst | src/controller/order.controller.ts:121-135 | every returned order is one of the caller's stored orders, the page is newest first, it holds at most `|limit|` orders, and `total` counts all of the caller's orders |
| OrderHistory.HistoryPage | src/controller/order.controller.ts:107-135 | for a positive limit and page at least 1, the reply echoes page and limit, holds the sorted orders from `(page - 1) * limit` on, at most `limit` of them, and reports `total` and the ceiling `totalPages` |
| OrderHistory.HistoryDefaults | src/controller/order.controller.ts:110 | without parameters the reply is page 1 of limit 10: the caller's ten newest orders |
| OrderHistory.SecondPageOfTen | src/controller/order.controller.ts:112-124 | parameters parsing to page 2 and limit 10 give the caller's 11th to 20th newest orders |
| OrderHistory.EmptyParamRejected | src/controller/order.controller.ts:112-119 | an empty `limit` or `page` is NaN, so the reply is 400 |
| OrderHistory.NonPositivePageFails | src/controller/order.controller.ts:123-142 | with a positive limit, a page of 0 or below gives a negative skip and the reply is 500 |
| OrderHistory.ZeroLimitReturnsEverything | src/controller/order.controller.ts:122-134 | `limit=0` returns all of the caller's orders on any page, with `totalPages` NaN or Infinity |
| OrderHistory.StampedOrdersHaveDistinctStamps | src/model/order.model.ts:43-45 | orders stamped in insertion order never share a timestamp |
| OrderHistory.NewestFirstIsUnique | src/controller/order.controller.ts:124 | with distinct timestamps there is exactly one newest-first arrangement of a collection of orders |
| OrderHistory.StampedHistoryIsUnique | src/controller/order.controller.ts:121-124 | for orders stamped in insertion order, as the store keeps them, every newest-first arrangement of the caller's orders is the one the query returns |

## Left out

- Concurrency: each `await` in `create` is a point where other requests may interleave. The model runs one request to completion, so races between the precheck and the decrement of concurrent orders are not modelled.
- `jwt.verify`, the secret and token signatures: the verifier is an oracle parameter. A verified payload that is not an object is not modelled, and neither is a payload object without `id` or `roles`: the source then attaches a user with undefined fields, while the model's payload always carries both.
- The mail service (`src/utils/mail/mail.ts:12-32`): rendering and sending are one `MailResult`. The mail content, the template and the current year are not modelled. Only the recipient, subject and order of a sent invoice are recorded.
- Mongoose and Yup type casting: strings cast to numbers, and malformed ObjectIds that throw a cast error (a 500) are not modelled. Ids are plain strings, and a product id that is missing from the inventory is "not found".
- Database failures other than a refused document or a negative skip: a failing `findById`, `findByIdAndUpdate` or `countDocuments` is not modelled.
- Prices, totals and quantities are integers. Fractional quantities (which pass the schema) and floating-point rounding are not modelled.
- Body fields other than `grandTotal`, `orderItems`, `createdBy` and `status` are not modelled. The source spreads the whole body into the document, so a client-supplied `_id` or `createdAt` reaches it too. Mongoose fills `createdAt` only when it is unset, so a client timestamp would change the newest-first order of the history.
- Timestamps: `createdAt` is the insertion position, so timestamps never tie and `updatedAt` is left out. The order among equal timestamps is not modelled.
- `parseInt`: `-0` and numbers beyond the safe-integer range are not modelled. How NaN and Infinity render in the JSON response (as `null`) is not modelled.
- Yup's error list (`abortEarly`) and the response bodies beyond status and message are not modelled; the validation rules follow Yup 1.x.
- Response bodies: only the reply kind, status code and message of both handlers are modelled, not the JSON `data` fields.
- Routing (`src/routes.ts:33-34`) and the chained `authController.me` handler are not part of this model; the order handlers are modelled for an authenticated caller.
- `next()` is assumed not to throw.
- OrderHistory.Window: for a negative limit the model returns exactly min(|s| - skip, |limit|) documents, while MongoDB returns them in a single batch that may hold fewer.
