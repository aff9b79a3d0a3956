# Sneakers shop: the order workflow in Dafny

This project models the order workflow of the sneakers shop backend: the
part that turns a customer's request into an order, takes the ordered pairs
out of stock, lets the customer look up their orders, and cancels an order
by giving its pairs back to stock.

The shop sells products. A product may come in size variants ("42", "M").
Each variant has its own stock count. An order belongs to one user. It
holds delivery details, a payment method, money amounts (subtotal, delivery
price, total) and one item per requested line. Each item keeps the unit
price the product had when the order was placed.

Modules, one per source file of the core, plus a small shared one:

- `Wrappers` (`wrappers.dfy`): `Option` and `Result`.
- `Models` (`models.dfy`): the order and item records of
  `apps/orders/models.py`. This covers the status and payment-method
  choices with their stored codes and defaults, the item line total, and
  what every stored order satisfies. Money is an integer number of cents;
  the columns hold 10 digits, 2 of them after the point.
- `Serializers` (`serializers.dfy`): validation of the creation request in
  `apps/orders/serializers/serializers.py`, modelled on how Django REST
  framework's fields behave.
  - A field of the request body is left out, sent as null, or given.
  - Text fields lose surrounding whitespace, the way Python's `str.strip()`
    removes it. A blank value is then rejected unless blanks are allowed.
    After that, length limits apply.
  - The delivery price is a decimal as written (coefficient and exponent).
    It is checked for 10 digits in all, 2 after the point and 8 before it,
    and must not be negative. It is then converted to cents exactly.
  - A rejected request reports the set of fields it is rejected for. A bad
    line is reported as `Item(i)`, with i its index.
- `OrderSpec` (`order_spec.dfy`): the workflow of
  `apps/orders/views/views.py` as functions over the catalog (products,
  and a map from size variant to stock count).
  - It models creation as written: a first pass checks every line against
    the stock counts as they were before the request; a second pass sets
    each sized line's variant to that count minus the line's quantity.
  - It models the corrected creation: each line is checked against the stock
    the earlier lines of the same request have left (see Findings).
  - It models cancellation, which adds each item's quantity back to the
    variant's current count.
- `Views` (`views.dfy`): the view functions.
  - Class `Shop` holds the catalog and the orders as fields that its methods
    update. `CreateOrder` and `CancelOrder` are methods proved against the
    `OrderSpec` functions. `Shop.Valid()` is kept by both: orders are
    numbered by position, and every stored order is well formed against the
    catalog.
  - `OrderDetail` and `OrderList` are the read-only, owner-scoped lookups.
  - `PlaceAndCancelScenario` places and cancels one order on a one-variant
    catalog and checks the resulting totals and stock.

Orders are kept in the order they were created. The id of an order is its
position plus one, as an auto-increment key gives it. "Newest first" is
therefore the reverse of that order. Every failure of `CreateOrder` leaves
the shop exactly as it was, which models the database transaction being
rolled back.

The check `size.stock < quantity` in `apps/orders/views/views.py:63` is
there to stop the shop selling more pairs than it holds. As written, it
compares every line with the count read before any line of the request is
applied, so two lines naming the same size variant can together take more
than the variant holds (see Findings). `OrderSpec` models the code as
written (`Resolve` and `StockAfterCreate`). The shop's `CreateOrder` uses
the correction described in Findings: each line is checked against the
count the earlier lines left.

## Model

| member | source | states |
|---|---|---|
| Models.StatusFromCode | apps/orders/models.py:8-15 | every stored status code reads back as exactly one of the six statuses; any other text is rejected |
| Models.PaymentMethodFromCode | apps/orders/models.py:17-22 | exactly the four codes cash, card, payme and click are accepted, each as its own method |
| Models.OrderItem.Subtotal | apps/orders/models.py:106-109 | with a positive quantity the line total is zero exactly when the unit price is, and with a non-negative price it is never below the unit price |
| Models.NewOrder | apps/orders/models.py:30-58 | a new order is pending and unpaid with no payment time, keeps the given delivery details, payment, note and items, and its total minus the delivery price is the subtotal |
| Serializers.Trim | apps/orders/serializers/serializers.py:44-49 | the whitespace stripping text fields apply: the result is the infix between the outer whitespace runs, starts and ends with a non-space, and is empty exactly when the input is all whitespace |
| Serializers.CharField | apps/orders/serializers/serializers.py:44-49 | left out is rejected exactly when required; null is rejected unless allowed; a given value is stripped and rejected exactly when blank without blanks allowed, or over the length limit |
| Serializers.IntegerField | apps/orders/serializers/serializers.py:8-10 | accepted exactly when given and not below the minimum; the value is kept; left out and null are rejected |
| Serializers.PaymentMethodChoice | apps/orders/serializers/serializers.py:50-53 | left out gives cash; a given code is accepted exactly when it is one of the four choices, and then as the method with that code; null is rejected |
| Serializers.DigitCounts | apps/orders/serializers/serializers.py:54-59 | the digit counts of a decimal as written: the digits after the point are minus the exponent when it is negative, the digits before it are the coefficient's digits plus the exponent when that is positive and 0 otherwise, and the total is their sum |
| Serializers.DeliveryPriceCents | apps/orders/serializers/serializers.py:54-59 | a price is accepted exactly when it fits 10 digits with 2 after the point and is not negative; the accepted price in cents is the same amount and lies between 0 and 99999999.99 |
| Serializers.DeliveryPriceField | apps/orders/serializers/serializers.py:54-59 | left out gives 0; null is rejected; a given price is accepted exactly when its amount is, and then as that amount in cents |
| Serializers.ParseItem | apps/orders/serializers/serializers.py:6-10 | a line is accepted exactly when a product id and a quantity of at least 1 are given; the size is present exactly when given, and then stripped |
| Serializers.ParseItems | apps/orders/serializers/serializers.py:61 | the validated lines are the input lines parsed one by one, in order |
| Serializers.NoErrorsMeansAccepted | apps/orders/serializers/serializers.py:42-61 | a request rejected for no field has a value for every required field, a valid choice and price, and a list whose every line parses |
| Serializers.Validate | apps/orders/serializers/serializers.py:42-61 | rejected exactly when some field is, reporting exactly those fields; an accepted request meets every length and range limit, carries the stripped text of every given text field, the method whose code was given, the given delivery price in cents and the lines in order, and defaults payment to cash, delivery price to 0 and region, postal code and note to blank |
| OrderSpec.LineKey | apps/orders/views/views.py:45-58 | a line names a size variant exactly when its size name is present and non-empty, and then the variant of that product with that name |
| OrderSpec.ResolveLine | apps/orders/views/views.py:43-76 | a line passes exactly when its product exists and any named variant exists with at least the requested quantity; the product-not-found, size-not-found and insufficient-stock errors are given in that order of checks, with the available count |
| OrderSpec.Resolve | apps/orders/views/views.py:43-76 | the first pass: all lines pass, each to its own check, or the result is the error of the first line that fails |
| OrderSpec.FirstFailureDecides | apps/orders/views/views.py:43-65 | when every line before line i passes and line i fails, the request fails with line i's error |
| OrderSpec.StockAfterCreate | apps/orders/views/views.py:108-111 | the writes of the second pass as written add and remove no variant |
| OrderSpec.UnnamedVariantUntouched | apps/orders/views/views.py:108-111 | creation as written leaves a variant no line names at its count |
| OrderSpec.LastWriteWins | apps/orders/views/views.py:58-111 | creation as written leaves a variant at the count before the request minus the quantity of the last line naming it |
| OrderSpec.SingleLineVariant | apps/orders/views/views.py:58-111 | a variant named by exactly one line of an accepted request ends at its count minus that line's quantity, which is not negative |
| OrderSpec.CreateKeepsStockNonNegative | apps/orders/views/views.py:62-111 | creation as written never leaves a count that was not negative below zero |
| OrderSpec.DistinctLinesSubtractExactly | apps/orders/views/views.py:108-111 | when no variant is named twice, creation as written takes from each variant exactly the quantity requested of it |
| OrderSpec.Restock | apps/orders/views/views.py:158-162 | cancellation adds and removes no variant |
| OrderSpec.RestockAddsQuantities | apps/orders/views/views.py:158-162 | cancellation gives each variant back the whole quantity the order's items hold of it, adding to its current count |
| OrderSpec.CancelUndoesCreate | apps/orders/views/views.py:108-162 | when no variant is named twice, cancelling right after creating as written restores every stock count |
| OrderSpec.DuplicateVariantOversells | apps/orders/views/views.py:58-111 | two lines of 3 on a variant holding 5 are both accepted as written: 6 pairs are sold, the count ends at 2, and cancelling raises it to 8 |
| OrderSpec.ReserveRunning | apps/orders/views/views.py:43-111 | creation with each line checked against the stock the earlier lines left adds and removes no variant |
| OrderSpec.ReserveRunningStopsAtFailure | apps/orders/views/views.py:43-119 | once a prefix of the lines fails, the whole request fails with that error |
| OrderSpec.ReserveRunningExact | apps/orders/views/views.py:62-111 | the corrected creation takes from each variant exactly the total quantity the lines request of it, and leaves every variant it takes from non-negative |
| OrderSpec.ReserveAgreesWhenDistinct | apps/orders/views/views.py:43-111 | when no variant is named twice, the corrected creation accepts what the as-written one accepts and leaves the same stock |
| OrderSpec.ReserveFailsAlikeWhenDistinct | apps/orders/views/views.py:43-119 | when no variant is named twice, the corrected creation rejects what the as-written one rejects, with the same error |
| OrderSpec.ReservedThenCancelledRestores | apps/orders/views/views.py:108-162 | cancelling an order created with the corrected check restores every stock count, duplicate lines or not |
| OrderSpec.DuplicateVariantRejectedWhenReserving | apps/orders/views/views.py:62-65 | the corrected check rejects the second line of the oversell example, reporting 2 pairs available |
| Views.OrderDetail | apps/orders/views/views.py:124-134 | an order is found exactly when one with that id belongs to the user; an order of another user is not found |
| Views.OrderList | apps/orders/views/views.py:13-19 | the list holds exactly the user's orders, newest first (ids strictly decreasing) |
| Views.StoreAppend | apps/orders/views/views.py:82-106 | storing a well-formed order under the next id keeps every stored order numbered and well formed |
| Views.StoreSetStatus | apps/orders/views/views.py:164-165 | changing a stored order's status keeps the store numbered and well formed |
| Views.PlacedOrderWellFormed | apps/orders/views/views.py:67-106 | an order placed from a validated non-empty request whose variants exist has totals that add up, positive quantities and existing variants |
| Views.Shop.CreateOrder | apps/orders/views/views.py:24-119 | an invalid request fails with its fields, an empty list fails, otherwise the corrected check decides; on success the order is stored under the next id with the request's details and the products' current prices, and each variant loses exactly the quantity requested of it; on failure nothing changes; non-negative stock stays non-negative |
| Views.Shop.PlaceOrder | apps/orders/views/views.py:37-119 | the all-or-nothing part of creation, with the same outcome as the corrected check and the same stored order and stock |
| Views.Shop.ReserveLines | apps/orders/views/views.py:40-76 | checks the lines in order against a running copy of the stock; agrees with the corrected check on success, failure and error, builds one item per line at the product's price, and totals them |
| Views.Shop.CheckLine | apps/orders/views/views.py:44-65 | one line's checks, with the same outcome as OrderSpec.ResolveLine |
| Views.Shop.CancelOrder | apps/orders/views/views.py:142-170 | a missing order or another user's fails as not found; one past confirmation fails with its status; otherwise it becomes cancelled, no other order changes, and stock gets each item's quantity back; non-negative stock stays non-negative |

## Left out

- HTTP plumbing is not modelled: requests, responses, status codes, authentication and the output serializers. The caller's identity is a parameter.
- The database is not modelled. A transaction that rolls back is modelled by "nothing changes on failure".
- Two requests running at the same time are not modelled, and neither is row locking. Each operation runs alone.
- The error messages are not modelled. Errors are datatype values that carry the same data: product id, product name, size name and available count.
- Timestamps are not modelled (`created_at`, `updated_at`, `paid_at` values). Creation order stands in for `created_at` ordering.
- Nothing in the core sets `is_paid` or `paid_at` after creation, so the model only fixes their defaults.
- Deleting products, users or size variants is not modelled. A variant that has gone from the catalog is treated as no size when an order is cancelled.
- The money columns of a stored order can overflow their 10 digits; this is not modelled. Subtotal and total are unbounded integers. Only the delivery price, which is validated, is proved to fit.
- Integer fields given as text ("3") are not parsed; an integer field is given as a number or not at all. Bodies of the wrong shape (a list where an object is expected) are not modelled.
- Django REST framework also rejects text holding NUL characters and surrogates; this is not modelled.
- Product prices and stock counts come from the catalog as given. The product and size records themselves are not part of this model.
- A product with two size records of the same name would make the size lookup fail; the catalog here is a map, so it cannot hold such a duplicate.
- Quantities are positive because validation makes them so. The column's own non-negative constraint is not modelled separately.
- In the source, the order row is saved before its item rows. The model builds the whole order with its items and stores it in one step.
- Views.Shop.PlaceOrder: checks each sized line against the stock left by the earlier lines of the same request, instead of against the count read before the request, so it rejects a second line on the same variant that the code accepts. This is the correction in Findings; `OrderSpec.Resolve` keeps the code as written.
- Views.Shop.ReserveLines: checks each sized line against a running copy of the stock instead of against the count read before the request, so it rejects a second line on the same variant that the code accepts. This is the correction in Findings; `OrderSpec.Resolve` keeps the code as written.
- Views.Shop.CreateOrder: checks each sized line against the stock left by the earlier lines of the same request, instead of against the count read before the request. This is the correction in Findings. `OrderSpec.Resolve` and `OrderSpec.StockAfterCreate` model the code as written, and `OrderSpec.ReserveAgreesWhenDistinct` and `OrderSpec.ReserveFailsAlikeWhenDistinct` show the two agree whenever no variant is named twice.

## Findings

| source | as written | input that shows it | evidently intended | confidence | as-written member | corrected member |
|---|---|---|---|---|---|---|
| apps/orders/views/views.py:58-111 | every line is checked against the stock count read before any line is applied, and the second pass sets the variant to that count minus the line's quantity | variant "42" of a product holds 5; one request has two lines of 3 for it | each line is checked against the stock the earlier lines of the same request leave, so the second line is rejected with 2 available | high; not executed | OrderSpec.DuplicateVariantOversells | OrderSpec.ReserveRunningExact |

Under the input above, both lines pass the check and 6 pairs are sold out of 5. The count ends at 2, because the second write overwrites the first. Cancelling the order then adds 3 twice, raising the count to 8. Stock has been created from nothing.

The corrected reservation, `OrderSpec.ReserveRunning`, takes from each variant exactly what the lines request. It never takes a variant below zero (`OrderSpec.ReserveRunningExact`), and cancellation always undoes it (`OrderSpec.ReservedThenCancelledRestores`). `OrderSpec.DuplicateVariantRejectedWhenReserving` shows it rejecting the example. `Views.Shop.CreateOrder` uses it.
