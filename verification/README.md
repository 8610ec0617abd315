# Order ledger, invoices, limits, printing, scanning and purchases

A Dafny model of the accounting core of a sales back office, and of the small protocols and
algorithms around it. Amounts are whole cents; a tax rate is a whole number of hundredths of a
percent.

The order ledger is modelled twice over. Functions on plain values say what every operation
does (`Orders`, `Payments`, `Repository`, `UseCases`). Classes do the same in place, entity by
entity and row by row, and are proved to agree with the functions (`OrderEntity`, `Payments`,
`Session`). Theorems then speak about the functions: one request (`Deliveries`, `Totals`,
`OrderInvariant`, `Footprints`), exactly which requests are committed and what they leave
(`OrderRequests`, `Acceptance`), the store invariant every request keeps (`Ledger`), and whole runs
of requests from the empty store (`Runs`, `Invoices`, `Witnesses`). A request either commits
everything it wrote or nothing, as the session dependency does.

- `Money`, `Sums`, `Text`, `Options`: rounding, sums over tables, trimming, optional values.
- `Orders`, `OrderEntity`, `Payments`, `Repository`, `UseCases`, `Session`: the entities, their
  rows, the use cases and the session that rolls a failed request back.
- `OrderInvariant`, `Ledger`, `Footprints`, `OrderRequests`, `Acceptance`, `Runs`, `Totals`,
  `Deliveries`, `Invoices`, `Witnesses`: the results.
- `Idempotency`: the protocol of payments and order creation as interleaved steps of any number of
  callers on one Redis entry. `IdempotencyEndpoint`: one request as it runs, loop and all, with
  others acting between any two of its steps. `DuplicateRuns`: exactly when the protocol can keep
  two runs.
- `RateLimiter`: the sliding window in memory and in a Redis sorted set, both against the full log.
- `FrenchWords`, `FrenchPrinter`, `FrenchAmounts`: a reader of French number words that knows
  nothing of the printer, the phrases the printer prints, and the printer as it builds its text.
- `OcrNumbers`, `OcrSplit`, `OcrRows`: the number parser, the split of amounts at the end of a table
  line, and the grouping of recognised words into rows.
- `Purchases`, `Receipts`, `Procurement`, `PurchaseRuns`, `PurchaseRequests`: purchase orders,
  receipts and stock.

What the code does differently from what one would expect, with the exact condition where it is one
of the code's own rules:

- `balance_due` adds refunds that already left the paid amount (`Totals.BalanceDueExact`; the run of
  `Witnesses.BalanceDueOffAfterRefund`).
- A discount that fits only thanks to the shipping leaves an order that can never be delivered in
  full (`Totals.DeliverableDiscounts`, `OrderRequests.CompletionCommitted`). Parts of it can fail too,
  whenever what is delivered is not worth its share of the discount
  (`OrderRequests.DeliveryCommitted`; the run of `Witnesses.ShippingDiscountBlocksDelivery`).
- An order whose total is zero accepts any payment (`Acceptance.PaymentAccepted`), and a refund is
  not bounded by the transaction it names (`Acceptance.RequestAccepted`).
- Quote lines may be blank and quote currencies short, so converting such a quote commits a row that
  no use case can load or answer with again (`Runs.CommittedOrdersWellFormed`). Conversion also
  leaves the stored totals at zero (`Runs.ConvertedTotalsStale`).
- When a 30-second marker expires under a request that is still running, and only then, two requests
  with the same key can both be carried out (`DuplicateRuns.ExpiryOpensTheDoor`,
  `DuplicateRuns.TimelyExactlyWhenSafe`; the run of `Idempotency.EarlyExpiryRunsTwice`).
- The last group of a number written 1.680.000 is read as decimals (`OcrNumbers.WholeNumbers`).
- The printer writes "cents" for a single round hundred and before a thousand, where its own example
  (pdf_service.py:118) has "cinq cent mille"; the model follows the code
  (`FrenchAmounts.HundredThousands`).

## Model

| member | source | states |
|---|---|---|
| `Money.FloorSumBounds` | backend/app/infrastructure/external/pdf/pdf_service.py:1394-1403 | n amounts rounded down one by one sum to at most the rounded-down whole and fall short of it by at most n - 1, for any number of amounts and any factor |
| `Money.HalfUpNearest` | backend/app/domain/value_objects/money.py:62-65 | half-up tax is the nearest whole cent, the higher of two equally near ones, and nothing else is |
| `Money.TruncatedBelow` | backend/app/infrastructure/repositories/order_repository.py:221 | truncated tax is the highest whole cent that subtotal times rate reaches, and nothing else is |
| `Money.HalfUpAboveTruncated` | backend/app/domain/value_objects/money.py:62-65 | half-up tax is never below truncated tax and at most one cent above it |
| `Totals.DeliveredTotalBounds` | backend/app/domain/entities/order.py:157-180 | when the discount fits goods plus tax, the delivered total exists and is not negative in every delivery state, equals the total when fully delivered, and passes the goods total by at most one cent while partial (delivered ratio as an exact quotient) |
| `Totals.DeliverableDiscounts` | backend/app/domain/entities/order.py:173-181 | every delivery state has a delivered total if and only if the goods are free or the discount fits goods plus half-up tax (delivered ratio as an exact quotient) |
| `Totals.FullyDeliveredTotal` | backend/app/domain/entities/order.py:173-181 | fully delivered, an order has a delivered total if and only if the goods are free or the discount fits goods plus half-up tax, whatever the shipping |
| `Totals.SumsTogether` | backend/app/domain/entities/order.py:139-144 | the three line sums are pinned: one line adds quantity (ordered, delivered, invoiced) times price, and lists add up |
| `Totals.BalanceDueExact` | backend/app/domain/entities/order.py:211-214 | the balance is what is still owed if and only if nothing was refunded or nothing would be owed even with the refunds added back |
| `Witnesses.BalanceDueOffAfterRefund` | backend/app/domain/entities/order.py:211-214 | a run from the empty store, for any price and any part of it refunded, after which the balance is twice what is owed |
| `Deliveries.LoopMeetsSums` | backend/app/domain/entities/order.py:302-333 | the delivery loop gets through if and only if every entry names a line and no line gets more, repeated entries summed, than is left of it; each line then grows by its own sum |
| `Deliveries.DeliveryAccepted` | backend/app/domain/entities/order.py:302-333 | a delivery is accepted if and only if the status allows it and the list fits and delivers something; it then strictly lowers what is left by what the list delivers and ends in DELIVERED exactly when nothing is left |
| `OrderEntity.Order.RecordDelivery` | backend/app/domain/entities/order.py:302-333 | the in-place loop leaves the order the specified function gives, or refuses exactly when that does |
| `OrderEntity.Order.UpdateItem` | backend/app/domain/entities/order.py:246-272 | field-by-field line edit, with its guards, as specified |
| `OrderEntity.Order.RemoveItem` | backend/app/domain/entities/order.py:237-244 | removal by id under the edit guard, as specified |
| `OrderEntity.Order.ApplyPayment` | backend/app/domain/entities/order.py:357-366 | paid amount and payment status after a payment, or an error |
| `OrderEntity.Order.ApplyRefund` | backend/app/domain/entities/order.py:368-378 | paid and refunded amounts and payment status after a refund, or an error |
| `OrderEntity.Order.UpdatePaymentStatus` | backend/app/domain/entities/order.py:380-392 | the payment status becomes the classification of paid, refunded, total and due date |
| `Payments.CompletesOnce` | backend/app/domain/entities/payment.py:69-74 | a transaction completes if and only if it is neither completed nor reversed, and never a second time |
| `Payments.DecidedOnce` | backend/app/domain/entities/payment.py:152-181 | an open refund is approved for at most what was asked and then can only be completed, or rejected for a reason; a rejected or completed one accepts nothing more |
| `Payments.PaymentTransaction.Complete` | backend/app/domain/entities/payment.py:69-74 | completion of a transaction that is not completed or reversed |
| `Payments.Refund.ApproveRefund` | backend/app/domain/entities/payment.py:152-162 | approval of an open request for at most the requested amount |
| `Payments.Refund.RejectRefund` | backend/app/domain/entities/payment.py:164-173 | rejection of an open request with a reason |
| `Payments.Refund.CompleteRefund` | backend/app/domain/entities/payment.py:175-181 | completion of an approved refund records its transaction |
| `Repository.SaveThenLoad` | backend/app/infrastructure/repositories/order_repository.py:88-124 | saving and loading gives back every modelled field and all lines, and succeeds exactly for proper lines in a three-letter currency |
| `Repository.SavedAmounts` | backend/app/infrastructure/repositories/order_repository.py:219-224 | the stored tax is the highest whole cent the rate gives on the line sum, and the stored total is line sum, tax and shipping less discount |
| `Repository.SavedTotals` | backend/app/infrastructure/repositories/order_repository.py:219-224 | the stored subtotal is the line sum and the stored total is the exact one or one cent less |
| `Session.Session.CreateOrder` | backend/app/application/use_cases/order/create_order.py:26-41 | the use case, with lines added one at a time, writes what its function on the tables says |
| `Session.Session.ConvertQuote` | backend/app/api/v1/endpoints/quotes.py:454-503 | the rows a converted quote leaves, totals still zero |
| `Session.Session.UpdateOrder` | backend/app/application/use_cases/order/manage_order.py:62-99 | load, edit under the guard, save, respond |
| `Session.Session.RecordDelivery` | backend/app/application/use_cases/order/manage_order.py:218-228 | load, deliver, save, respond |
| `Session.Session.GenerateInvoice` | backend/app/infrastructure/external/pdf/pdf_service.py:172-200 | the loop that marks delivered quantities as invoiced |
| `Session.Session.RecordPayment` | backend/app/application/use_cases/payment/record_payment.py:26-63 | validate, complete the transaction, apply it to the order and save both |
| `Session.Session.RequestRefund` | backend/app/application/use_cases/refund/manage_refund.py:35-61 | an open request against an existing transaction of the order |
| `Session.Session.ApproveRefund` | backend/app/application/use_cases/refund/manage_refund.py:75-117 | the refund transaction is written before the order agrees; the outcome is that of the function |
| `Session.Session.RejectRefund` | backend/app/application/use_cases/refund/manage_refund.py:124-134 | the rejected request is written back |
| `Session.Session.Handle` | backend/app/core/database.py:39-49 | a request commits what its function gives or leaves the tables exactly as they were, half-written rows included |
| `Session.Session.Serve` | backend/app/core/database.py:39-49 | any number of requests in turn leave what the run of their functions leaves |
| `Ledger.StepKeeps` | backend/app/core/database.py:39-49 | every request keeps the whole store invariant: rows, transactions, refunds and the balance between them |
| `Ledger.RunKeeps` | backend/app/core/database.py:39-49 | so does every run |
| `Footprints.WritesTarget` | backend/app/application/use_cases/order/manage_order.py:58-228 | a request writes one order row at most, the one it names |
| `Footprints.OthersUntouched` | backend/app/application/use_cases/order/manage_order.py:58-228 | every other order, present or not, stays as it was |
| `Runs.LedgerConservation` | backend/app/application/use_cases/refund/manage_refund.py:83-115 | after any run from the empty store the paid amount is completed payments less completed refunds, and the refunded amount is completed refunds and also what completed requests granted |
| `Acceptance.ClassifyExactly` | backend/app/domain/entities/order.py:380-392 | each payment status, with its exact condition on paid, refunded, total, due date and today |
| `Acceptance.PaymentWritten` | backend/app/application/use_cases/payment/record_payment.py:26-63 | a committed payment leaves one completed transaction of its amount and the order with that much more paid, classified by it; nothing else changes |
| `Acceptance.PaymentAccepted` | backend/app/domain/services/order_domain_service.py:30-51 | a payment is accepted if and only if the order is live and past draft, the amount positive and, when the total is positive, within it; a zero total takes any amount |
| `Acceptance.ApprovalAccepted` | backend/app/application/use_cases/refund/manage_refund.py:75-117 | an approval commits if and only if the request is open, grants at most what was asked and the order has that much paid on it |
| `Acceptance.GrantedExactly` | backend/app/domain/entities/payment.py:152-162 | an approval grants the amount given, and everything requested when none or zero is given |
| `Acceptance.ApprovalWritten` | backend/app/application/use_cases/refund/manage_refund.py:75-117 | a committed approval leaves one completed refund transaction, the order with the amount moved from paid to refunded, and the refund completed by that transaction; nothing else changes |
| `Acceptance.RejectionAccepted` | backend/app/application/use_cases/refund/manage_refund.py:124-134 | a rejection is committed if and only if the request is open and the reason not blank; the refund is then rejected with that reason and nothing else changes |
| `Runs.RejectedForGood` | backend/app/domain/entities/payment.py:164-173 | after a rejection and any further run the refund is still rejected with its reason, every approval of it is refused and no transaction serves it |
| `Runs.RefundFinal` | backend/app/domain/entities/payment.py:152-181 | a rejected or completed refund never changes again, over any run |
| `Runs.RefundsMoveOnce` | backend/app/application/use_cases/refund/manage_refund.py:83-115 | over any run each completed refund has its own refund transaction of at most the requested amount, no two share one, open and rejected ones have none, and there is no refund transaction without its refund |
| `Acceptance.RequestAccepted` | backend/app/application/use_cases/refund/manage_refund.py:35-61 | a refund request is committed if and only if the order is live, the transaction is one of its own and the amount positive and within what is paid, whatever that transaction was for; it leaves one open request of that amount and nothing else |
| `Acceptance.NotFoundExactly` | backend/app/application/use_cases/order/manage_order.py:31-228 | a request is answered with not found if and only if what it names is missing |
| `Acceptance.ClientRefused` | backend/app/application/use_cases/order/create_order.py:28-34 | a new order is answered with not found if and only if its client is missing, and breaks a rule if and only if the client is not active |
| `Acceptance.PaymentRefused` | backend/app/domain/services/order_domain_service.py:30-51 | which payments are refused for the state of the order, which break a rule and which are duplicates, each if and only if |
| `Acceptance.RequestRefused` | backend/app/application/use_cases/refund/manage_refund.py:35-61 | a refund request has its own error if and only if it passes what is paid, and breaks a rule if and only if it is for nothing |
| `Acceptance.DecisionRefused` | backend/app/domain/entities/payment.py:152-173 | approving and rejecting break a rule if and only if the request is not open, more is granted than requested, or the reason is blank |
| `Text.StripExactly` | backend/app/domain/entities/order.py:246-260 | trimming takes away white space at both ends, all of it and nothing else |
| `Text.BlankExactly` | backend/app/domain/entities/payment.py:167-168 | a text is blank if and only if it is all white space |
| `OrderRequests.CreateCommitted` | backend/app/application/use_cases/order/create_order.py:26-41 | an order is created if and only if the client is active, the id new, the currency of three letters, every line proper under an id of its own and the discount fits; the row has the terms of the request and its lines one for one, in order |
| `OrderRequests.ConvertCommitted` | backend/app/api/v1/endpoints/quotes.py:454-503 | a quote is converted if and only if the order id is new and the line ids are distinct, whatever it says; the row has its currency, tax rate and lines, no discount or shipping and zero totals |
| `OrderRequests.AddCommitted` | backend/app/application/use_cases/order/manage_order.py:155-173 | a line is added if and only if the order is live, loadable and untouched by money or goods, the line proper and new and the discount still fits; it comes after the lines already there |
| `OrderRequests.RemoveCommitted` | backend/app/application/use_cases/order/manage_order.py:180-189 | a line is removed under the same conditions if and only if the order has it and the discount still fits; the other lines stay in order |
| `OrderRequests.LineEditCommitted` | backend/app/application/use_cases/order/manage_order.py:196-211 | a line is edited under the same conditions if and only if the data given is proper; it changes what is given on that line and nothing else |
| `OrderRequests.TermsEdited` | backend/app/application/use_cases/order/manage_order.py:62-99 | an edit of terms or lines is committed if and only if the order is live, loadable and untouched by money or goods, the lines it puts are proper and the discount fits what the order then costs; it changes what it gives and nothing else |
| `OrderRequests.ConfirmCommitted` | backend/app/application/use_cases/order/manage_order.py:106-116 | an order is confirmed if and only if it is a live, loadable draft with a line and a total; only its status changes |
| `OrderRequests.CancelCommitted` | backend/app/application/use_cases/order/manage_order.py:123-133 | an order is cancelled if and only if it is live, loadable and draft or confirmed, money on it or not; only its status changes |
| `OrderRequests.DeleteCommitted` | backend/app/application/use_cases/order/manage_order.py:140-148 | an order is deleted if and only if it is live, loads and is draft or cancelled; it is marked and nothing else changes |
| `OrderRequests.StateRefused` | backend/app/application/use_cases/order/manage_order.py:62-228 | an edit of a live order is refused for its state if and only if the order loads and its state forbids that change, case by case |
| `OrderRequests.InvoiceRefused` | backend/app/infrastructure/external/pdf/pdf_service.py:181-186 | in every reachable store an invoice is refused for the state of an order if and only if it is draft or cancelled |
| `OrderRequests.DeletionRefused` | backend/app/application/use_cases/order/manage_order.py:140-148 | a deletion is refused for the state of an order if and only if it is live, loads and is neither draft nor cancelled |
| `OrderRequests.InvoiceCommitted` | backend/app/infrastructure/external/pdf/pdf_service.py:172-200 | in every reachable store an invoice is issued if and only if the order is neither draft nor cancelled; every line then has all its delivered quantity invoiced and nothing else changes |
| `OrderRequests.DeliveryCommitted` | backend/app/application/use_cases/order/manage_order.py:218-228 | a delivery is committed if and only if the order is live and deliverable, the list delivers something and fits, and what is then delivered is worth its share of the discount; each line grows by its own sum and nothing else changes |
| `OrderRequests.CompletionCommitted` | backend/app/application/mappers/order_mapper.py:44-60 | a list that would complete an order is committed if and only if the goods are free or the discount fits goods plus tax |
| `Witnesses.ShippingDiscountBlocksDelivery` | backend/app/domain/entities/order.py:173-181 | a run from the empty store after which neither one unit nor both can be delivered, because the discount only fits thanks to the shipping |
| `Runs.ClosedStep` | backend/app/domain/entities/order.py:195-201 | once an order cannot be edited, one request leaves its terms and delivered quantities only grow |
| `Runs.FrozenWhilePaid` | backend/app/domain/services/order_domain_service.py:30-51 | while money is on an order no request changes its total, paid stays within a positive total and the payment status is the code's classification of the current amounts on any day |
| `Runs.FrozenOnceDelivered` | backend/app/domain/entities/order.py:195-201 | once anything is delivered the terms and total stay for the rest of any run |
| `Runs.DeliveryMachine` | backend/app/domain/entities/order.py:302-350 | in every reachable store 0 <= invoiced <= delivered <= quantity on every line and the status says exactly how far the delivery is |
| `Runs.StoredTotalsTrack` | backend/app/infrastructure/repositories/order_repository.py:219-224 | past draft, in every reachable store, the stored totals are the line sum and at most one cent below the exact total |
| `Runs.ConvertedTotalsStale` | backend/app/api/v1/endpoints/quotes.py:473-497 | the stored totals of a converted quote are right if and only if the quote is free |
| `Runs.CommittedOrdersWellFormed` | backend/app/infrastructure/repositories/order_repository.py:142-188 | all rows of a reachable store reload and have both totals if and only if the run never converted a quote with a blank line or a currency that is not three letters |
| `Runs.BlankQuoteLineBreaks` | backend/app/api/v1/endpoints/quotes.py:37-50 | one conversion of a quote with a blank line leaves a row that cannot be loaded |
| `Invoices.BilledDelivered` | backend/app/infrastructure/external/pdf/pdf_service.py:1380-1398 | a delivered-only invoice bills exactly what was delivered and not yet invoiced |
| `Invoices.InvoicesTelescope` | backend/app/infrastructure/external/pdf/pdf_service.py:194-200 | over any run the invoice subtotals add up to the growth of the invoiced value, all computed from the same rate, discount and subtotal |
| `Invoices.PartialInvoicesAddUp` | backend/app/infrastructure/external/pdf/pdf_service.py:1380-1403 | from the first delivery through any run to full invoicing, k invoices have subtotals that sum to the order subtotal, taxes and discount shares that fall short of the whole by at most k - 1 cents, and totals within k - 1 cents of subtotal plus tax less discount |
| `Invoices.SeriesBounds` | backend/app/infrastructure/external/pdf/pdf_service.py:435-441 | the same bounds for any series of invoices whose subtotals add up to the whole |
| `Invoices.WholeOrderBilled` | backend/app/infrastructure/external/pdf/pdf_service.py:1380-1403 | an invoice before any delivery bills every line in full, the truncated tax on it and the whole discount |
| `Invoices.LastInvoice` | backend/app/infrastructure/external/pdf/pdf_service.py:181-198 | a fully delivered order of a reachable store is invoiced on request, and nothing is left to invoice |
| `Invoices.SeriesEnds` | backend/app/infrastructure/external/pdf/pdf_service.py:181-198 | so any run that delivers everything is ended by one more request that leaves the order fully invoiced |
| `Idempotency.RunKeeps` | backend/app/api/v1/endpoints/payments.py:55-113 | every interleaving of any number of callers keeps the protocol invariant while no marker expires under its owner |
| `Idempotency.Idempotent` | backend/app/api/v1/endpoints/payments.py:55-113 | at most one caller at work, at most one kept run per lifetime of a stored response, and every answered caller gets the response of that run |
| `Idempotency.DeletesOwnMarker` | backend/app/api/v1/endpoints/payments.py:77-85 | a failing caller deletes only the marker it put there |
| `Idempotency.PublishesOverOwnMarker` | backend/app/api/v1/endpoints/payments.py:109-113 | a succeeding caller overwrites only its own marker |
| `Idempotency.EarlyExpiryRunsTwice` | backend/app/api/v1/endpoints/payments.py:57-58 | an interleaving with an early expiry that keeps two runs in one lifetime |
| `DuplicateRuns.DuplicatesExactlyWhen` | backend/app/api/v1/endpoints/payments.py:55-113 | after any run, early expiries included, two runs can come to be kept in one lifetime if and only if some caller works without owning the marker or the current lifetime has a kept run whose response is not stored |
| `DuplicateRuns.ExpiryOpensTheDoor` | backend/app/api/v1/endpoints/payments.py:57-58 | from a timely run, the one step that makes a second run possible is the expiry of a marker whose owner is at work |
| `DuplicateRuns.TimelyExactlyWhenSafe` | backend/app/api/v1/endpoints/payments.py:55-113 | an interleaving is timely if and only if at no point of it a second run in one lifetime is or becomes possible |
| `Idempotency.WaitingIsBounded` | backend/app/api/v1/endpoints/payments.py:59-71 | whatever others do meanwhile, a waiting caller is done after 21 reads, answered exactly when one of them found a stored response |
| `Idempotency.NewcomerExactly` | backend/app/api/v1/endpoints/payments.py:55-75 | a new caller wins the claim if and only if the entry is gone, is answered with a stored response at its first read, and otherwise has twenty reads left |
| `Idempotency.EntryFreedExactly` | backend/app/api/v1/endpoints/payments.py:77-113 | the entry goes if and only if a failed caller deletes it or its time is up, and only the end of a stored response ends a lifetime |
| `Idempotency.Replay` | backend/app/api/v1/endpoints/payments.py:77-113 | what a caller publishes is what every newcomer is answered, and after a failure a newcomer runs the use case again |
| `IdempotencyEndpoint.Endpoint.Poll` | backend/app/api/v1/endpoints/payments.py:59-71 | the polling loop, with others acting between reads, ends in the stored response or in a conflict after 21 reads |
| `IdempotencyEndpoint.Endpoint.Execute` | backend/app/api/v1/endpoints/payments.py:77-115 | publish after a success, delete after a failure, leave the marker behind when cancelled |
| `IdempotencyEndpoint.Endpoint.Request` | backend/app/api/v1/endpoints/orders.py:182-231 | a whole request, others acting between any two of its steps, makes exactly the steps of the protocol and replies with how far it got |
| `IdempotencyEndpoint.ForeignKeeps` | backend/app/api/v1/endpoints/payments.py:55-113 | what others do never changes how far a caller got |
| `RateLimiter.MemoryStore.Check` | backend/app/middleware/rate_limiter.py:36-46 | the pruning loop and the decision are those of the specified window; other keys are untouched |
| `RateLimiter.MemoryStore.CheckAll` | backend/app/middleware/rate_limiter.py:36-46 | any sequence of requests leaves the window of its log and admits what the log says |
| `RateLimiter.MemoryStore.Reset` | backend/app/middleware/rate_limiter.py:89-90 | only the named key is forgotten |
| `RateLimiter.MemWindowIsRecent` | backend/app/middleware/rate_limiter.py:36-46 | the store remembers exactly the admitted requests of the full log that are still in the window |
| `RateLimiter.MemRate` | backend/app/middleware/rate_limiter.py:36-46 | no window of one period, wherever it lies, holds more than the allowed number of admitted requests |
| `RateLimiter.MemRejectsExactlyWhenFull` | backend/app/middleware/rate_limiter.py:36-46 | a request is turned away if and only if exactly the allowed number were admitted in the window that ends with it |
| `RateLimiter.RedisStore.Check` | backend/app/middleware/rate_limiter.py:116-137 | prune, add, count and expire as one pipeline, on one key |
| `RateLimiter.RedisStore.CheckAll` | backend/app/middleware/rate_limiter.py:174-195 | any strictly increasing sequence of requests leaves the sorted set of its log, expiry included, and admits what the log says |
| `RateLimiter.RedisStore.Reset` | backend/app/middleware/rate_limiter.py:79-81 | only the named key is deleted |
| `RateLimiter.RedisStricter` | backend/app/middleware/rate_limiter.py:116-137 | on any strictly increasing attempts, what the Redis window admits the memory window admits too |
| `RateLimiter.RedisAdmitsExactly` | backend/app/middleware/rate_limiter.py:116-137 | Redis admits if and only if fewer than the allowed number of attempts, admitted or not, lie in the window that ends with the request |
| `RateLimiter.RedisRate` | backend/app/middleware/rate_limiter.py:116-137 | the Redis window keeps the same rate |
| `RateLimiter.ExpiryChangesNothing` | backend/app/middleware/rate_limiter.py:174-195 | the expiry of the key never changes the sorted set that pruning alone would leave |
| `RateLimiter.MemoryMoreLenient` | backend/app/middleware/rate_limiter.py:116-137 | the two differ: a request that memory admits and Redis turns away |
| `FrenchWords.SpellInjective` | backend/app/infrastructure/external/pdf/pdf_service.py:50-57 | no two number words are spelled alike |
| `FrenchPrinter.ReadTens` | backend/app/infrastructure/external/pdf/pdf_service.py:71-88 | the words of every number from 20 to 99, the irregular 70s and 90s included, read as that number |
| `FrenchPrinter.ReadBelow1000` | backend/app/infrastructure/external/pdf/pdf_service.py:60-91 | the words of every number below a thousand read as that number |
| `FrenchPrinter.ReadFrench` | backend/app/infrastructure/external/pdf/pdf_service.py:94-114 | the words of every positive number, milliards of milliards included, read as that number |
| `FrenchPrinter.RoundTrip` | backend/app/infrastructure/external/pdf/pdf_service.py:94-114 | an independent reader of French number words recovers every integer, negative ones included, from its printed text |
| `FrenchPrinter.PrinterInjective` | backend/app/infrastructure/external/pdf/pdf_service.py:94-114 | different numbers are printed differently |
| `FrenchAmounts.PrintTens` | backend/app/infrastructure/external/pdf/pdf_service.py:71-88 | the cases of the tens, as table texts, print the specified phrase |
| `FrenchAmounts.PrintBelow1000` | backend/app/infrastructure/external/pdf/pdf_service.py:60-91 | the list of parts joined with spaces is the specified text |
| `FrenchAmounts.HundredText` | backend/app/infrastructure/external/pdf/pdf_service.py:62-68 | hundreds take an s exactly when nothing follows below a hundred, a single one included |
| `FrenchAmounts.NumberWords` | backend/app/infrastructure/external/pdf/pdf_service.py:99-113 | group by group: one million or milliard in the singular after a one, several counted and in the plural, mille alone or counted and never in the plural |
| `FrenchAmounts.HundredThousands` | backend/app/infrastructure/external/pdf/pdf_service.py:107-109 | two to nine hundred thousand print as counted cents mille |
| `FrenchAmounts.PrintFrench` | backend/app/infrastructure/external/pdf/pdf_service.py:94-114 | the recursive printer, with its sign case and its list of parts, prints the specified text and terminates |
| `FrenchAmounts.PrintAmount` | backend/app/infrastructure/external/pdf/pdf_service.py:117-123 | capital words that read as the whole units of the amount, followed by FRANCS CFA for XAF, CFA and XOF and by the currency otherwise |
| `FrenchAmounts.AmountReads` | backend/app/infrastructure/external/pdf/pdf_service.py:117-123 | an amount in words, less its denomination, reads as the whole units of the amount |
| `FrenchAmounts.AmountDetermined` | backend/app/infrastructure/external/pdf/pdf_service.py:117-123 | for a given currency two amounts read alike if and only if their whole units are equal |
| `FrenchAmounts.CurrencyDetermined` | backend/app/infrastructure/external/pdf/pdf_service.py:117-123 | for three-letter currencies two amounts read alike if and only if their whole units agree and the currencies are the same or both CFA francs |
| `OcrNumbers.AllDigitsRead` | backend/app/infrastructure/external/ocr/ocr_service.py:289-307 | any text at all is read as a number if and only if it has a digit, and then with all its digits in order; only the place of the decimals is up to the marks |
| `OcrNumbers.AmountRoundTrip` | backend/app/infrastructure/external/ocr/ocr_service.py:289-307 | every amount in cents, with two decimals after a comma or a point and any separator between its groups of three or none, is read back exactly |
| `OcrNumbers.WholeNumbers` | backend/app/infrastructure/external/ocr/ocr_service.py:289-307 | a whole number without decimals is read back as itself, except that a last group set apart by a comma or a point is taken for decimals |
| `OcrNumbers.PointGroupsMisread` | backend/app/infrastructure/external/ocr/ocr_service.py:289-307 | 1.680.000 is read as 1680.000 |
| `OcrNumbers.ParseMarked` | backend/app/infrastructure/external/ocr/ocr_service.py:289-307 | any text with a decimal mark is read as its digits, the last mark setting off the decimals |
| `OcrSplit.BestSplit` | backend/app/infrastructure/external/ocr/ocr_service.py:657-666 | the search returns the first split with the least relative error, or none when no split gives a price and a total |
| `OcrSplit.ErrorExactly` | backend/app/infrastructure/external/ocr/ocr_service.py:662 | the error is the deviation relative to a total of at least one, and absolute below that |
| `OcrSplit.Least` | backend/app/infrastructure/external/ocr/ocr_service.py:666 | the first least element |
| `OcrSplit.OnlyExactSplit` | backend/app/infrastructure/external/ocr/ocr_service.py:657-663 | when a price and quantity times that price follow each other as any digit groups, exactly the split between them has no error |
| `OcrSplit.AmountsRecovered` | backend/app/infrastructure/external/ocr/ocr_service.py:657-666 | so the search returns exactly that price and that total |
| `OcrRows.GroupByY` | backend/app/infrastructure/external/ocr/ocr_service.py:506-519 | every word in exactly one row, rows within the tolerance and from left to right, starting further apart than the tolerance |
| `OcrRows.CollectRows` | backend/app/infrastructure/external/ocr/ocr_service.py:510-516 | the grouping loop over the sorted words |
| `OcrRows.SortStable` | backend/app/infrastructure/external/ocr/ocr_service.py:510-518 | the sort keeps words with the same key in order |
| `OcrRows.RowsFit` | backend/app/infrastructure/external/ocr/ocr_service.py:513 | every row fits into a band of the tolerated height |
| `OcrRows.FewestRows` | backend/app/infrastructure/external/ocr/ocr_service.py:506-519 | no way to put the words into bands of that height needs fewer bands |
| `Procurement.Procurement.SetTotals` | backend/app/api/v1/endpoints/purchases.py:181-186 | the loop over the lines computes the specified totals |
| `Procurement.Procurement.Create` | backend/app/api/v1/endpoints/purchases.py:325-360 | checks in order, then the row |
| `Procurement.Procurement.Update` | backend/app/api/v1/endpoints/purchases.py:391-426 | guard, checks in order, then the rewritten row |
| `Procurement.Procurement.Confirm` | backend/app/api/v1/endpoints/purchases.py:430-437 | draft to ordered |
| `Procurement.Procurement.Receive` | backend/app/api/v1/endpoints/purchases.py:441-466 | the receipt loop changes lines and stock as specified; a refused list changes neither |
| `Procurement.Procurement.Serve` | backend/app/api/v1/endpoints/purchases.py:325-466 | any number of requests leave what the run of their functions leaves |
| `PurchaseRequests.CreateCommitted` | backend/app/api/v1/endpoints/purchases.py:325-360 | a purchase is created if and only if the request is valid, everything it names is there, its scan is free and its ids are new; the row is a draft that records supplier, order, scan and every line with nothing received, and their cost and truncated tax |
| `PurchaseRequests.UpdateCommitted` | backend/app/api/v1/endpoints/purchases.py:391-426 | a purchase is rewritten if and only if it is draft or ordered and such a request comes; the row records the request and keeps its status |
| `PurchaseRequests.ConfirmCommitted` | backend/app/api/v1/endpoints/purchases.py:430-437 | a purchase is ordered if and only if it is a draft; only its status changes |
| `PurchaseRequests.CreateRefused` | backend/app/api/v1/endpoints/purchases.py:325-345 | malformed, not found, conflict and bad request, each if and only if, in the order of the checks |
| `PurchaseRequests.UpdateRefused` | backend/app/api/v1/endpoints/purchases.py:391-417 | the same for rewriting, where a purchase being received is a conflict before anything is looked up |
| `PurchaseRequests.ProgressRefused` | backend/app/api/v1/endpoints/purchases.py:430-452 | sending and receiving: not found, conflict for the wrong state, bad request for an empty list or one that does not fit, each if and only if |
| `PurchaseRequests.BoughtIntoStock` | backend/app/api/v1/endpoints/purchases.py:441-466 | created, ordered and received in full, a purchase ends received, the stock of every product has grown by what the request asked for of it and is tracked from then on, and no other product changes |
| `PurchaseRequests.CostTogether` | backend/app/api/v1/endpoints/purchases.py:181-186 | the cost of lines is pinned: one line costs quantity times price, and lists add up |
| `Receipts.LoopMeetsSums` | backend/app/api/v1/endpoints/purchases.py:447-452 | the receipt loop gets through if and only if the list, summed line by line, fits; each line then grows by its own sum |
| `Receipts.StockFollows` | backend/app/api/v1/endpoints/purchases.py:448-460 | each product stock grows by exactly what its lines receive, repeated lines and entries included |
| `Receipts.OtherStockKept` | backend/app/api/v1/endpoints/purchases.py:448-460 | the stock of any other product is untouched |
| `PurchaseRuns.RunKeeps` | backend/app/api/v1/endpoints/purchases.py:325-466 | in every reachable store no line passes its quantity, the status agrees with the receipts, the amounts are those of the lines and no scan backs two purchases |
| `PurchaseRuns.ReceiptAccepted` | backend/app/api/v1/endpoints/purchases.py:441-466 | a receipt list is taken if and only if the purchase is ordered or partially received and the list fits; the whole new store is given |
| `PurchaseRuns.ReceiptConservation` | backend/app/api/v1/endpoints/purchases.py:441-466 | over any run a stock gains, beyond other edits, exactly what all lines of all purchases have received of the product |
| `PurchaseRuns.FixedOnceReceived` | backend/app/api/v1/endpoints/purchases.py:391-394 | once anything is received the terms are fixed, receipts only grow, and a received purchase never changes again, over any run |

## Left out

- Whole-order invoices issued before any delivery: they do not touch invoiced quantities, so the
  invoice series starts at the first delivery. `Invoices.PartialInvoicesAddUp` requires that nothing
  was invoiced by then.
- Floating point: the delivered ratio (order.py:176), the discount share on invoices
  (pdf_service.py:1403), parsed numbers and relative errors are exact quotients here.
- Totals.DeliveredTotalBounds: reads the delivered ratio as an exact quotient.
- Totals.DeliverableDiscounts: reads the delivered ratio as an exact quotient.
- Totals.FullyDeliveredTotal: reads the delivered ratio as an exact quotient.
- OrderRequests.DeliveryCommitted: reads the delivered ratio as an exact quotient.
- Invoices.PartialInvoicesAddUp: reads the discount share as an exact quotient.
- Invoices.WholeOrderBilled: reads the discount share as an exact quotient.
- Invoices.SeriesBounds: reads the discount share as an exact quotient.
- OcrSplit.ErrorExactly: errors are exact quotients.
- OcrSplit.BestSplit: errors are compared as exact quotients.
- Payments.PaymentTransaction.Complete: does not record the completion time.
- Payments.Refund.ApproveRefund: does not record who approved and when.
- Payments.Refund.RejectRefund: records the reason, but not who rejected and when.
- Payments.Refund.CompleteRefund: does not record the completion time.
- Repository.SaveThenLoad: covers the modelled fields only, not numbers, references, notes, actors
  and timestamps.
- Session.Session.ConvertQuote: carries the quote's contents with the request; the quote's own status
  and the guard that converts it only once are not modelled.
- IdempotencyEndpoint.Endpoint.Request: does not model the fall-back to no protection when Redis is
  down, nor Redis failures after the claim.
- Idempotency.Idempotent: assumes that no marker expires before its owner is done (`DuplicateRuns`
  says what happens otherwise). A database commit that fails after the response was published is not
  modelled.
- RateLimiter.RedisStricter: attempts are strictly increasing, since equal clock readings share one
  member of the sorted set. The fall-back from Redis to memory within one run is not modelled.
- Column widths, the 28 digits of decimal arithmetic and rates finer than a hundredth of a percent
  before a column rounds them.
- Concurrent database sessions: the repository takes no locks, so requests run one after the other.
- Order lines are values in a sequence in the class `Order`: two references to one line object are
  not captured, nor is the order in which the database returns lines.
- Statuses in production, ready, disputed and archived: no modelled use case sets them. `deliver`,
  `start_production`, `mark_ready` and `archive` have no caller among the use cases.
- Payments that fail, refunds under review and cancelled refunds: no use case reaches those states.
- Quote editing and its totals.
- Numbers, references, notes, item codes, actors and timestamps other than due date and today;
  freshness of drawn row ids becomes a duplicate-key refusal.
- Organisations: all rows belong to one.
- PurchaseRequests.CreateCommitted: records the modelled fields only, not descriptions, units, currencies,
  dates and notes.
- PurchaseRequests.UpdateCommitted: records the modelled fields only, as above.
- Purchases: descriptions, units, currencies, dates and notes; a request that edits a stock by other
  means is any new stock (`SetStock`). Deleting a scan or a product is left out.
- Mobile money (its router is not mounted), clients, products, suppliers, reports, authentication,
  notifications, audit entries, PDF layout.
- Recognition itself and the regular expressions that find vendor, dates, headers and columns. Only
  the digits 0 to 9 count as digits, and `OcrSplit` starts at the tokens of the amounts.
- Upper case is modelled on the letters that number words are written with.
