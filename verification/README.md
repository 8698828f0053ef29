# Settlement pipeline: order, payment, receipt

A Dafny 4.11 model of how cartix takes money for an order and tells the customer about it, with proofs of
what the pipeline guarantees. Three services take part, and they agree only through at-least-once messages and
idempotent updates:

1. The order service prices an order against the catalog, stores it, and asks the payments service to open a
   payment (a Stripe session and a pending row).
2. Stripe calls the payments webhook, possibly many times and in any order. Each call merges the event into the
   payments table and publishes `payment.succeeded`.
3. The order service consumes that message and marks the order paid, next to admins who change statuses by hand.
4. The notification service consumes the same message and mails one receipt per payment, using Redis keys as locks.

No single function of the program states what these steps guarantee together. The main results here do:

- **Provenance** (`Settlement.Provenance`, `Settlement.ReceiptProvenance`): in every run a paid order was set by an
  admin or by the delivery of a published event - the step after which it stayed paid - and that event was published
  after a row with the same order, email, amount and currency was saved as succeeded.
- **Conservation** (`Conservation.ConservationEndToEnd`): what the catalog priced is what the payment row, every
  message and the receipt show, whatever amount Stripe's events carry.
- **One row, one receipt** (`OnePayment.OneReceiptPerStripePayment`): whatever the order of Stripe's events, with
  overlapping calls, retries, failures and concurrent handlers, the messages about a Stripe payment name one row and
  at most one receipt is sent. `OnePayment.SettledOnPendingRow` says exactly when that row is the pending one.
- **What overlap loses** (`Overlap.WriteOnceFields`, `Overlap.SerialIsWriteOnce`): exactly which interleaved saves
  keep what earlier ones set.
- **At most one and at least one receipt** (`ConcurrentReceipts.AtMostOneReceipt`, `ReceiptProtocol.NoReceiptLost`).
- **Exactly-once effect** of at-least-once delivery on orders (`OrderConsumer.ExactlyOnceEffect`).
- **The cart is a map, and checkout charges what it shows** (`CartStore.CartRefinesMap`,
  `Checkout.OrderService.CheckoutCart`).
- **Printing and parsing lose nothing** (`Amounts.AmountReversible`, `Signature.HeaderRoundTrip`).

## How it is modelled

- Objects whose methods change state are classes (`PaymentRepo`, `Handler`, `OrderRepo`, `Worker`, `CartRepo`,
  `OrderService`, `DedupeStore`, `ReceiptWorker`). Their methods are proved equal to step functions on values;
  the lemmas about runs are about those functions. Loops of the program are loops here.
- A table is a map under its primary key. A unique index is a guard on every write. NULL matches nothing.
- A message stays on the stream, so it may be delivered any number of times and in any order. A worker's endless
  fetch loop is modelled over an arbitrary finite list of fetched batches.
- Whatever a call to another system can answer is a parameter: failing statements, lost Redis replies, send and
  acknowledgement failures, clock readings, the catalog's and Stripe's answers. The theorems hold for all of them.
- Row ids are version 7 UUIDs (section 5.7 of RFC 9562), modelled as numbers; a new id is larger than every earlier
  one. Their text form is a pair of functions; where needed, parsing is assumed to undo printing
  (`UuidText.Faithful`).
- `int32` and `int64` wrap as in Go; a string is the sequence of its code points.
- The keyed hash, hexadecimal decoding and JSON decoding are parameters of which nothing is assumed.
- The clock never reads Go's zero time where a receipt is built.
- `Settlement` is the whole pipeline as one step system, with the webhook's read, save and publication as separate
  steps, admin updates split into read and write, and any number of receipt handlers.
  `Settlement.ReadThenSaveIsUpsert` and `ConcurrentReceipts.HandlerIsItsSteps` tie its steps to the sequential code.
- `OnePayment` asks three things of a run: Stripe's events about the payment are its session event, with both ids, and
  its intent event (as `Webhook.ParsedEventsArePaired` derives them from what Stripe sends); rows are opened without an
  intent, as `CreatePayment` does; and no row is deleted while it holds the intent. It asks nothing about order or
  overlap.

## Where the code and its comments disagree

The model follows the code.

- `MarkPaid` is described as moving a pending order to paid; it moves an order of any other status. An admin step
  between two deliveries is therefore visible (`OrderStore.AdminStepIsVisible`);
  `OrderStore.SecondTransitionExactly` says exactly when an order is paid twice. `OrderConsumer.ExactlyOnceEffect` is
  about runs without admin steps.
- `AlreadySucceeded` is also true for a row that was only just inserted (`PaymentStore.AlreadySucceededMeaning`).
- Payment events do not converge in every order: an intent event handled before its session event inserts a second
  row, and the session event is then rejected on every retry (`PaymentStore.IntentFirstNeverConverges`). The exact
  condition is in `PaymentStore.SessionEventBinds`.
- Repeating an event is a no-op exactly when it carries a Stripe id; without one every delivery inserts a row
  (`PaymentStore.RedeliveryIsNoOp`).
- Filled fields are write-once when merges are atomic (`PaymentStore.RunKeeps`). `UpsertSucceeded` is a read and a
  later save, and two overlapping calls can overwrite each other's fill, even with nothing
  (`Overlap.OverlapLosesUpdate`). `Overlap.WriteOnceFields` says exactly in which runs nothing is lost; without
  deletions only the fields read empty matter (`Overlap.WriteOnceExactly`, `Overlap.DeletionDefeatsHarmless`), and calls
  that do not overlap on the row lose nothing (`Overlap.SerialIsWriteOnce`).
  What `CreatePayment` stored survives overlap (`Conservation.ApplyConsistent`).
- A repeated delivery is confirmed as "already sent" while the first one may still be sending. With overlapping
  handlers the receipt can be lost (`ConcurrentReceipts.OverlapCanLoseReceipt`);
  `ConcurrentReceipts.ConfirmedUnsentWasSkipped` says exactly in which runs.
- Pricing ignores the order of the lines as long as catalog products carry a currency. With an empty code the order
  of the lines can decide acceptance (`Pricing.OrderMattersWithoutCurrency`).

## Model

| member | source | states |
|---|---|---|
| Settlement.ReadThenSaveIsUpsert | services/payments/internal/db/repo.go:115-178 | A webhook's read step directly followed by its save step is the atomic merge, with the same table, result and rejections |
| Settlement.PublishedAreGrounded | services/payments/internal/webhook/handler.go:77-123 | In every run, every published event repeats the order, email, amount and currency of a row that had been saved as succeeded |
| Settlement.PaidHasCause | services/order/internal/db/repo.go:43-58 | In every run a paid order has one step that made it paid, and paid it has been ever since: an admin's write of paid, or the effective delivery of a published event naming it |
| Settlement.Provenance | services/order/internal/nats/worker.go:31-64 | Over whole interleaved runs that step is an admin's write, or the working delivery of an event whose order id is the order's; before it a row with the event's order id, email, amount and currency, itself naming that order, was saved as succeeded |
| Settlement.ReceiptsRun | services/notification/internal/nats/worker.go:185-237 | In every run, keys, handlers and sent receipts belong to published payments, and the receipt protocol's invariant holds |
| Settlement.ReceiptProvenance | services/notification/internal/nats/worker.go:185-237 | Every receipt sent is the only one for its payment and rests on a published event whose row was saved as succeeded |
| Conservation.ApplyConsistent | services/payments/internal/db/repo.go:140-151 | No step, overlapping webhook calls included, changes the order, amount or currency a payment was opened with, in the table, in flight or on the stream |
| Conservation.OrdersEvolve | services/order/internal/db/repo.go:34-58 | Over any run of the pipeline a surviving order keeps its priced content and its paid stamp |
| Conservation.ReceiptShowsSubtotal | services/notification/internal/nats/receipt.go:202-240 | A receipt over the order's lines, fetched in any order, prints the order's subtotal as total and as subtotal, in the order's currency |
| Conservation.ConservationEndToEnd | services/order/internal/server/service.go:159-214 | Priced subtotal, order total, payment row, published amount, receipt total and receipt subtotal agree in every run, whatever amounts Stripe sends; they are the true sum exactly when it fits an int64 |
| Overlap.SaveKeepsExactly | services/payments/internal/db/repo.go:138-165 | For any row read and any current row, saving the merge keeps all that is set now exactly when each current field is empty, still as read, or - if it was read empty - what the input brings |
| Overlap.SaveKeepsIfHarmless | services/payments/internal/db/repo.go:138-165 | If nothing was lost since the read, only the fields read empty matter: each must still be empty or be exactly what the input brings, an empty value included |
| Overlap.WriteOnceFields | services/payments/internal/db/repo.go:115-178 | Over every interleaved run, set fields of a row are never changed if and only if each save of it finds every field empty, as read, or - if read empty - equal to what it brings |
| Overlap.WriteOnceExactly | services/payments/internal/db/repo.go:115-178 | In runs that do not delete the row the fields read empty decide alone: set fields are never changed if and only if every save is harmless to them |
| Overlap.DeletionDefeatsHarmless | services/payments/internal/db/repo.go:102-110 | With a deletion they do not: a stale call re-inserts the row and a harmless save then changes what is set in it |
| Overlap.SerialIsWriteOnce | services/payments/internal/db/repo.go:115-178 | If no other call saves the row between a call's read of it and its save, set fields are never changed, deletions included |
| Overlap.OverlapLosesUpdate | services/payments/internal/db/repo.go:115-167 | Two overlapping merges of a row without email: the later save replaces the filled email by its own, or by nothing when its event brings none |
| OnePayment.SessionEventReads | services/payments/internal/db/repo.go:118-125 | The session event's read finds the pending row if and only if no row with a lower id holds the intent, whatever calls are in flight |
| OnePayment.SessionEventSettles | services/payments/internal/db/repo.go:153-167 | Its save settles the payment on the pending row if and only if no other row holds the intent at that moment; otherwise it is rejected and the table stays |
| OnePayment.SettledForever | services/payments/internal/db/repo.go:115-178 | Once settled, a payment stays on its row over every run, with calls that were already in flight, retries and failures |
| OnePayment.SettledOnPendingRow | services/payments/internal/db/repo.go:115-178 | Over whole runs a session event that read the opened row settles the payment there for good if and only if no other row holds the intent when its save fires |
| OnePayment.SettledOnCreatedPayment | services/payments/internal/server/grpc.go:52-66 | The same condition for the very row CreatePayment stores, in terms of Stripe's session id |
| OnePayment.CoherentRun | services/payments/internal/db/repo.go:115-178 | In every run all appearances of a row, in the table and in flight, agree on which payment it belongs to, and saved calls and published events name the row that holds their intent |
| OnePayment.OneReceiptPerStripePayment | services/payments/internal/webhook/stripe.go:143-182 | For events in any order and calls overlapping at will, all events published for a Stripe payment name one row, and at most one receipt is ever sent for it |
| PaymentStore.UpsertKeeps | services/payments/internal/db/model.go:26-29 | A merge keeps both unique indexes, removes no row, and changes no field that was set |
| PaymentStore.SelectMeaning | services/payments/internal/db/repo.go:118-125 | Selected is the lowest of the rows sharing a non-empty Stripe id with the event, and none exactly when no row shares one |
| PaymentStore.InsertTakesInput | services/payments/internal/db/repo.go:126-163 | An event no row shares an id with is always accepted; the inserted row and the result carry exactly its order id, email, amount, currency, Stripe ids and paid time |
| PaymentStore.MatchFillsRow | services/payments/internal/db/repo.go:138-177 | An accepted matching event fills exactly the empty fields of the lowest matching row, leaves the checkout URL and all else alone, and reports what the row then holds |
| PaymentStore.AcceptedExactly | services/payments/internal/db/model.go:26-29 | A matching event is accepted if and only if the filled row would share no Stripe id with another row |
| PaymentStore.SelectAgain | services/payments/internal/db/repo.go:118-125 | The same input selects the row it wrote, in spite of the OR and the lowest-id rule |
| PaymentStore.RedeliveryIsNoOp | services/payments/internal/db/repo.go:115-178 | Repeating an accepted input leaves the table alone exactly when it carries a Stripe id, and then returns the same result, already succeeded; otherwise a row is inserted again |
| PaymentStore.AlreadySucceededMeaning | services/payments/internal/db/repo.go:126-138 | The flag is true exactly when the selected row was succeeded or no row was selected |
| PaymentStore.RunKeeps | services/payments/internal/db/repo.go:102-178 | Over runs of creates, merges and deletes the unique indexes hold, succeeded is permanent, set fields are write-once, and removed ids do not return |
| PaymentStore.BoundStep | services/payments/internal/db/repo.go:118-151 | An event about a bound payment selects its row, is accepted, and touches no other row |
| PaymentStore.SessionEventBinds | services/payments/internal/db/repo.go:115-178 | The session event of a pending payment is accepted if and only if no row holds its intent yet, and then binds the pending row |
| PaymentStore.OneRowPerPayment | services/payments/internal/db/repo.go:115-167 | After binding, every later event of either kind, interleaved with other payments, lands on that row and inserts nothing |
| PaymentStore.OneRowFromPending | services/payments/internal/db/repo.go:115-167 | The same starting from a stored pending payment and its session event |
| PaymentStore.SplitRejectsSession | services/payments/internal/db/repo.go:165-167 | When session and intent sit on two rows, a session event violates a unique index whichever row it selects |
| PaymentStore.SplitForever | services/payments/internal/db/repo.go:115-178 | A split payment stays split and its pending row never changes again |
| PaymentStore.IntentFirstNeverConverges | services/payments/internal/webhook/stripe.go:143-182 | An intent event handled first inserts a second row; afterwards every session event fails and the pending row never changes |
| PaymentStore.PaymentRepo.CreatePending | services/payments/internal/db/repo.go:43-47 | The row is inserted exactly when the database works and both unique indexes allow it |
| PaymentStore.PaymentRepo.FindByStripeIds | services/payments/internal/db/repo.go:118-125 | Returns the row with the lowest primary key among those sharing a non-empty Stripe id |
| PaymentStore.PaymentRepo.UpsertSucceeded | services/payments/internal/db/repo.go:112-178 | The field-by-field code performs the merge rule the lemmas are about; a failed statement changes nothing |
| PaymentStore.PaymentRepo.Delete | services/payments/internal/db/repo.go:102-110 | Removes exactly the row and reports whether there was one |
| Webhook.ParsedMeaning | services/payments/internal/webhook/stripe.go:143-196 | Which kinds are read, and for each what the ids, order id, email, amount, currency and time are taken from; all else is ignored |
| Webhook.ParsedEventsArePaired | services/payments/internal/webhook/stripe.go:143-182 | Parsed events keep Stripe's pairing: a session event carries both ids of its payment, an intent event its own and no session |
| Webhook.Handler.Process | services/payments/internal/webhook/handler.go:77-123 | A message is published only after its row is saved, and repeats what the row holds; a failure publishes nothing |
| Webhook.Handler.ServeHTTP | services/payments/internal/webhook/handler.go:41-73 | 4xx exactly for requests that fail a check, which change nothing; 500 exactly when a statement, an index or the publication fails, and the row is saved only in the last case; 200 for a success event means saved and published |
| Webhook.RetryPublishesTheSame | services/payments/internal/webhook/handler.go:77-123 | Stripe's retry of a saved event leaves the table alone and publishes word for word the first message |
| Webhook.MessageRepeatsRow | services/payments/internal/webhook/handler.go:88-122 | The message for an accepted event repeats the saved row's id, order, email, amount and currency, and the event's own ids and time |
| Webhook.UnknownSessionIsPublished | services/payments/internal/webhook/handler.go:77-123 | A session event no row knows is accepted, and its message carries the order id, amount, currency, intent and time Stripe sent |
| Signature.ParseSignatureHeader | services/payments/internal/webhook/stripe.go:54-85 | The scanning loop equals a fold over independently read fields, including where it stops |
| Signature.FieldMeaning | services/payments/internal/webhook/stripe.go:61-78 | A part counts as timestamp or candidate exactly if, trimmed, it starts with "t=" or "v1=", and its value is the rest |
| Signature.HeaderRoundTrip | services/payments/internal/webhook/stripe.go:54-85 | A printed header parses to its timestamp and signatures if and only if the list is non-empty and every signature is comma-free and does not end in a space |
| Signature.UnknownFieldIgnored | services/payments/internal/webhook/stripe.go:61-78 | Adding an unknown field in front, between two parts or at the end changes nothing, errors included |
| Signature.SignedTextInjective | services/payments/internal/webhook/stripe.go:34-38 | The signed text determines the timestamp and the payload |
| Signature.ExpiryWindow | services/payments/internal/webhook/stripe.go:30-32 | Off the wrap-around and saturation corners, expiry is the plain comparison of the age with the tolerance |
| Signature.Search | services/payments/internal/webhook/stripe.go:40-51 | Finds a match exactly when some listed signature decodes to the expected MAC; undecodable ones are skipped |
| Signature.VerifySignature | services/payments/internal/webhook/stripe.go:24-52 | Accepts if and only if the header parses, the age is within a positive tolerance and some signature decodes to the MAC of decimal timestamp, dot, payload; otherwise the exact error |
| PaymentServer.CreatePayment | services/payments/internal/server/grpc.go:31-71 | Succeeds exactly for acceptable requests with a usable session and a storable row; the stored row holds the session id, checkout URL, order, email, amount and lower-cased currency, and is what every event of the session finds while no row holds its intent; a failure stores nothing |
| PaymentServer.OneRowFromCreatePayment | services/payments/internal/server/grpc.go:52-66 | From the row CreatePayment stores: its session event, handled before any intent event, and every later event about the payment land on that row |
| OrderStore.ParseStatusMeaning | services/order/internal/server/service.go:251-265 | The five allowed status texts and what each means; no other text is allowed |
| OrderStore.ApplyKeeps | services/order/internal/db/repo.go:108-129 | Every statement, halves of admin updates included, keeps paid orders stamped and what pending admin calls rely on |
| OrderStore.RunKeeps | services/order/internal/db/repo.go:22-154 | The same over every run, with surviving orders keeping their content and stamps |
| OrderStore.PaidImpliesStamped | services/order/internal/db/repo.go:43-58 | Under all interleavings every paid order has a paid time, and a paid time is never unset between two moments of a run |
| OrderStore.SecondTransitionExactly | services/order/internal/db/repo.go:43-58 | After a first transition a payment event transitions the order again if and only if an admin took it out of paid in between, and since then no event paid it, no admin set it to paid and nobody removed it, in every interleaving |
| OrderStore.AdminStepIsVisible | services/order/internal/db/repo.go:43-58 | After such an admin write a redelivered event pays the order again and replaces its paid time |
| OrderStore.OrderRepo.CreateOrder | services/order/internal/db/repo.go:22-32 | The order is stored under its id or nothing changes |
| OrderStore.OrderRepo.SetPaymentInfo | services/order/internal/db/repo.go:34-41 | Attaches payment id and checkout URL to an existing order and touches nothing else |
| OrderStore.OrderRepo.MarkPaid | services/order/internal/db/repo.go:43-58 | Moves an order of any other status to paid with the given time, reports exactly that transition, and ignores paid and unknown orders |
| OrderStore.OrderRepo.AdminUpdateStatus | services/order/internal/server/service.go:259-279 | Exact errors; a written update changes status and, only for a first switch to paid, the paid time, and stands even if it cannot be read back |
| OrderStore.OrderRepo.Delete | services/order/internal/db/repo.go:131-154 | Removes exactly the order and reports whether there was one |
| OrderConsumer.Worker.Handle | services/order/internal/nats/worker.go:31-64 | On the message's fields: an error exactly for an undecodable body or a failing update; the unpaid order whose id the message carries is paid at the message's time, or now; nothing else changes |
| OrderConsumer.DeliveryPays | services/order/internal/nats/worker.go:42-52 | The same for the step function the lemmas about runs use: exactly the row with the message's order id is paid, every other row stays, and a message without a usable order id changes nothing |
| OrderConsumer.Worker.Run | services/order/internal/nats/worker.go:66-89 | The nested fetch loop consumes the concatenation of the batches and acknowledges exactly the handled messages whose acknowledgement works |
| OrderConsumer.AckedExactly | services/order/internal/nats/worker.go:78-87 | A message is acknowledged if and only if some delivery of it decoded, did not fail to update, and its acknowledgement worked |
| OrderConsumer.FirstPaidMeaning | services/order/internal/nats/worker.go:47-55 | The first paid time is that of the first effective delivery, and exists exactly when there is one |
| OrderConsumer.ExactlyOnceEffect | services/order/internal/nats/worker.go:31-89 | Without admin steps an order becomes paid exactly when an effective delivery names it, with the first one's time, and exactly one delivery reports a transition |
| OrderConsumer.StatusesDependOnSet | services/order/internal/nats/worker.go:31-89 | Statuses depend only on which orders are named, not on order or multiplicity of deliveries |
| OrderConsumer.RedeliveryKeepsStatuses | services/order/internal/nats/worker.go:31-89 | Two delivery sequences that handle the same set of events end in the same statuses |
| Pricing.ResolveItems | services/order/internal/server/service.go:104-151 | The two loops with early exits compute the resolution the lemmas are about |
| Pricing.ResolvedExact | services/order/internal/server/service.go:116-150 | Success if and only if every input is valid on its own and no currencies conflict; then one snapshot per input in order, the wrapped exact sum and the shared currency |
| Pricing.SuccessMeaning | services/order/internal/server/service.go:120-150 | On the inputs and the answer: each line is the input's product, the last of the answer with its id, active, with its name, price and the input's quantity of at least 1; catalog products all share the upper-cased currency |
| Pricing.FailureMeaning | services/order/internal/server/service.go:107-137 | Fails with an error if and only if it is that of the first input with a bad id, no active product, a quantity below 1 or a currency other than an earlier one, checked in this order |
| Pricing.ResolvedFirstError | services/order/internal/server/service.go:120-137 | A failure is the error of the first input that cannot be accepted, in the code's check order |
| Pricing.SubtotalExact | services/order/internal/server/service.go:139-150 | The subtotal is congruent to the true sum modulo 2^64, and equal to it if and only if it fits an int64 |
| Pricing.SubtotalCoversLines | services/order/internal/server/service.go:139-150 | With non-negative prices and a sum that fits, the subtotal is at least every line's price times quantity, and that at least its price |
| Pricing.OrderOfInputsIrrelevant | services/order/internal/server/service.go:120-150 | With catalog currencies, permuting the inputs preserves success, subtotal and currency and carries the lines along |
| Pricing.OrderMattersWithoutCurrency | services/catalog/internal/server/handler.go:104-107 | Without that guarantee an accepted list is accepted in every order if and only if its lines share one currency |
| Pricing.SplitLine | services/order/internal/server/service.go:120-150 | Splitting a line in two of the same total quantity changes neither outcome, error, subtotal nor currency |
| CartStore.AddRefines | services/order/internal/db/repo.go:177-210 | Adding a line is adding to the map's quantity; an int32 overflow changes nothing |
| CartStore.SetRefines | services/order/internal/db/repo.go:212-239 | Setting a line is overwriting or deleting the map's entry, and does not create one |
| CartStore.ClearRefines | services/order/internal/db/repo.go:241-249 | Clearing is dropping the user's entries and no one else's |
| CartStore.RefinesUnique | services/order/internal/db/repo.go:156-175 | The tables determine the map |
| CartStore.CartRefinesMap | services/order/internal/db/repo.go:156-249 | Over every run one cart per user, one line per product, quantities at least 1 and in int32, and the tables say what the plain map says |
| CartStore.CartRepo.GetCart | services/order/internal/db/repo.go:156-175 | Returns each of the user's lines exactly once, creating the cart without changing the contents |
| CartStore.CartRepo.AddCartItem | services/order/internal/db/repo.go:177-210 | Adds exactly when no statement fails and the sum fits; then returns the new lines |
| CartStore.CartRepo.SetCartItem | services/order/internal/db/repo.go:212-239 | Overwrites or deletes one entry and reports whether it existed |
| CartStore.CartRepo.ClearCart | services/order/internal/db/repo.go:241-249 | Empties the user's cart only, or leaves everything as it was |
| Checkout.ShowCart | services/order/internal/server/service.go:332-370 | The view loop with its skipped products; an empty cart needs no catalog |
| Checkout.ViewMeaning | services/order/internal/server/service.go:346-369 | The view shows exactly the lines whose product the answer holds as active, in order, with the name and price of the last such product, and the wrapped sum of price times quantity |
| Checkout.ActiveAgrees | services/order/internal/server/service.go:346-351 | Where pricing accepts a product, the view's index of active products holds the same one, repeated ids included |
| Checkout.ViewShowsWhatIsCharged | services/order/internal/server/service.go:332-370 | Against one catalog answer, whenever pricing accepts the cart the view shows the same lines in the same order and the same subtotal |
| Checkout.AnyReadShowsTheSubtotal | services/order/internal/server/service.go:332-370 | A reread of the cart in any order shows as many lines and the same subtotal |
| Checkout.OrderService.CreateOrder | services/order/internal/server/service.go:153-214 | Success stores the priced order and a pending row over its total; each failure leaves exactly what its stage had written, in both tables |
| Checkout.OrderService.AddToCart | services/order/internal/server/service.go:381-406 | The cart changes exactly for a valid id, a positive quantity and one active product; the call succeeds exactly when no step fails and the sum fits, and then returns the view of the new, non-empty cart |
| Checkout.OrderService.CheckoutCart | services/order/internal/server/service.go:423-456 | On success the order charges what the view of the cart shows, over a pending row of that total, and the cart is empty; every failure leaves the cart unchanged, and a failed clear leaves the placed order |
| StatusEvents.NotifyStatusChanged | services/order/internal/server/service.go:281-314 | Published exactly when a publisher is set and the order has an email; each line carries its wrapped amount, and the amounts add up to the lines' total modulo 2^64 |
| Receipts.FetchReceiptItems | services/notification/internal/nats/worker.go:239-262 | One receipt item per order line in order, or none when the lines cannot be fetched |
| Receipts.BuildLines | services/notification/internal/nats/receipt.go:209-224 | The loop yields one printed line per item and the wrapped exact sum of the amounts |
| Receipts.BuildReceiptData | services/notification/internal/nats/receipt.go:202-240 | The step-by-step code builds the receipt the lemmas are about |
| Receipts.BuildIdempotent | services/notification/internal/nats/receipt.go:198-250 | Building twice, the second time at a later clock reading and without the items, changes nothing |
| Receipts.RenderedReceipt | services/notification/internal/nats/receipt.go:202-261 | What is mailed after both passes shows name, amount and quantity of the items one for one, the formatted sum of their amounts, and the total, currency, date and payment method label of the payment |
| Receipts.SumAmountsPermuted | services/notification/internal/nats/receipt.go:209-224 | The receipt subtotal does not depend on the order of the items |
| Amounts.InsertThousands | services/notification/internal/nats/receipt.go:316-331 | The left-to-right loop and its early return equal the right-to-left grouping |
| Amounts.WrittenIsGrouped | services/notification/internal/nats/receipt.go:322-328 | What the loop has written at the end is the recursive grouping |
| Amounts.GroupedKeepsDigits | services/notification/internal/nats/receipt.go:316-331 | Deleting the commas gives the digits back |
| Amounts.GroupedShape | services/notification/internal/nats/receipt.go:316-331 | n digits give n + (n-1)/3 characters; counted from the right exactly every fourth is a comma, and the first never is |
| Amounts.FormatAmount | services/notification/internal/nats/receipt.go:281-300 | The reassigning code prints sign, symbol, groups and cents as the printed form the reader below inverts |
| Amounts.AmountLayout | services/notification/internal/nats/receipt.go:263-300 | Off the minimum: a sign, the symbol from the table, and grouped digits, as a whole amount for codes without decimals and in hundredths for all others |
| Amounts.AmountReversible | services/notification/internal/nats/receipt.go:281-300 | Reading the printed text gives the amount back if and only if it is not the int64 minimum, for every currency |
| Amounts.MinimumUnreadable | services/notification/internal/nats/receipt.go:285-288 | At the minimum negation wraps, and the printed text is no amount at all |
| Amounts.AmountInjective | services/notification/internal/nats/receipt.go:281-300 | Within a currency no two amounts print alike, the minimum included |
| ReceiptProtocol.DedupeStore.MarkProcessed | services/notification/internal/store/dedupe.go:29-33 | True exactly for the first caller; a lost reply may leave the key behind |
| ReceiptProtocol.DedupeStore.Release | services/notification/internal/store/dedupe.go:35-39 | Frees the key unless the call did not reach the store |
| ReceiptProtocol.ReceiptWorker.Handle | services/notification/internal/nats/worker.go:181-237 | On the event's fields: when it reserves the key and the send works, exactly one mail is added, to the event's email, titled after its order, with its ids, amount, time and fetched lines; otherwise none; and the exact error cases |
| ReceiptProtocol.ReceiptWorker.Run | services/notification/internal/nats/worker.go:32-55 | The nested loop consumes the concatenated batches; from empty, with Redis answering, every acknowledged message that asks for a receipt has exactly one mail about its payment in the outbox, to the address of a delivered event of that payment |
| ReceiptProtocol.ConsumeStaysBalanced | services/notification/internal/nats/worker.go:197-231 | With Redis answering, a payment has one receipt exactly when its key is taken, and none when it is free |
| ReceiptProtocol.NoReceiptLost | services/notification/internal/nats/worker.go:32-55 | Whatever sends and acknowledgements fail, a handled delivery has its payment's one receipt, an unhandled one has none yet, and a payment without a receipt has its key free |
| ReceiptProtocol.HandledIsMailed | services/notification/internal/nats/worker.go:197-231 | A handled delivery that asks for a receipt has exactly one mail about its payment among all mails, to the address of a delivered event of that payment |
| ReceiptProtocol.AckedAreHandled | services/notification/internal/nats/worker.go:44-53 | A message is acknowledged if and only if some delivery of it was handled without error and its acknowledgement worked |
| ReceiptProtocol.AcknowledgedIsSent | services/notification/internal/nats/worker.go:32-55 | Every acknowledged message that asks for a receipt has had exactly one sent for its payment |
| ReceiptProtocol.UnsentCanStillBeSent | services/notification/internal/nats/worker.go:197-231 | The next delivery of a payment without a receipt, if its send works, sends it and is handled |
| ConcurrentReceipts.RunKeeps | services/notification/internal/nats/worker.go:185-237 | The protocol invariant holds after every interleaving of handler steps, lost replies and crashes |
| ConcurrentReceipts.AtMostOneReceipt | services/notification/internal/nats/worker.go:185-237 | At most one handler holds a payment, at most one send ever succeeds, and a key is present exactly while held, sent or left behind - one of the three only |
| ConcurrentReceipts.ConfirmedUnsentWasSkipped | services/notification/internal/nats/worker.go:200-207 | After any run a payment without a receipt has a confirmed delivery if and only if some handler asked for its key while another one held it or after it was left behind |
| ConcurrentReceipts.OverlapCanLoseReceipt | services/notification/internal/nats/worker.go:197-231 | Two overlapping handlers and one failed send: confirmed, not sent, key free |
| ConcurrentReceipts.HandlerIsItsSteps | services/notification/internal/nats/worker.go:185-237 | Handling one delivery start to finish equals its steps run without interruption |
| Text.TrimSpaceMeaning | services/payments/internal/webhook/stripe.go:62 | Trimming removes surrounding spaces only, and all of them |
| Text.SplitJoin | services/payments/internal/webhook/stripe.go:61 | Splitting a joined list gives the parts back |

## Left out

- Plumbing: gRPC and protobuf code, HTTP routing, gateway, configuration, startup and shutdown, logging, metrics.
- The request sent to Stripe for a session: only Stripe's answer is a parameter, so what Stripe later puts into its events is not tied to that request.
- Mail templates and their rendering; the model ends at the data handed to the template.
- JSON, the keyed hash, hexadecimal decoding, UUID text and generation, clocks: parameters of the model.
- Authentication, profile and catalog services: only the catalog's non-empty currency is used, as a hypothesis.
- Reads that only copy rows (payment and order listings, lookups by id): easy members.
- Handlers of welcome and status mails, which have no state of their own.
- Provider, creation and update time columns, and column width limits, which appear only as failing statements.
- Expiry of dedupe keys: the model assumes a key outlasts the run.
- Concurrent cart requests: no unique index covers cart lines, so the map refinement is for one request at a time.
- A mail server that delivers and still reports failure: the program cannot tell it from a failed send.
- Non-ASCII letters in upper- and lower-casing; currency codes and payment methods are taken to be ASCII where they are cased, and the payment method's first character to be one byte.
- Byte sequences that are not valid UTF-8: strings are code points here.
- PaymentStore.PaymentRepo.UpsertSucceeded: reads and saves in one call; calls that interleave between the read and the save are modelled in Settlement.
- OrderStore.OrderRepo.AdminUpdateStatus: reads and writes in one call; the interleaved halves are the steps AdminRead and AdminWrite of OrderStore.
- Checkout.OrderService.CheckoutCart: one request at a time, and the cart is cleared right after the order is placed.
- OrderConsumer.Worker.Run: covers any finite list of fetches rather than an endless loop, and no cancellation.
- ReceiptProtocol.ReceiptWorker.Run: covers any finite list of fetches rather than an endless loop, and no cancellation.
- Liveness: nothing is proved about when a redelivery or a retry arrives.
