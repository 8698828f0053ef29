// The message on the payment stream: services/payments/internal/nats/event.go.
module Stream {
  import opened Common
  import opened Machine

  datatype PaymentSucceeded = PaymentSucceeded(
    paymentId: string, orderId: string, stripePaymentId: string, stripeEventId: string,
    email: string, amount: Int64, currency: string, paymentMethod: string, paidAt: Time)
}

// The Stripe webhook: services/payments/internal/webhook/handler.go and stripe.go.
module Webhook {
  import opened Common
  import opened Machine
  import opened Stream
  import opened PaymentStore
  import Signature

  // ---------- events ----------

  const SESSION_COMPLETED: string := "checkout.session.completed"
  const INTENT_SUCCEEDED: string := "payment_intent.succeeded"

  datatype CheckoutSession = CheckoutSession(
    id: string, paymentIntent: string, amountTotal: Int64, currency: string,
    customerEmail: string, customerDetailsEmail: Option<string>, metadata: map<string, string>)

  datatype PaymentIntent = PaymentIntent(
    id: string, amount: Int64, currency: string, receiptEmail: string, metadata: map<string, string>)

  /** The envelope; the raw object is represented by what decoding it as either kind yields. */
  datatype Event = Event(
    id: string, kind: string, asSession: Option<CheckoutSession>, asIntent: Option<PaymentIntent>, created: Int64)

  function MetadataValue(metadata: map<string, string>, key: string): string {
    if key in metadata then metadata[key] else ""
  }

  function EventTime(event: Event, now: Time): Time {
    if event.created > 0 then UNIX_EPOCH + event.created else now
  }

  /** ParseSucceededEvent; None means the event is acknowledged and ignored. */
  function Parsed(event: Event, now: Time): Option<SuccessInput> {
    if event.kind == SESSION_COMPLETED then
      match event.asSession
      case None => None
      case Some(session) =>
        var email :=
          if session.customerDetailsEmail.Some? && session.customerDetailsEmail.value != ""
          then session.customerDetailsEmail.value else session.customerEmail;
        Some(SuccessInput(event.id, session.id, session.paymentIntent, MetadataValue(session.metadata, "order_id"),
                          email, session.amountTotal, session.currency, EventTime(event, now)))
    else if event.kind == INTENT_SUCCEEDED then
      match event.asIntent
      case None => None
      case Some(intent) =>
        Some(SuccessInput(event.id, "", intent.id, MetadataValue(intent.metadata, "order_id"),
                          intent.receiptEmail, intent.amount, intent.currency, EventTime(event, now)))
    else None
  }

  /** The order an event's metadata names, or none. */
  predicate NamesOrder(metadata: map<string, string>, orderId: string) {
    if "order_id" in metadata then orderId == metadata["order_id"] else orderId == ""
  }

  /** The event's own time where it has one, in seconds after the Unix epoch. */
  predicate TimeOf(event: Event, now: Time, t: Time) {
    if event.created > 0 then t - UNIX_EPOCH == event.created else t == now
  }

  /**
   * What is read out of each event kind, field by field: the session event gives both Stripe ids and
   * prefers the customer details' address, the intent event gives its own id and the receipt address;
   * every other kind, and an object that does not decode, is ignored.
   */
  lemma ParsedMeaning(event: Event, now: Time)
    ensures event.kind == "checkout.session.completed" && event.asSession.Some? ==>
              && Parsed(event, now).Some?
              && var (session, input) := (event.asSession.value, Parsed(event, now).value);
              && input.stripeEventId == event.id
              && input.stripeSessionId == session.id && input.stripePaymentId == session.paymentIntent
              && input.amount == session.amountTotal && input.currency == session.currency
              && NamesOrder(session.metadata, input.orderId) && TimeOf(event, now, input.paidAt)
              && (session.customerDetailsEmail in [None, Some("")] ==> input.email == session.customerEmail)
              && (session.customerDetailsEmail !in [None, Some("")] ==>
                    Some(input.email) == session.customerDetailsEmail)
    ensures event.kind == "payment_intent.succeeded" && event.asIntent.Some? ==>
              && Parsed(event, now).Some?
              && var (intent, input) := (event.asIntent.value, Parsed(event, now).value);
              && input.stripeEventId == event.id
              && input.stripeSessionId == "" && input.stripePaymentId == intent.id
              && input.amount == intent.amount && input.currency == intent.currency
              && NamesOrder(intent.metadata, input.orderId) && TimeOf(event, now, input.paidAt)
              && input.email == intent.receiptEmail
    ensures Parsed(event, now).Some? <==>
            || (event.kind == "checkout.session.completed" && event.asSession.Some?)
            || (event.kind == "payment_intent.succeeded" && event.asIntent.Some?)
  {
  }

  /** Stripe's own pairing of a checkout session with one payment intent, as its events state it. */
  predicate PairedByStripe(event: Event, session: string, intent: string) {
    event.asSession.Some? ==> (event.asSession.value.id == session <==> event.asSession.value.paymentIntent == intent)
  }

  /**
   * Both event kinds then keep the pairing the payments table relies on: a session event carries both ids
   * of its payment, an intent event its own and no session.
   */
  lemma ParsedEventsArePaired(event: Event, now: Time, session: string, intent: string, newId: Uuid)
    requires session != "" && intent != "" && PairedByStripe(event, session, intent)
    ensures Parsed(event, now).Some? ==>
              && Paired(Succeed(Parsed(event, now).value, newId), session, intent)
              && StripeOrder(Succeed(Parsed(event, now).value, newId), session, intent)
  {
  }

  // ---------- processing ----------

  /** The message published for an accepted event. */
  function Announcement(show: Uuid -> string, result: SuccessResult, input: SuccessInput): PaymentSucceeded {
    PaymentSucceeded(show(result.paymentId), result.orderId, result.stripePaymentId, input.stripeEventId,
                     result.email, result.amount, result.currency, "stripe", input.paidAt)
  }

  /** Which of the calls of one webhook invocation fail. */
  datatype Faults = Faults(read: bool, save: bool, publish: bool)

  datatype ProcessError = StoreError(db: DbError) | PublishError

  /** Stripe's request; `body` is None when it cannot be read or exceeds the size limit. */
  datatype Request = Request(verb: string, body: Option<string>, signature: string)

  datatype Settings = Settings(
    crypto: Signature.Crypto, secret: string, tolerance: Int64, decode: string -> Option<Event>, show: Uuid -> string)

  /** One invocation's clock readings, the id it would insert under, and the faults it meets. */
  datatype Attempt = Attempt(now: Time, nowNanoseconds: int, newId: Uuid, faults: Faults)

  /** Whether the request passes every check in front of `process`. */
  predicate Authentic(settings: Settings, request: Request, nowNanoseconds: int) {
    && request.verb == "POST"
    && request.body.Some?
    && Signature.ParsedHeader(request.signature).Success?
    && Signature.Accepted(settings.crypto, request.body.value, Signature.ParsedHeader(request.signature).value,
                          settings.secret, settings.tolerance, nowNanoseconds)
    && settings.decode(request.body.value).Some?
  }

  class Handler {
    const settings: Settings
    const repo: PaymentRepo
    var published: seq<PaymentSucceeded>

    constructor (settings: Settings, repo: PaymentRepo)
      ensures this.settings == settings && this.repo == repo && published == []
    {
      this.settings := settings;
      this.repo := repo;
      published := [];
    }

    method Process(event: Event, attempt: Attempt) returns (r: Result<(), ProcessError>)
      requires repo.Valid() && attempt.newId >= repo.nextId
      modifies this, repo
      ensures repo.Valid() && repo.nextId in {old(repo.nextId), attempt.newId + 1}
      // an event that is not about a success is acknowledged and touches nothing
      ensures Parsed(event, attempt.now).None? ==>
                r.Success? && repo.rows == old(repo.rows) && published == old(published)
      // otherwise the row is saved first; only then, and only with what the row holds, is anything published
      ensures Parsed(event, attempt.now).Some? && (attempt.faults.read || attempt.faults.save) ==>
                r.Failure? && repo.rows == old(repo.rows) && published == old(published)
      ensures Parsed(event, attempt.now).Some? && !attempt.faults.read && !attempt.faults.save ==>
                var input := Parsed(event, attempt.now).value;
                var (rows, result) := Upsert(old(repo.rows), input, attempt.newId);
                && repo.rows == rows
                && (r.Success? <==> result.Success? && !attempt.faults.publish)
                && published == old(published) +
                                if r.Success? then [Announcement(settings.show, result.value, input)] else []
    {
      var info := Parsed(event, attempt.now);
      if info.None? {
        return Success(());
      }
      var result := repo.UpsertSucceeded(info.value, attempt.newId, attempt.faults.read, attempt.faults.save);
      if result.Failure? {
        return Failure(StoreError(result.error));
      }
      if attempt.faults.publish {
        return Failure(PublishError);
      }
      published := published + [Announcement(settings.show, result.value, info.value)];
      r := Success(());
    }

    /** The HTTP status Stripe sees; it retries whatever is not a 2xx. */
    method ServeHTTP(request: Request, attempt: Attempt) returns (status: nat)
      requires repo.Valid() && attempt.newId >= repo.nextId
      modifies this, repo
      ensures repo.Valid() && repo.nextId in {old(repo.nextId), attempt.newId + 1}
      ensures status in {200, 400, 405, 500}
      ensures status == 405 <==> request.verb != "POST"
      // past the checks: a readable body, a signature that verifies now, and an event that decodes
      ensures status in {200, 500} <==>
              && request.verb == "POST" && request.body.Some?
              && Signature.ParsedHeader(request.signature).Success?
              && Signature.Accepted(
                   settings.crypto, request.body.value, Signature.ParsedHeader(request.signature).value,
                   settings.secret, settings.tolerance, attempt.nowNanoseconds)
              && settings.decode(request.body.value).Some?
      ensures status in {400, 405} <==> !Authentic(settings, request, attempt.nowNanoseconds)
      ensures status != 200 ==> published == old(published)
      ensures status in {400, 405} ==> repo.rows == old(repo.rows)
      // 500 exactly when a success event meets a failing statement, a unique index or a failing publication;
      // only in the last case its row is saved
      ensures Authentic(settings, request, attempt.nowNanoseconds) ==>
                match Parsed(settings.decode(request.body.value).value, attempt.now)
                case None => status == 200
                case Some(input) =>
                  var (rows, result) := Upsert(old(repo.rows), input, attempt.newId);
                  var saved := !attempt.faults.read && !attempt.faults.save && result.Success?;
                  && (status == 500 <==> !saved || attempt.faults.publish)
                  && repo.rows == (if saved then rows else old(repo.rows))
      // 200 for a success event: its row is saved and its message is on the stream
      ensures status == 200 ==>
                var parsed := Parsed(settings.decode(request.body.value).value, attempt.now);
                match parsed
                case None => repo.rows == old(repo.rows) && published == old(published)
                case Some(input) =>
                  var (rows, result) := Upsert(old(repo.rows), input, attempt.newId);
                  && result.Success? && repo.rows == rows
                  && published == old(published) + [Announcement(settings.show, result.value, input)]
    {
      if request.verb != "POST" {
        return 405;
      }
      if request.body.None? {
        return 400;
      }
      var verified := Signature.VerifySignature(
        settings.crypto, request.body.value, request.signature, settings.secret, settings.tolerance,
        attempt.nowNanoseconds);
      if verified.Failure? {
        return 400;
      }
      var event := settings.decode(request.body.value);
      if event.None? {
        return 400;
      }
      var processed := Process(event.value, attempt);
      status := if processed.Failure? then 500 else 200;
    }
  }

  // ---------- retries ----------

  /**
   * Stripe's retry of an event whose row was saved, whether or not the first attempt could publish,
   * leaves the table alone and publishes word for word the message of the first attempt.
   */
  lemma RetryPublishesTheSame(
    show: Uuid -> string, rows: Payments, next: Uuid, event: Event, now: Time, newId: Uuid, later: Time, laterId: Uuid)
    requires WellFormed(rows, next) && next <= newId < laterId
    requires Parsed(event, now).Some? && Identified(Parsed(event, now).value) && event.created > 0
    requires Upsert(rows, Parsed(event, now).value, newId).1.Success?
    ensures var input := Parsed(event, now).value;
            var (after, result) := Upsert(rows, input, newId);
            && Parsed(event, later) == Some(input)
            && Upsert(after, input, laterId).0 == after
            && Upsert(after, input, laterId).1.Success?
            && Announcement(show, Upsert(after, input, laterId).1.value, input) ==
               Announcement(show, result.value, input)
  {
    RedeliveryIsNoOp(rows, next, Parsed(event, now).value, newId, laterId);
  }

  /** The message repeats the row an accepted event ended on, and the event's own intent, id and time. */
  predicate Repeats(message: PaymentSucceeded, show: Uuid -> string, row: Payment, input: SuccessInput) {
    && message.paymentId == show(row.id)
    && message.orderId == row.orderId && message.email == row.email
    && message.amount == row.amount && message.currency == row.currency
    && message.stripePaymentId == input.stripePaymentId && message.stripeEventId == input.stripeEventId
    && message.paidAt == input.paidAt && message.paymentMethod == "stripe"
  }

  /** What is published for an accepted event is its row after the save. */
  lemma MessageRepeatsRow(
    show: Uuid -> string, rows: Payments, next: Uuid, input: SuccessInput, newId: Uuid)
    requires WellFormed(rows, next) && newId >= next && Upsert(rows, input, newId).1.Success?
    ensures var (after, result) := Upsert(rows, input, newId);
            && result.value.paymentId in after
            && Repeats(Announcement(show, result.value, input), show, after[result.value.paymentId], input)
  {
    SelectSound(rows, input);
  }

  /**
   * A session event for a payment no row knows: the message it publishes carries what Stripe said, under
   * the id of the row it inserted.
   */
  lemma UnknownSessionIsPublished(
    show: Uuid -> string, rows: Payments, next: Uuid, event: Event, now: Time, newId: Uuid)
    requires WellFormed(rows, next) && newId >= next
    requires event.kind == "checkout.session.completed" && event.asSession.Some?
    requires var session := event.asSession.value;
             forall j :: j in rows ==>
                           && (session.id != "" ==> rows[j].stripeSessionId != Some(session.id))
                           && (session.paymentIntent != "" ==> rows[j].stripePaymentId != Some(session.paymentIntent))
    ensures Parsed(event, now).Some?
    ensures var session, input := event.asSession.value, Parsed(event, now).value;
            var (_, result) := Upsert(rows, input, newId);
            && result.Success?
            && var message := Announcement(show, result.value, input);
            && message.paymentId == show(newId) && message.stripePaymentId == session.paymentIntent
            && message.amount == session.amountTotal && message.currency == session.currency
            && NamesOrder(session.metadata, message.orderId) && TimeOf(event, now, message.paidAt)
            && message.stripeEventId == event.id
  {
    ParsedMeaning(event, now);
    InsertTakesInput(rows, next, Parsed(event, now).value, newId);
  }
}
