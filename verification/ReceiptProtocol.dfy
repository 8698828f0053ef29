// Sending each receipt once: services/notification/internal/nats/worker.go, ReceiptHandler and Worker.Run,
// over services/notification/internal/store/dedupe.go.
module ReceiptProtocol {
  import opened Common
  import opened Machine
  import opened Stream
  import opened Amounts
  import opened Receipts

  // ---------- one delivery ----------

  /** SetNX: its reply may be lost before or after the server applied it. */
  datatype MarkOutcome = MarkAnswered | MarkNotApplied | MarkReplyLost

  /** Del: a failure may leave the key in place or come after the key was removed. */
  datatype ReleaseOutcome = ReleaseAnswered | ReleaseNotApplied | ReleaseReplyLost

  /**
   * One delivery of payment.succeeded with everything its handling meets; `items` is None when the lines
   * cannot be fetched.
   */
  datatype Delivery = Delivery(
    sequence: nat, body: Option<PaymentSucceeded>, items: Option<seq<OrderItem>>, now: Time, later: Time,
    mark: MarkOutcome, sendFails: bool, release: ReleaseOutcome, ackFails: bool)

  datatype Mail = Mail(to: string, subject: string, receipt: ReceiptData)

  /** The dedupe keys, and the deliveries whose receipt was sent. */
  datatype Box = Box(keys: set<string>, sent: seq<Delivery>)

  /** The event asks for a receipt. */
  predicate Receiptable(d: Delivery) {
    d.body.Some? && d.body.value.paymentId != "" && d.body.value.email != ""
  }

  function SubjectOf(orderId: string): string {
    if orderId == "" then "Your cartix payment receipt"
    else "Your cartix receipt \U{2014} Order #" + orderId
  }

  function RawReceipt(event: PaymentSucceeded, items: seq<ReceiptItem>): ReceiptData {
    ReceiptData(event.orderId, event.paymentId, event.stripePaymentId, event.amount, event.currency,
                event.paymentMethod, event.paidAt, items, [], "", "", "", "", "", false)
  }

  /** The line items shown for an event. */
  function ShownItems(event: PaymentSucceeded, items: Option<seq<OrderItem>>): seq<ReceiptItem> {
    if event.orderId != "" && items.Some? then ItemsOf(items.value) else []
  }

  function MailOf(d: Delivery, formatDate: Time -> string): Mail
    requires d.body.Some?
  {
    var event := d.body.value;
    Mail(event.email, SubjectOf(event.orderId),
         Built(RawReceipt(event, ShownItems(event, d.items)), d.now, formatDate))
  }

  /**
   * The mail answers the event: it goes to the event's address, is titled after the order, shows the
   * payment's ids, amount and time, and one line per fetched order item.
   */
  ghost predicate Answers(
    mail: Mail, event: PaymentSucceeded, items: Option<seq<OrderItem>>, now: Time, formatDate: Time -> string)
  {
    && mail.to == event.email
    && mail.subject == (if event.orderId == "" then "Your cartix payment receipt"
                        else "Your cartix receipt \U{2014} Order #" + event.orderId)
    && var receipt := mail.receipt;
    && receipt.orderId == event.orderId && receipt.paymentId == event.paymentId
    && receipt.stripePaymentId == event.stripePaymentId
    && receipt.amount == event.amount && receipt.currency == event.currency
    && receipt.totalFormatted == AmountText(event.amount, event.currency)
    && receipt.paymentMethod == event.paymentMethod
    && receipt.paidAt == (if event.paidAt == ZERO_TIME then now else event.paidAt)
    && receipt.dateFormatted == formatDate(receipt.paidAt)
    && (event.orderId == "" || items.None? ==> receipt.lines == [] && !receipt.hasItems)
    && (event.orderId != "" && items.Some? ==> Itemised(receipt.lines, items.value, event.currency))
  }

  predicate Itemised(lines: seq<ReceiptLine>, items: seq<OrderItem>, currency: string) {
    && |lines| == |items|
    && forall i :: 0 <= i < |items| ==>
                     && lines[i].name == items[i].name
                     && lines[i].amountFormatted ==
                        AmountText(Wrap(items[i].unitPriceMinor * items[i].quantity), currency)
  }

  lemma MailAnswers(d: Delivery, formatDate: Time -> string)
    requires d.body.Some?
    ensures Answers(MailOf(d, formatDate), d.body.value, d.items, d.now, formatDate)
  {
  }

  /** The delivery reserves its payment's key. */
  predicate Reserves(s: Box, d: Delivery) {
    Receiptable(d) && d.mark.MarkAnswered? && d.body.value.paymentId !in s.keys
  }

  function Received(s: Box, d: Delivery): Box {
    if !Receiptable(d) then s
    else
      var key := d.body.value.paymentId;
      match d.mark
      case MarkNotApplied => s
      case MarkReplyLost => s.(keys := s.keys + {key})
      case MarkAnswered =>
        if key in s.keys then s
        else if !d.sendFails then Box(s.keys + {key}, s.sent + [d])
        else if d.release.ReleaseNotApplied? then s.(keys := s.keys + {key})
        else s
  }

  /** The handler returns without error, so that the loop acknowledges the message. */
  predicate Handled(s: Box, d: Delivery) {
    && d.body.Some?
    && (Receiptable(d) ==> d.mark.MarkAnswered? && (d.body.value.paymentId in s.keys || !d.sendFails))
  }

  function Consume(s: Box, ds: seq<Delivery>): Box {
    if ds == [] then s else Received(Consume(s, ds[..|ds| - 1]), ds[|ds| - 1])
  }

  function Acked(s: Box, ds: seq<Delivery>): seq<nat> {
    if ds == [] then []
    else
      var d := ds[|ds| - 1];
      Acked(s, ds[..|ds| - 1]) +
      if Handled(Consume(s, ds[..|ds| - 1]), d) && !d.ackFails then [d.sequence] else []
  }

  lemma {:induction false} ConsumeConcat(s: Box, a: seq<Delivery>, b: seq<Delivery>)
    ensures Consume(s, a + b) == Consume(Consume(s, a), b)
    ensures Acked(s, a + b) == Acked(s, a) + Acked(Consume(s, a), b)
  {
    if b == [] {
      assert a + b == a;
    } else {
      var last := |b| - 1;
      ConsumeConcat(s, a, b[..last]);
      assert (a + b)[..|a| + last] == a + b[..last];
    }
  }

  lemma NextBatch(s: Box, batches: seq<Option<seq<Delivery>>>, i: nat)
    requires i < |batches|
    ensures var before, after := Flatten(batches[..i]), Flatten(batches[..i + 1]);
            match batches[i]
            case None => after == before
            case Some(msgs) =>
              && Consume(s, after) == Consume(Consume(s, before), msgs)
              && Acked(s, after) == Acked(s, before) + Acked(Consume(s, before), msgs)
  {
    FlattenNext(batches, i);
    if batches[i].Some? {
      ConsumeConcat(s, Flatten(batches[..i]), batches[i].value);
    }
  }

  /** The clock never reads Go's zero time. */
  predicate Clocked(ds: seq<Delivery>) {
    forall i :: 0 <= i < |ds| ==> ds[i].now != ZERO_TIME
  }

  // ---------- the store and the worker ----------

  class DedupeStore {
    var keys: set<string>

    constructor ()
      ensures keys == {}
    {
      keys := {};
    }

    /** Failure stands for an error returned to the caller, whatever the server did. */
    method MarkProcessed(key: string, outcome: MarkOutcome) returns (first: Option<bool>)
      modifies this
      ensures first == if outcome.MarkAnswered? then Some(key !in old(keys)) else None
      ensures keys == if outcome.MarkNotApplied? then old(keys) else old(keys) + {key}
    {
      first := if outcome.MarkAnswered? then Some(key !in keys) else None;
      if !outcome.MarkNotApplied? {
        keys := keys + {key};
      }
    }

    method Release(key: string, outcome: ReleaseOutcome) returns (ok: bool)
      modifies this
      ensures ok == outcome.ReleaseAnswered?
      ensures keys == if outcome.ReleaseNotApplied? then old(keys) else old(keys) - {key}
    {
      ok := outcome.ReleaseAnswered?;
      if !outcome.ReleaseNotApplied? {
        keys := keys - {key};
      }
    }
  }

  class ReceiptWorker {
    const dedupe: DedupeStore
    const formatDate: Time -> string
    var outbox: seq<Mail>
    var acked: seq<nat>
    ghost var sent: seq<Delivery> // the deliveries behind the mails of the outbox

    /** Every mail is the receipt of the delivery it was sent for. */
    ghost predicate Valid()
      reads this
    {
      Backed(outbox, sent, formatDate)
    }

    ghost function Contents(): Box
      reads this, dedupe
    {
      Box(dedupe.keys, sent)
    }

    constructor (dedupe: DedupeStore, formatDate: Time -> string)
      ensures this.dedupe == dedupe && this.formatDate == formatDate && Valid()
      ensures outbox == [] && acked == [] && sent == []
    {
      this.dedupe := dedupe;
      this.formatDate := formatDate;
      outbox, acked, sent := [], [], [];
    }

    method Handle(d: Delivery) returns (ok: bool)
      requires Valid() && d.now != ZERO_TIME
      modifies this`outbox, this`sent, dedupe
      ensures Valid()
      ensures ok == Handled(old(Contents()), d)
      ensures Contents() == Received(old(Contents()), d)
      // on the message itself: an error exactly when it does not decode, the reservation fails or the send does
      ensures var asks := d.body.Some? && d.body.value.paymentId != "" && d.body.value.email != "";
              var reserved := asks && d.mark.MarkAnswered? && d.body.value.paymentId !in old(dedupe.keys);
              && (ok <==> d.body.Some? && (asks ==> d.mark.MarkAnswered?) && (reserved ==> !d.sendFails))
              && (reserved && !d.sendFails ==>
                    && dedupe.keys == old(dedupe.keys) + {d.body.value.paymentId}
                    && |outbox| == |old(outbox)| + 1 && outbox[..|old(outbox)|] == old(outbox)
                    && Answers(outbox[|old(outbox)|], d.body.value, d.items, d.now, formatDate))
              && (!(reserved && !d.sendFails) ==> outbox == old(outbox))
              && (reserved && d.sendFails && d.release.ReleaseAnswered? ==> dedupe.keys == old(dedupe.keys))
    {
      if d.body.None? {
        return false;
      }
      var event := d.body.value;
      if event.paymentId == "" || event.email == "" {
        return true;
      }
      var first := dedupe.MarkProcessed(event.paymentId, d.mark);
      if first.None? {
        return false;
      }
      if !first.value {
        assert dedupe.keys == old(dedupe.keys);
        return true;
      }
      var subject := SubjectOf(event.orderId);
      var lines := FetchReceiptItems(d.items, event.orderId);
      var receipt := RenderedReceipt(RawReceipt(event, lines), d.now, d.later, formatDate);
      assert Mail(event.email, subject, receipt) == MailOf(d, formatDate);
      if d.sendFails {
        var released := dedupe.Release(event.paymentId, d.release);
        assert !d.release.ReleaseNotApplied? ==> dedupe.keys == old(dedupe.keys);
        return false;
      }
      MailAnswers(d, formatDate);
      outbox := outbox + [Mail(event.email, subject, receipt)];
      sent := sent + [d];
      ok := true;
    }

    /** The inner loop over one fetched batch. */
    method RunBatch(msgs: seq<Delivery>)
      requires Valid() && Clocked(msgs)
      modifies this, dedupe
      ensures Valid()
      ensures Contents() == Consume(old(Contents()), msgs)
      ensures acked == old(acked) + Acked(old(Contents()), msgs)
    {
      ghost var start := Contents();
      for j := 0 to |msgs|
        invariant Valid()
        invariant Contents() == Consume(start, msgs[..j])
        invariant acked == old(acked) + Acked(start, msgs[..j])
      {
        assert msgs[..j + 1][..j] == msgs[..j];
        var ok := Handle(msgs[j]);
        if !ok {
          continue;
        }
        if !msgs[j].ackFails {
          acked := acked + [msgs[j].sequence];
        }
      }
      assert msgs[..|msgs|] == msgs;
    }

    /** The fetch loop over the batches it was given; a failed fetch delivers nothing. */
    method Run(batches: seq<Option<seq<Delivery>>>)
      requires Valid() && forall i :: 0 <= i < |batches| && batches[i].Some? ==> Clocked(batches[i].value)
      modifies this, dedupe
      ensures Valid()
      ensures Contents() == Consume(old(Contents()), Flatten(batches))
      ensures acked == old(acked) + Acked(old(Contents()), Flatten(batches))
      // starting empty, over a Redis that answers: every acknowledged message that asks for a receipt has had
      // exactly one mail about its payment, to the address of a delivered event of that payment
      ensures old(outbox) == [] && old(acked) == [] && old(dedupe.keys) == {} && Reliable(Flatten(batches)) ==>
                forall n :: n in acked ==> Served(Flatten(batches), n, outbox)
    {
      ghost var start := Contents();
      for i := 0 to |batches|
        invariant Valid()
        invariant Contents() == Consume(start, Flatten(batches[..i]))
        invariant acked == old(acked) + Acked(start, Flatten(batches[..i]))
      {
        NextBatch(start, batches, i);
        if batches[i].None? {
          continue;
        }
        RunBatch(batches[i].value);
      }
      assert batches[..|batches|] == batches;
      ghost var ds := Flatten(batches);
      if start == Box({}, []) && old(acked) == [] && Reliable(ds) {
        forall n | n in acked
          ensures Served(ds, n, outbox)
        {
          AcknowledgedIsServed(ds, n, outbox, formatDate);
        }
      }
    }
  }

  // ---------- no receipt lost by the sequential loop ----------

  /** How many receipts were sent for a payment. */
  function ReceiptsFor(sent: seq<Delivery>, paymentId: string): nat {
    if sent == [] then 0
    else
      var d := sent[|sent| - 1];
      ReceiptsFor(sent[..|sent| - 1], paymentId) + if d.body.Some? && d.body.value.paymentId == paymentId then 1 else 0
  }

  /** Every payment has had one receipt if its key is taken, and none if it is free. */
  ghost predicate Balanced(s: Box) {
    forall p: string :: ReceiptsFor(s.sent, p) == if p in s.keys then 1 else 0
  }

  /** Redis answers. */
  predicate Reliable(ds: seq<Delivery>) {
    forall i :: 0 <= i < |ds| ==> ds[i].mark.MarkAnswered? && ds[i].release.ReleaseAnswered?
  }

  lemma ReceiptsForSnoc(sent: seq<Delivery>, d: Delivery, p: string)
    ensures ReceiptsFor(sent + [d], p) ==
            ReceiptsFor(sent, p) + if d.body.Some? && d.body.value.paymentId == p then 1 else 0
  {
    assert (sent + [d])[..|sent|] == sent;
  }

  lemma ReceivedStaysBalanced(s: Box, d: Delivery)
    requires Balanced(s) && d.mark.MarkAnswered? && d.release.ReleaseAnswered?
    ensures Balanced(Received(s, d)) && s.keys <= Received(s, d).keys
    ensures Receiptable(d) ==> (Handled(s, d) <==> d.body.value.paymentId in Received(s, d).keys)
  {
    var after := Received(s, d);
    forall p: string
      ensures ReceiptsFor(after.sent, p) == if p in after.keys then 1 else 0
    {
      if Reserves(s, d) {
        ReceiptsForSnoc(s.sent, d, p);
      }
    }
  }

  lemma {:induction false} ConsumeStaysBalanced(s: Box, ds: seq<Delivery>)
    requires Balanced(s) && Reliable(ds)
    ensures Balanced(Consume(s, ds)) && s.keys <= Consume(s, ds).keys
  {
    if ds != [] {
      var last := |ds| - 1;
      ConsumeStaysBalanced(s, ds[..last]);
      ReceivedStaysBalanced(Consume(s, ds[..last]), ds[last]);
    }
  }

  lemma ConsumeSplit(s: Box, ds: seq<Delivery>, i: nat)
    requires i <= |ds|
    ensures Consume(s, ds) == Consume(Consume(s, ds[..i]), ds[i..])
  {
    ConsumeConcat(s, ds[..i], ds[i..]);
    assert ds == ds[..i] + ds[i..];
  }

  /**
   * The sequential loop over a working Redis, whatever sends and acknowledgements fail: a message that
   * was handled - and only such a message is acknowledged - has its payment's one receipt sent, and
   * a payment without a receipt has its key free, so that its next delivery can send.
   */
  lemma NoReceiptLost(ds: seq<Delivery>, i: nat)
    requires Reliable(ds) && i < |ds| && Receiptable(ds[i])
    ensures var s := Consume(Box({}, []), ds[..i]);
            var end := Consume(Box({}, []), ds);
            var p := ds[i].body.value.paymentId;
            && (Handled(s, ds[i]) ==> ReceiptsFor(end.sent, p) == 1)
            && (!Handled(s, ds[i]) ==> ReceiptsFor(Received(s, ds[i]).sent, p) == 0)
            && (forall q: string :: ReceiptsFor(end.sent, q) <= 1)
            && (forall q: string :: ReceiptsFor(end.sent, q) == 0 <==> q !in end.keys)
  {
    var init := Box({}, []);
    var s := Consume(init, ds[..i]);
    ConsumeStaysBalanced(init, ds[..i]);
    ReceivedStaysBalanced(s, ds[i]);
    assert ds[..i + 1][..i] == ds[..i];
    ConsumeStaysBalanced(init, ds);
    ConsumeSplit(init, ds, i + 1);
    ConsumeStaysBalanced(Received(s, ds[i]), ds[i + 1..]);
  }

  /** Acknowledged are exactly the messages some delivery of which was handled and acknowledged. */
  lemma {:induction false} AckedAreHandled(s: Box, ds: seq<Delivery>, n: nat)
    ensures n in Acked(s, ds) <==>
            exists i: nat :: i < |ds| && ds[i].sequence == n && AckedAt(s, ds, i)
  {
    if ds != [] {
      var last := |ds| - 1;
      var before := ds[..last];
      AckedAreHandled(s, before, n);
      if i: nat :| i < last && before[i].sequence == n && AckedAt(s, before, i) {
        assert before[..i] == ds[..i] && AckedAt(s, ds, i);
      }
      if i: nat :| i < |ds| && ds[i].sequence == n && AckedAt(s, ds, i) {
        assert i < last ==> before[..i] == ds[..i] && before[i] == ds[i] && AckedAt(s, before, i);
      }
      assert AckedAt(s, ds, last) <==> Handled(Consume(s, before), ds[last]) && !ds[last].ackFails;
    }
  }

  predicate AckedAt(s: Box, ds: seq<Delivery>, i: nat)
    requires i < |ds|
  {
    !ds[i].ackFails && Handled(Consume(s, ds[..i]), ds[i])
  }

  /** So every acknowledged message that asks for a receipt has had exactly one sent for its payment. */
  lemma AcknowledgedIsSent(ds: seq<Delivery>, n: nat)
    requires Reliable(ds) && n in Acked(Box({}, []), ds)
    ensures exists i :: 0 <= i < |ds| && ds[i].sequence == n && ds[i].body.Some? &&
                        (Receiptable(ds[i]) ==>
                           ReceiptsFor(Consume(Box({}, []), ds).sent, ds[i].body.value.paymentId) == 1)
  {
    AckedAreHandled(Box({}, []), ds, n);
    var i: nat :| i < |ds| && ds[i].sequence == n && AckedAt(Box({}, []), ds, i);
    if Receiptable(ds[i]) {
      NoReceiptLost(ds, i);
    }
  }

  // ---------- the mails themselves ----------

  /** The mails are the receipts of the deliveries they were sent for. */
  ghost predicate Backed(mails: seq<Mail>, sent: seq<Delivery>, formatDate: Time -> string) {
    && |mails| == |sent|
    && forall i :: 0 <= i < |sent| ==> sent[i].body.Some? && mails[i] == MailOf(sent[i], formatDate)
  }

  /** Mail `m` is the only one about the payment, and goes where some delivered event of the payment says. */
  ghost predicate OnlyMail(ds: seq<Delivery>, mails: seq<Mail>, m: nat, paymentId: string) {
    && m < |mails| && mails[m].receipt.paymentId == paymentId
    && (forall k :: 0 <= k < |mails| && mails[k].receipt.paymentId == paymentId ==> k == m)
    && exists j :: 0 <= j < |ds| && ds[j].body.Some? && ds[j].body.value.paymentId == paymentId &&
                   mails[m].to == ds[j].body.value.email
  }

  /** Some delivery of message `n` decoded and, if it asks for a receipt, its payment has its one mail. */
  ghost predicate Served(ds: seq<Delivery>, n: nat, mails: seq<Mail>) {
    exists i: nat :: i < |ds| && ds[i].sequence == n && ServedAt(ds, i, mails)
  }

  ghost predicate ServedAt(ds: seq<Delivery>, i: nat, mails: seq<Mail>)
    requires i < |ds|
  {
    && ds[i].body.Some?
    && var event := ds[i].body.value;
    && (event.paymentId != "" && event.email != "" ==> exists m: nat :: OnlyMail(ds, mails, m, event.paymentId))
  }

  predicate IsFor(d: Delivery, p: string) {
    d.body.Some? && d.body.value.paymentId == p
  }

  predicate NoneFor(sent: seq<Delivery>, p: string) {
    forall k :: 0 <= k < |sent| ==> !IsFor(sent[k], p)
  }

  predicate OnlyFor(sent: seq<Delivery>, m: nat, p: string) {
    m < |sent| && IsFor(sent[m], p) && forall k :: 0 <= k < |sent| && k != m ==> !IsFor(sent[k], p)
  }

  lemma {:induction false} CountedNone(sent: seq<Delivery>, p: string)
    requires ReceiptsFor(sent, p) == 0
    ensures NoneFor(sent, p)
  {
    if sent != [] {
      var before := sent[..|sent| - 1];
      CountedNone(before, p);
      assert forall k :: 0 <= k < |before| ==> sent[k] == before[k];
    }
  }

  lemma {:induction false} CountedOnce(sent: seq<Delivery>, p: string) returns (m: nat)
    requires ReceiptsFor(sent, p) == 1
    ensures OnlyFor(sent, m, p)
  {
    var last := |sent| - 1;
    var before := sent[..last];
    assert forall k :: 0 <= k < last ==> sent[k] == before[k];
    if IsFor(sent[last], p) {
      m := last;
      CountedNone(before, p);
    } else {
      m := CountedOnce(before, p);
    }
  }

  lemma {:induction false} SentWasDelivered(ds: seq<Delivery>, d: Delivery)
    requires d in Consume(Box({}, []), ds).sent
    ensures d in ds
  {
    var last := |ds| - 1;
    if d in Consume(Box({}, []), ds[..last]).sent {
      SentWasDelivered(ds[..last], d);
    } else {
      assert d == ds[last];
    }
  }

  /** A handled delivery that asks for a receipt: its payment has exactly one mail, rightly addressed. */
  lemma HandledIsMailed(ds: seq<Delivery>, i: nat, mails: seq<Mail>, formatDate: Time -> string)
    requires Reliable(ds) && Backed(mails, Consume(Box({}, []), ds).sent, formatDate)
    requires i < |ds| && Handled(Consume(Box({}, []), ds[..i]), ds[i])
    ensures ServedAt(ds, i, mails)
  {
    if Receiptable(ds[i]) {
      var p, sent := ds[i].body.value.paymentId, Consume(Box({}, []), ds).sent;
      NoReceiptLost(ds, i);
      var m := CountedOnce(sent, p);
      MailIsOnly(ds, sent, mails, m, p, formatDate);
    }
  }

  lemma MailIsOnly(
    ds: seq<Delivery>, sent: seq<Delivery>, mails: seq<Mail>, m: nat, p: string, formatDate: Time -> string)
    requires sent == Consume(Box({}, []), ds).sent && Backed(mails, sent, formatDate) && OnlyFor(sent, m, p)
    ensures OnlyMail(ds, mails, m, p)
  {
    forall k | 0 <= k < |sent|
      ensures mails[k].receipt.paymentId == sent[k].body.value.paymentId && mails[k].to == sent[k].body.value.email
    {
      MailAnswers(sent[k], formatDate);
    }
    SentWasDelivered(ds, sent[m]);
    var j :| 0 <= j < |ds| && ds[j] == sent[m];
    assert ds[j].body.Some? && ds[j].body.value.paymentId == p && mails[m].to == ds[j].body.value.email;
  }

  lemma AcknowledgedIsServed(ds: seq<Delivery>, n: nat, mails: seq<Mail>, formatDate: Time -> string)
    requires Reliable(ds) && Backed(mails, Consume(Box({}, []), ds).sent, formatDate)
    requires n in Acked(Box({}, []), ds)
    ensures Served(ds, n, mails)
  {
    AckedAreHandled(Box({}, []), ds, n);
    var i: nat :| i < |ds| && ds[i].sequence == n && AckedAt(Box({}, []), ds, i);
    HandledIsMailed(ds, i, mails, formatDate);
  }

  /** A redelivery of an unsent payment whose send works delivers the receipt it describes. */
  lemma UnsentCanStillBeSent(ds: seq<Delivery>, d: Delivery)
    requires Reliable(ds) && Receiptable(d) && d.mark.MarkAnswered? && !d.sendFails
    requires ReceiptsFor(Consume(Box({}, []), ds).sent, d.body.value.paymentId) == 0
    ensures var s := Consume(Box({}, []), ds);
            && Handled(s, d)
            && Received(s, d).sent == s.sent + [d]
  {
    ConsumeStaysBalanced(Box({}, []), ds);
  }
}
