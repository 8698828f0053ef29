// The whole pipeline as one step system: concurrent webhook calls over the payments table, the stream
// with redelivery, the order service with its interleaved admin updates, and concurrent receipt handlers.
module Settlement {
  import opened Common
  import opened Machine
  import opened Stream
  import opened PaymentStore
  import Webhook
  import OrderStore
  import OrderConsumer
  import ReceiptProtocol
  import ConcurrentReceipts

  /** A webhook call between its read and its write, and between its write and its publication. */
  datatype Call =
    | Merged(read: Payment, input: SuccessInput)
    | Saved(result: SuccessResult, input: SuccessInput)
  {
    /** The row the call is about to save. */
    function Row(): Payment
      requires Merged?
    {
      Filled(read, input)
    }
  }

  /** Published messages stay on the stream, so any of them may be delivered again at any time. */
  datatype State = State(
    payments: Payments, next: Uuid, webhooks: map<nat, Call>, stream: set<PaymentSucceeded>,
    orders: OrderStore.State, receipts: ConcurrentReceipts.State)

  const INIT := State(map[], 0, map[], {}, OrderStore.INIT, ConcurrentReceipts.INIT)

  datatype Step =
    | OpenPayment(row: Payment)
    | WebhookRead(call: nat, input: SuccessInput, newId: Uuid)
    | WebhookSave(call: nat)
    | WebhookPublish(call: nat)
    | WebhookDrop(call: nat) // a failed statement or publication, or a crash
    | DeletePayment(id: Uuid)
    | Deliver(delivery: OrderConsumer.Delivery)
    | OrderStep(statement: OrderStore.Step)
    | ReceiptMark(handler: nat, event: PaymentSucceeded, outcome: ReceiptProtocol.MarkOutcome)
    | ReceiptStep(action: ConcurrentReceipts.Step)

  /** One step; a step that is not enabled has no effect. */
  ghost function Advance(ids: UuidText, s: State, step: Step): State {
    match step
    case OpenPayment(row) =>
      if row.id >= s.next && row.status == Pending && MaySave(s.payments, row)
      then s.(payments := s.payments[row.id := row], next := row.id + 1) else s
    case WebhookRead(call, input, newId) =>
      if call in s.webhooks || newId < s.next then s
      else s.(webhooks := s.webhooks[call := Merged(Loaded(s.payments, input, newId), input)], next := newId + 1)
    case WebhookSave(call) =>
      if call !in s.webhooks || !s.webhooks[call].Merged? then s
      else
        var Merged(read, input) := s.webhooks[call];
        var row := Filled(read, input);
        if MaySave(s.payments, row)
        then s.(payments := s.payments[row.id := row],
                webhooks := s.webhooks[call := Saved(ResultOf(row, input, read.status == Succeeded), input)])
        else s.(webhooks := s.webhooks - {call})
    case WebhookPublish(call) =>
      if call !in s.webhooks || !s.webhooks[call].Saved? then s
      else
        var Saved(result, input) := s.webhooks[call];
        s.(webhooks := s.webhooks - {call}, stream := s.stream + {Webhook.Announcement(ids.show, result, input)})
    case WebhookDrop(call) => s.(webhooks := s.webhooks - {call})
    case DeletePayment(id) => s.(payments := s.payments - {id})
    case Deliver(d) =>
      if d.body.Some? && d.body.value in s.stream
      then s.(orders := s.orders.(rows := OrderConsumer.HandleRows(ids, s.orders.rows, d))) else s
    case OrderStep(step) =>
      if step.Pay? then s else s.(orders := OrderStore.Apply(s.orders, step))
    case ReceiptMark(handler, event, outcome) =>
      if event in s.stream && event.paymentId != "" && event.email != ""
      then
        var mark := ConcurrentReceipts.Mark(handler, event.paymentId, outcome);
        s.(receipts := ConcurrentReceipts.Apply(s.receipts, mark))
      else s
    case ReceiptStep(step) =>
      if step.Mark? then s else s.(receipts := ConcurrentReceipts.Apply(s.receipts, step))
  }

  ghost function Execute(ids: UuidText, s: State, steps: seq<Step>): State {
    if steps == [] then s else Advance(ids, Execute(ids, s, steps[..|steps| - 1]), steps[|steps| - 1])
  }

  lemma ExecuteNext(ids: UuidText, steps: seq<Step>, n: nat)
    requires n < |steps|
    ensures Execute(ids, INIT, steps[..n + 1]) == Advance(ids, Execute(ids, INIT, steps[..n]), steps[n])
  {
    assert steps[..n + 1][..n] == steps[..n];
  }

  predicate NeverDeleted(steps: seq<Step>, k: Uuid) {
    forall n :: 0 <= n < |steps| ==> steps[n] != DeletePayment(k)
  }

  // ---------- the atomic merge is a read directly followed by its save ----------

  lemma ReadThenSaveIsUpsert(ids: UuidText, s: State, call: nat, input: SuccessInput, newId: Uuid)
    requires call !in s.webhooks && newId >= s.next
    ensures var t := Advance(ids, Advance(ids, s, WebhookRead(call, input, newId)), WebhookSave(call));
            var (rows, result) := Upsert(s.payments, input, newId);
            && t.payments == rows
            && t.webhooks == (if result.Success? then s.webhooks[call := Saved(result.value, input)] else s.webhooks)
  {
    var t := Advance(ids, s, WebhookRead(call, input, newId));
    assert t.webhooks - {call} == s.webhooks;
  }

  // ---------- provenance ----------

  /** What a message repeats of the row it announces. */
  datatype Facts = Facts(orderId: string, email: string, amount: Int64, currency: string)

  function RowFacts(row: Payment): Facts {
    Facts(row.orderId, row.email, row.amount, row.currency)
  }

  function ResultFacts(result: SuccessResult): Facts {
    Facts(result.orderId, result.email, result.amount, result.currency)
  }

  /** Step `i` saved row `id` as succeeded with these facts. */
  ghost predicate SavedAt(ids: UuidText, steps: seq<Step>, i: nat, id: Uuid, facts: Facts) {
    && i < |steps| && steps[i].WebhookSave?
    && var rows := Execute(ids, INIT, steps[..i + 1]).payments;
    && id in rows && rows[id].status == Succeeded && RowFacts(rows[id]) == facts
  }

  ghost predicate WasSaved(ids: UuidText, steps: seq<Step>, id: Uuid, facts: Facts) {
    exists i: nat :: SavedAt(ids, steps, i, id, facts)
  }

  /** Step `i` saved, as succeeded, the row the event announces, with everything the event repeats of it. */
  ghost predicate AnnouncedRow(ids: UuidText, steps: seq<Step>, i: nat, id: Uuid, e: PaymentSucceeded) {
    && i < |steps| && steps[i].WebhookSave? && ids.show(id) == e.paymentId
    && var rows := Execute(ids, INIT, steps[..i + 1]).payments;
    && id in rows && rows[id].status == Succeeded
    && rows[id].orderId == e.orderId && rows[id].email == e.email
    && rows[id].amount == e.amount && rows[id].currency == e.currency
  }

  ghost predicate Grounded(ids: UuidText, steps: seq<Step>, e: PaymentSucceeded) {
    exists i: nat, id: Uuid :: AnnouncedRow(ids, steps, i, id, e)
  }

  lemma WasSavedExtends(ids: UuidText, steps: seq<Step>, n: nat, id: Uuid, facts: Facts)
    requires n <= |steps| && WasSaved(ids, steps[..n], id, facts)
    ensures WasSaved(ids, steps, id, facts)
  {
    var i: nat :| SavedAt(ids, steps[..n], i, id, facts);
    assert steps[..n][..i + 1] == steps[..i + 1];
    assert SavedAt(ids, steps, i, id, facts);
  }

  lemma GroundedExtends(ids: UuidText, steps: seq<Step>, n: nat, e: PaymentSucceeded)
    requires n <= |steps| && Grounded(ids, steps[..n], e)
    ensures Grounded(ids, steps, e)
  {
    var i: nat, id: Uuid :| AnnouncedRow(ids, steps[..n], i, id, e);
    assert steps[..n][..i + 1] == steps[..i + 1];
    assert AnnouncedRow(ids, steps, i, id, e);
  }

  /** A published message announces the row its call saved. */
  lemma SavedIsAnnounced(
    ids: UuidText, steps: seq<Step>, result: SuccessResult, input: SuccessInput, e: PaymentSucceeded)
    requires WasSaved(ids, steps, result.paymentId, ResultFacts(result))
    requires e == Webhook.Announcement(ids.show, result, input)
    ensures Grounded(ids, steps, e)
  {
    var i: nat :| SavedAt(ids, steps, i, result.paymentId, ResultFacts(result));
    assert AnnouncedRow(ids, steps, i, result.paymentId, e);
  }

  ghost predicate CallGrounded(ids: UuidText, steps: seq<Step>, call: Call) {
    match call
    case Merged(_, _) => true
    case Saved(result, _) => WasSaved(ids, steps, result.paymentId, ResultFacts(result))
  }

  ghost predicate CallsGrounded(ids: UuidText, steps: seq<Step>, calls: map<nat, Call>) {
    forall c :: c in calls ==> CallGrounded(ids, steps, calls[c])
  }

  ghost predicate EventsGrounded(ids: UuidText, steps: seq<Step>, stream: set<PaymentSucceeded>) {
    forall e :: e in stream ==> Grounded(ids, steps, e)
  }

  lemma CallGroundedExtends(ids: UuidText, steps: seq<Step>, n: nat, call: Call)
    requires n <= |steps| && CallGrounded(ids, steps[..n], call)
    ensures CallGrounded(ids, steps, call)
  {
    if call.Saved? {
      WasSavedExtends(ids, steps, n, call.result.paymentId, ResultFacts(call.result));
    }
  }

  /** A step leaves a call as it was, starts one, or saves one's row. */
  lemma AdvanceCall(ids: UuidText, s: State, step: Step, c: nat)
    requires c in Advance(ids, s, step).webhooks
    ensures var t := Advance(ids, s, step);
            || (c in s.webhooks && t.webhooks[c] == s.webhooks[c])
            || t.webhooks[c].Merged?
            || (&& step == WebhookSave(c) && c in s.webhooks && s.webhooks[c].Merged? && t.webhooks[c].Saved?
                && var row := s.webhooks[c].Row();
                && row.id in t.payments && t.payments[row.id] == row && row.status == Succeeded
                && t.webhooks[c].result.paymentId == row.id && ResultFacts(t.webhooks[c].result) == RowFacts(row))
  {
  }

  lemma CallsStayGrounded(ids: UuidText, steps: seq<Step>, last: nat)
    requires |steps| == last + 1
    requires CallsGrounded(ids, steps[..last], Execute(ids, INIT, steps[..last]).webhooks)
    ensures CallsGrounded(ids, steps, Execute(ids, INIT, steps).webhooks)
  {
    var before, s := Execute(ids, INIT, steps[..last]), Execute(ids, INIT, steps);
    assert steps[..last + 1] == steps;
    forall c | c in s.webhooks
      ensures CallGrounded(ids, steps, s.webhooks[c])
    {
      AdvanceCall(ids, before, steps[last], c);
      assert c in before.webhooks ==> CallGrounded(ids, steps[..last], before.webhooks[c]);
      if c in before.webhooks && s.webhooks[c] == before.webhooks[c] {
        CallGroundedExtends(ids, steps, last, before.webhooks[c]);
      } else if s.webhooks[c].Saved? {
        assert SavedAt(ids, steps, last, s.webhooks[c].result.paymentId, ResultFacts(s.webhooks[c].result));
      }
    }
  }

  lemma EventsStayGrounded(ids: UuidText, steps: seq<Step>, last: nat)
    requires |steps| == last + 1
    requires CallsGrounded(ids, steps[..last], Execute(ids, INIT, steps[..last]).webhooks)
    requires EventsGrounded(ids, steps[..last], Execute(ids, INIT, steps[..last]).stream)
    ensures EventsGrounded(ids, steps, Execute(ids, INIT, steps).stream)
  {
    var before := Execute(ids, INIT, steps[..last]);
    forall e | e in Execute(ids, INIT, steps).stream
      ensures Grounded(ids, steps, e)
    {
      if e in before.stream {
        GroundedExtends(ids, steps, last, e);
      } else {
        var call := before.webhooks[steps[last].call];
        assert CallGrounded(ids, steps[..last], call);
        CallGroundedExtends(ids, steps, last, call);
        SavedIsAnnounced(ids, steps, call.result, call.input, e);
      }
    }
  }

  lemma {:induction false} PublishedAreGrounded(ids: UuidText, steps: seq<Step>)
    ensures CallsGrounded(ids, steps, Execute(ids, INIT, steps).webhooks)
    ensures EventsGrounded(ids, steps, Execute(ids, INIT, steps).stream)
  {
    if steps != [] {
      var last := |steps| - 1;
      PublishedAreGrounded(ids, steps[..last]);
      CallsStayGrounded(ids, steps, last);
      EventsStayGrounded(ids, steps, last);
    }
  }

  /** Step `k` was an admin's write of status paid to the order. */
  ghost predicate PaidByAdmin(ids: UuidText, steps: seq<Step>, k: nat, id: Uuid) {
    && k < |steps| && steps[k].OrderStep? && steps[k].statement.AdminWrite?
    && var calls := Execute(ids, INIT, steps[..k]).orders.calls;
    && steps[k].statement.call in calls
    && calls[steps[k].statement.call].id == id && calls[steps[k].statement.call].status == OrderStore.Paid
  }

  /** Step `k` delivered a published event naming the order, and its update reached the table. */
  ghost predicate PaidByEvent(ids: UuidText, steps: seq<Step>, k: nat, id: Uuid) {
    && k < |steps| && steps[k].Deliver? && steps[k].delivery.body.Some?
    && var event := steps[k].delivery.body.value;
    && event in Execute(ids, INIT, steps[..k]).stream
    && event.orderId != "" && ids.parse(event.orderId) == Some(id) && !steps[k].delivery.dbFails
  }

  ghost predicate PaidAfter(ids: UuidText, steps: seq<Step>, n: nat, id: Uuid)
    requires n <= |steps|
  {
    IsPaid(Execute(ids, INIT, steps[..n]), id)
  }

  /** Step `k` made the order paid, and it has been paid ever since. */
  ghost predicate BecamePaidAt(ids: UuidText, steps: seq<Step>, k: nat, id: Uuid) {
    && k < |steps|
    && !PaidAfter(ids, steps, k, id)
    && (forall n: nat :: k < n <= |steps| ==> PaidAfter(ids, steps, n, id))
    && (PaidByAdmin(ids, steps, k, id) || PaidByEvent(ids, steps, k, id))
  }

  lemma BecamePaidExtends(ids: UuidText, steps: seq<Step>, last: nat, k: nat, id: Uuid)
    requires |steps| == last + 1 && BecamePaidAt(ids, steps[..last], k, id) && IsPaid(Execute(ids, INIT, steps), id)
    ensures BecamePaidAt(ids, steps, k, id)
  {
    var before := steps[..last];
    assert before[..k] == steps[..k] && steps[..|steps|] == steps;
    forall n: nat | k < n <= |steps|
      ensures PaidAfter(ids, steps, n, id)
    {
      if n <= last {
        assert before[..n] == steps[..n] && PaidAfter(ids, before, n, id);
      }
    }
  }

  predicate IsPaid(s: State, id: Uuid) {
    id in s.orders.rows && s.orders.rows[id].status == OrderStore.Paid
  }

  /** A step that makes an order paid is an admin's write or an effective delivery. */
  lemma PaidByStep(ids: UuidText, steps: seq<Step>, last: nat, id: Uuid)
    requires |steps| == last + 1
    requires IsPaid(Execute(ids, INIT, steps), id) && !IsPaid(Execute(ids, INIT, steps[..last]), id)
    ensures BecamePaidAt(ids, steps, last, id)
  {
    assert steps[..last + 1] == steps;
    if steps[last].Deliver? {
      assert PaidByEvent(ids, steps, last, id);
    } else {
      assert PaidByAdmin(ids, steps, last, id);
    }
  }

  lemma {:induction false} PaidHasCause(ids: UuidText, steps: seq<Step>, id: Uuid)
    requires IsPaid(Execute(ids, INIT, steps), id)
    ensures exists k: nat :: BecamePaidAt(ids, steps, k, id)
  {
    var last := |steps| - 1;
    if IsPaid(Execute(ids, INIT, steps[..last]), id) {
      PaidHasCause(ids, steps[..last], id);
      var k: nat :| BecamePaidAt(ids, steps[..last], k, id);
      BecamePaidExtends(ids, steps, last, k, id);
    } else {
      PaidByStep(ids, steps, last, id);
    }
  }

  /** Step `i` saved, as succeeded, the row that the event of step `k` announces, and that row names the order. */
  ghost predicate RowNames(ids: UuidText, steps: seq<Step>, i: nat, rowId: Uuid, k: nat, id: Uuid)
    requires k < |steps| && steps[k].Deliver? && steps[k].delivery.body.Some?
  {
    && i < k && AnnouncedRow(ids, steps, i, rowId, steps[k].delivery.body.value)
    && ids.parse(Execute(ids, INIT, steps[..i + 1]).payments[rowId].orderId) == Some(id)
  }

  /**
   * Provenance over whole runs: with concurrent webhook calls, retries, redeliveries, failures, admin
   * updates and deletions, one step made a paid order paid and it has been paid ever since. That step was
   * an admin's write or the working delivery of an event whose order id is the order's; and before it the
   * payment row the event announces, itself naming that order and with the email, amount and currency the
   * event repeats, was saved as succeeded.
   */
  lemma Provenance(ids: UuidText, steps: seq<Step>, id: Uuid)
    requires IsPaid(Execute(ids, INIT, steps), id)
    ensures exists k: nat ::
              && BecamePaidAt(ids, steps, k, id)
              && (PaidByAdmin(ids, steps, k, id) ||
                  (PaidByEvent(ids, steps, k, id) &&
                   exists i: nat, rowId: Uuid :: RowNames(ids, steps, i, rowId, k, id)))
  {
    PaidHasCause(ids, steps, id);
    var k: nat :| BecamePaidAt(ids, steps, k, id);
    if PaidByEvent(ids, steps, k, id) {
      var event := steps[k].delivery.body.value;
      PublishedAreGrounded(ids, steps[..k]);
      var i: nat, rowId: Uuid :| AnnouncedRow(ids, steps[..k], i, rowId, event);
      assert steps[..k][..i + 1] == steps[..i + 1];
      assert RowNames(ids, steps, i, rowId, k, id);
    }
  }

  /** A receipt names a payment published on the stream, whose row had been saved as succeeded before. */
  ghost predicate KeysPublished(s: State) {
    && (forall k :: k in s.receipts.keys || k in s.receipts.sent ==> Published(s, k))
    && (forall h :: h in s.receipts.handlers ==> Published(s, s.receipts.handlers[h].key))
  }

  ghost predicate Published(s: State, paymentId: string) {
    exists e :: e in s.stream && e.paymentId == paymentId
  }

  lemma PublishedExtends(s: State, t: State, paymentId: string)
    requires s.stream <= t.stream && Published(s, paymentId)
    ensures Published(t, paymentId)
  {
    var e :| e in s.stream && e.paymentId == paymentId;
    assert e in t.stream;
  }

  /** The keys of receipts come from marks, and a mark names a payment on the stream. */
  lemma AdvanceKeyPublished(ids: UuidText, s: State, step: Step, k: string)
    requires KeysPublished(s)
    requires var r := Advance(ids, s, step).receipts;
             k in r.keys || k in r.sent || exists h :: h in r.handlers && r.handlers[h].key == k
    ensures Published(Advance(ids, s, step), k)
  {
    if Published(s, k) {
      PublishedExtends(s, Advance(ids, s, step), k);
    }
  }

  lemma AdvanceKeysPublished(ids: UuidText, s: State, step: Step)
    requires KeysPublished(s)
    ensures KeysPublished(Advance(ids, s, step))
  {
    var t := Advance(ids, s, step);
    forall k | k in t.receipts.keys || k in t.receipts.sent
      ensures Published(t, k)
    {
      AdvanceKeyPublished(ids, s, step, k);
    }
    forall h | h in t.receipts.handlers
      ensures Published(t, t.receipts.handlers[h].key)
    {
      AdvanceKeyPublished(ids, s, step, t.receipts.handlers[h].key);
    }
  }

  lemma AdvanceReceipts(ids: UuidText, s: State, step: Step)
    requires ConcurrentReceipts.Inv(s.receipts)
    ensures ConcurrentReceipts.Inv(Advance(ids, s, step).receipts)
  {
    match step
    case ReceiptMark(handler, event, outcome) =>
      ConcurrentReceipts.ApplyKeeps(s.receipts, ConcurrentReceipts.Mark(handler, event.paymentId, outcome));
    case ReceiptStep(action) =>
      ConcurrentReceipts.ApplyKeeps(s.receipts, action);
    case _ =>
  }

  lemma {:induction false} ReceiptsRun(ids: UuidText, steps: seq<Step>)
    ensures KeysPublished(Execute(ids, INIT, steps)) && ConcurrentReceipts.Inv(Execute(ids, INIT, steps).receipts)
  {
    if steps == [] {
      ConcurrentReceipts.InitKeeps();
    } else {
      var last := |steps| - 1;
      ReceiptsRun(ids, steps[..last]);
      AdvanceKeysPublished(ids, Execute(ids, INIT, steps[..last]), steps[last]);
      AdvanceReceipts(ids, Execute(ids, INIT, steps[..last]), steps[last]);
    }
  }

  /** Every receipt ever sent is the only one for its payment and rests on a row saved as succeeded. */
  lemma ReceiptProvenance(ids: UuidText, steps: seq<Step>, i: nat)
    requires i < |Execute(ids, INIT, steps).receipts.sent|
    ensures var s := Execute(ids, INIT, steps);
            && (forall j :: 0 <= j < |s.receipts.sent| && j != i ==> s.receipts.sent[j] != s.receipts.sent[i])
            && exists e :: e in s.stream && e.paymentId == s.receipts.sent[i] && Grounded(ids, steps, e)
  {
    ReceiptsRun(ids, steps);
    PublishedAreGrounded(ids, steps);
    var s := Execute(ids, INIT, steps);
    assert Published(s, s.receipts.sent[i]);
  }
}
