// One row and one receipt for each Stripe payment, over the interleaved pipeline.
module OnePayment {
  import opened Common
  import opened PaymentStore
  import opened Settlement
  import opened Conservation
  import PaymentServer
  import Stream
  import ConcurrentReceipts

  // ---------- every appearance of a row agrees on whose it is ----------

  /** The row belongs to the payment. */
  predicate Ours(row: Payment, session: string, intent: string) {
    row.stripeSessionId == Some(session) || row.stripePaymentId == Some(intent)
  }

  /** The row carries no other payment's Stripe id. */
  predicate Unmixed(row: Payment, session: string, intent: string) {
    row.stripeSessionId in [None, Some(session)] && row.stripePaymentId in [None, Some(intent)]
  }

  /** A row of the payment carries no foreign id; one about to be saved carries the intent already. */
  ghost predicate RowsAgree(s: State, session: string, intent: string) {
    && (forall k :: k in s.payments && Ours(s.payments[k], session, intent) ==> Unmixed(s.payments[k], session, intent))
    && (forall c :: c in s.webhooks && s.webhooks[c].Merged? ==> CallAgrees(s, s.webhooks[c], session, intent))
    && (forall c, d :: c in s.webhooks && d in s.webhooks && s.webhooks[c].Merged? && s.webhooks[d].Merged? &&
                       s.webhooks[c].read.id == s.webhooks[d].read.id ==>
                         (Ours(s.webhooks[c].Row(), session, intent) <==> Ours(s.webhooks[d].Row(), session, intent)))
  }

  /** What a call is about to save: the payment's row exactly if the table has it so or its event is about it. */
  ghost predicate CallAgrees(s: State, call: Call, session: string, intent: string)
    requires call.Merged?
  {
    var row := call.Row();
    && (Ours(row, session, intent) ==> Unmixed(row, session, intent) && row.stripePaymentId == Some(intent))
    && (call.input.stripePaymentId == intent ==> Ours(row, session, intent))
    && (row.id in s.payments ==> (Ours(s.payments[row.id], session, intent) <==> Ours(row, session, intent)))
  }

  /** Row `k` is in the table and holds the intent. */
  predicate HoldsIntent(s: State, k: Uuid, intent: string) {
    k in s.payments && s.payments[k].stripePaymentId == Some(intent)
  }

  ghost predicate NamesHolder(ids: UuidText, s: State, paymentId: string, intent: string) {
    exists k: Uuid :: HoldsIntent(s, k, intent) && ids.show(k) == paymentId
  }

  /** A saved call or a published event about the payment names the row that holds its intent. */
  ghost predicate NamesAgree(ids: UuidText, s: State, intent: string) {
    && (forall c :: c in s.webhooks && s.webhooks[c].Saved? ==> SavedAgrees(s, s.webhooks[c], intent))
    && (forall e :: e in s.stream && e.stripePaymentId == intent ==> NamesHolder(ids, s, e.paymentId, intent))
  }

  predicate SavedAgrees(s: State, call: Call, intent: string)
    requires call.Saved?
  {
    && call.result.stripePaymentId == call.input.stripePaymentId
    && (call.input.stripePaymentId == intent ==> HoldsIntent(s, call.result.paymentId, intent))
  }

  ghost predicate Coherent(ids: UuidText, s: State, session: string, intent: string) {
    IdsBelow(ids, s) && RowsAgree(s, session, intent) && NamesAgree(ids, s, intent)
  }

  /**
   * Stripe's two event kinds about the payment, rows as CreatePayment opens them, and no deletion of a
   * row that holds the intent. Nothing is asked about the order in which the events are handled.
   */
  predicate Orderly(s: State, step: Step, session: string, intent: string) {
    && (step.WebhookRead? ==> StripeOrder(Succeed(step.input, step.newId), session, intent))
    && (step.OpenPayment? ==> step.row.stripePaymentId.None?)
    && (step.DeletePayment? ==> !HoldsIntent(s, step.id, intent))
  }

  ghost predicate AllOrderly(ids: UuidText, steps: seq<Step>, session: string, intent: string) {
    forall n: nat :: n < |steps| ==> OrderlyAt(ids, steps, n, session, intent)
  }

  ghost predicate OrderlyAt(ids: UuidText, steps: seq<Step>, n: nat, session: string, intent: string)
    requires n < |steps|
  {
    Orderly(Execute(ids, INIT, steps[..n]), steps[n], session, intent)
  }

  lemma OrderlyPrefix(ids: UuidText, steps: seq<Step>, n: nat, session: string, intent: string)
    requires n <= |steps| && AllOrderly(ids, steps, session, intent)
    ensures AllOrderly(ids, steps[..n], session, intent)
  {
    forall i: nat | i < n
      ensures OrderlyAt(ids, steps[..n], i, session, intent)
    {
      assert steps[..n][..i] == steps[..i] && OrderlyAt(ids, steps, i, session, intent);
    }
  }

  // ---------- one step ----------

  /** Whether a call about to start works on the payment's row: exactly if its event is about the payment. */
  lemma ReadAgrees(s: State, input: SuccessInput, newId: Uuid, session: string, intent: string)
    requires session != "" && intent != "" && RowsAgree(s, session, intent)
    requires StripeOrder(Succeed(input, newId), session, intent) && newId !in s.payments
    requires forall k :: k in s.payments ==> s.payments[k].id == k
    ensures CallAgrees(s, Merged(Loaded(s.payments, input, newId), input), session, intent)
  {
    SelectSound(s.payments, input);
  }

  lemma ReadKeepsRows(
    ids: UuidText, s: State, c: nat, input: SuccessInput, newId: Uuid, session: string, intent: string)
    requires session != "" && intent != "" && IdsBelow(ids, s) && RowsAgree(s, session, intent)
    requires StripeOrder(Succeed(input, newId), session, intent) && c !in s.webhooks && newId >= s.next
    ensures RowsAgree(Advance(ids, s, WebhookRead(c, input, newId)), session, intent)
  {
    ReadAgrees(s, input, newId, session, intent);
    SelectSound(s.payments, input);
    var t := Advance(ids, s, WebhookRead(c, input, newId));
    forall d | d in s.webhooks && s.webhooks[d].Merged? && s.webhooks[d].read.id == t.webhooks[c].read.id
      ensures Ours(s.webhooks[d].Row(), session, intent) <==> Ours(t.webhooks[c].Row(), session, intent)
    {
      assert CallAgrees(s, s.webhooks[d], session, intent);
    }
  }

  lemma SaveKeepsRows(ids: UuidText, s: State, c: nat, session: string, intent: string)
    requires RowsAgree(s, session, intent) && c in s.webhooks && s.webhooks[c].Merged?
    ensures RowsAgree(Advance(ids, s, WebhookSave(c)), session, intent)
  {
    var t := Advance(ids, s, WebhookSave(c));
    assert CallAgrees(s, s.webhooks[c], session, intent);
    forall d | d in t.webhooks && t.webhooks[d].Merged?
      ensures CallAgrees(t, t.webhooks[d], session, intent)
    {
      assert CallAgrees(s, s.webhooks[d], session, intent);
    }
  }

  lemma OthersKeepCall(ids: UuidText, s: State, step: Step, c: nat, session: string, intent: string)
    requires intent != "" && IdsBelow(ids, s) && RowsAgree(s, session, intent) && Orderly(s, step, session, intent)
    requires !step.WebhookRead? && !step.WebhookSave?
    requires c in Advance(ids, s, step).webhooks && Advance(ids, s, step).webhooks[c].Merged?
    ensures c in s.webhooks && s.webhooks[c] == Advance(ids, s, step).webhooks[c]
    ensures CallAgrees(Advance(ids, s, step), s.webhooks[c], session, intent)
  {
    assert CallAgrees(s, s.webhooks[c], session, intent);
  }

  lemma OthersKeepRows(ids: UuidText, s: State, step: Step, session: string, intent: string)
    requires intent != "" && IdsBelow(ids, s) && RowsAgree(s, session, intent) && Orderly(s, step, session, intent)
    requires !step.WebhookRead? && !step.WebhookSave?
    ensures RowsAgree(Advance(ids, s, step), session, intent)
  {
    var t := Advance(ids, s, step);
    forall c | c in t.webhooks && t.webhooks[c].Merged?
      ensures c in s.webhooks && s.webhooks[c] == t.webhooks[c] && CallAgrees(t, t.webhooks[c], session, intent)
    {
      OthersKeepCall(ids, s, step, c, session, intent);
    }
  }

  lemma AdvanceKeepsRows(ids: UuidText, s: State, step: Step, session: string, intent: string)
    requires session != "" && intent != "" && IdsBelow(ids, s) && RowsAgree(s, session, intent)
    requires Orderly(s, step, session, intent)
    ensures RowsAgree(Advance(ids, s, step), session, intent)
  {
    match step
    case WebhookRead(c, input, newId) =>
      if c !in s.webhooks && newId >= s.next {
        ReadKeepsRows(ids, s, c, input, newId, session, intent);
      }
    case WebhookSave(c) =>
      if c in s.webhooks && s.webhooks[c].Merged? {
        SaveKeepsRows(ids, s, c, session, intent);
      }
    case _ =>
      OthersKeepRows(ids, s, step, session, intent);
  }

  /** A row that holds the intent goes on holding it: every save of it carries the intent. */
  lemma HolderStays(ids: UuidText, s: State, step: Step, k: Uuid, session: string, intent: string)
    requires IdsBelow(ids, s) && RowsAgree(s, session, intent) && Orderly(s, step, session, intent)
    requires HoldsIntent(s, k, intent)
    ensures HoldsIntent(Advance(ids, s, step), k, intent)
  {
    if step.WebhookSave? && step.call in s.webhooks && s.webhooks[step.call].Merged? {
      assert CallAgrees(s, s.webhooks[step.call], session, intent);
    }
  }

  lemma AdvanceKeepsNames(ids: UuidText, s: State, step: Step, session: string, intent: string)
    requires Coherent(ids, s, session, intent) && Orderly(s, step, session, intent)
    ensures NamesAgree(ids, Advance(ids, s, step), intent)
  {
    var t := Advance(ids, s, step);
    forall c | c in t.webhooks && t.webhooks[c].Saved?
      ensures SavedAgrees(t, t.webhooks[c], intent)
    {
      if c in s.webhooks && s.webhooks[c].Merged? {
        assert CallAgrees(s, s.webhooks[c], session, intent);
      } else if t.webhooks[c].input.stripePaymentId == intent {
        HolderStays(ids, s, step, t.webhooks[c].result.paymentId, session, intent);
      }
    }
    forall e | e in t.stream && e.stripePaymentId == intent
      ensures NamesHolder(ids, t, e.paymentId, intent)
    {
      HolderNamed(ids, s, step, e, session, intent);
    }
  }

  lemma HolderNamed(
    ids: UuidText, s: State, step: Step, e: Stream.PaymentSucceeded, session: string, intent: string)
    requires Coherent(ids, s, session, intent) && Orderly(s, step, session, intent)
    requires e in Advance(ids, s, step).stream && e.stripePaymentId == intent
    ensures NamesHolder(ids, Advance(ids, s, step), e.paymentId, intent)
  {
    var k: Uuid;
    if e in s.stream {
      k :| HoldsIntent(s, k, intent) && ids.show(k) == e.paymentId;
    } else {
      assert SavedAgrees(s, s.webhooks[step.call], intent);
      k := s.webhooks[step.call].result.paymentId;
    }
    HolderStays(ids, s, step, k, session, intent);
  }

  lemma {:induction false} CoherentRun(ids: UuidText, steps: seq<Step>, session: string, intent: string)
    requires session != "" && intent != "" && AllOrderly(ids, steps, session, intent)
    ensures Coherent(ids, Execute(ids, INIT, steps), session, intent)
  {
    if steps != [] {
      var last := |steps| - 1;
      OrderlyPrefix(ids, steps, last, session, intent);
      CoherentRun(ids, steps[..last], session, intent);
      assert OrderlyAt(ids, steps, last, session, intent);
      AdvanceCoherent(ids, Execute(ids, INIT, steps[..last]), steps[last], session, intent);
    }
  }

  lemma AdvanceCoherent(ids: UuidText, s: State, step: Step, session: string, intent: string)
    requires session != "" && intent != "" && Coherent(ids, s, session, intent) && Orderly(s, step, session, intent)
    ensures Coherent(ids, Advance(ids, s, step), session, intent)
  {
    ApplyIdsBelow(ids, s, step);
    AdvanceKeepsRows(ids, s, step, session, intent);
    AdvanceKeepsNames(ids, s, step, session, intent);
  }

  // ---------- one receipt per Stripe payment, in whatever order its events come ----------

  /** The unique index leaves one holder, so all events about the payment name the same row. */
  lemma OneHolder(ids: UuidText, s: State, session: string, intent: string, j: Uuid, k: Uuid)
    requires Coherent(ids, s, session, intent) && HoldsIntent(s, j, intent) && HoldsIntent(s, k, intent)
    ensures j == k
  {
    assert MaySave(s.payments, s.payments[k]);
    assert j != k ==> Clash(s.payments[j], s.payments[k]);
  }

  /** Receipt `i` was sent for a message about the Stripe payment. */
  ghost predicate ReceiptOf(s: State, i: nat, intent: string) {
    && i < |s.receipts.sent|
    && exists e :: e in s.stream && e.stripePaymentId == intent && e.paymentId == s.receipts.sent[i]
  }

  ghost predicate AllNameOne(s: State, intent: string) {
    forall e, f :: e in s.stream && f in s.stream && e.stripePaymentId == intent == f.stripePaymentId ==>
                     e.paymentId == f.paymentId
  }

  lemma CoherentNamesOne(ids: UuidText, s: State, session: string, intent: string)
    requires Coherent(ids, s, session, intent)
    ensures AllNameOne(s, intent)
  {
    forall e, f | e in s.stream && f in s.stream && e.stripePaymentId == intent == f.stripePaymentId
      ensures e.paymentId == f.paymentId
    {
      assert NamesHolder(ids, s, e.paymentId, intent) && NamesHolder(ids, s, f.paymentId, intent);
      var j: Uuid :| HoldsIntent(s, j, intent) && ids.show(j) == e.paymentId;
      var k: Uuid :| HoldsIntent(s, k, intent) && ids.show(k) == f.paymentId;
      OneHolder(ids, s, session, intent, j, k);
    }
  }

  lemma OneNameOneReceipt(s: State, intent: string, i: nat, j: nat)
    requires AllNameOne(s, intent) && ConcurrentReceipts.Inv(s.receipts)
    requires ReceiptOf(s, i, intent) && ReceiptOf(s, j, intent)
    ensures i == j
  {
    var e :| e in s.stream && e.stripePaymentId == intent && e.paymentId == s.receipts.sent[i];
    var f :| f in s.stream && f.stripePaymentId == intent && f.paymentId == s.receipts.sent[j];
    assert e.paymentId == f.paymentId;
  }

  /**
   * Over every run - session and intent events in any order, overlapping at will, with retries, failures,
   * redeliveries and concurrent receipt handlers - all events published for a Stripe payment name one row,
   * and at most one receipt is ever sent for it.
   */
  lemma OneReceiptPerStripePayment(ids: UuidText, steps: seq<Step>, session: string, intent: string)
    requires session != "" && intent != "" && AllOrderly(ids, steps, session, intent)
    ensures var s := Execute(ids, INIT, steps);
            && AllNameOne(s, intent)
            && (forall i: nat, j: nat :: ReceiptOf(s, i, intent) && ReceiptOf(s, j, intent) ==> i == j)
  {
    var s := Execute(ids, INIT, steps);
    CoherentRun(ids, steps, session, intent);
    CoherentNamesOne(ids, s, session, intent);
    ReceiptsRun(ids, steps);
    forall i: nat, j: nat | ReceiptOf(s, i, intent) && ReceiptOf(s, j, intent)
      ensures i == j
    {
      OneNameOneReceipt(s, intent, i, j);
    }
  }

  // ---------- when the pending row gets the payment ----------

  /** The session CreatePayment stored sits on row `k` and on every call about to save that row. */
  ghost predicate KeepsSession(s: State, k: Uuid, session: string) {
    && k < s.next && k in s.payments && s.payments[k].stripeSessionId == Some(session)
    && (forall c :: c in s.webhooks && s.webhooks[c].Merged? && s.webhooks[c].read.id == k ==>
          s.webhooks[c].Row().stripeSessionId == Some(session))
  }

  lemma OpeningKeepsSession(ids: UuidText, s: State, row: Payment, session: string)
    requires IdsBelow(ids, s) && row.id >= s.next && row.status == PaymentStatus.Pending && MaySave(s.payments, row)
    requires row.stripeSessionId == Some(session)
    ensures KeepsSession(Advance(ids, s, OpenPayment(row)), row.id, session)
  {
  }

  lemma AdvanceKeepsSession(ids: UuidText, s: State, step: Step, k: Uuid, session: string)
    requires IdsBelow(ids, s) && KeepsSession(s, k, session) && step != DeletePayment(k)
    ensures KeepsSession(Advance(ids, s, step), k, session)
  {
    if step.WebhookRead? {
      SelectSound(s.payments, step.input);
    }
  }

  /** Row `k` is bound to both Stripe ids, and every event published about the payment names it. */
  ghost predicate Settled(ids: UuidText, s: State, k: Uuid, session: string, intent: string) {
    && Coherent(ids, s, session, intent) && KeepsSession(s, k, session)
    && HoldsIntent(s, k, intent)
  }

  lemma SettledMeaning(ids: UuidText, s: State, k: Uuid, session: string, intent: string)
    requires Settled(ids, s, k, session, intent)
    ensures k in s.payments
    ensures s.payments[k].stripeSessionId == Some(session) && s.payments[k].stripePaymentId == Some(intent)
    ensures forall e :: e in s.stream && e.stripePaymentId == intent ==> e.paymentId == ids.show(k)
  {
    forall e | e in s.stream && e.stripePaymentId == intent
      ensures e.paymentId == ids.show(k)
    {
      assert NamesHolder(ids, s, e.paymentId, intent);
      var j: Uuid :| HoldsIntent(s, j, intent) && ids.show(j) == e.paymentId;
      OneHolder(ids, s, session, intent, j, k);
    }
  }

  /**
   * The session event's read finds the pending row exactly when no row with a lower id holds the intent,
   * whatever other calls about the payment are in flight.
   */
  lemma SessionEventReads(
    ids: UuidText, s: State, k: Uuid, session: string, intent: string, input: SuccessInput)
    requires session != "" && intent != "" && IdsBelow(ids, s)
    requires k in s.payments && s.payments[k].stripeSessionId == Some(session)
    requires input.stripeSessionId == session && input.stripePaymentId == intent
    ensures Select(s.payments, input) == Some(k) <==> forall j: Uuid :: j < k ==> !HoldsIntent(s, j, intent)
  {
    assert MaySave(s.payments, s.payments[k]);
    forall j | j in s.payments && j != k
      ensures Matches(s.payments[j], input) <==> HoldsIntent(s, j, intent)
    {
      assert !Clash(s.payments[j], s.payments[k]);
    }
    SelectSound(s.payments, input);
    if forall j: Uuid :: j < k ==> !HoldsIntent(s, j, intent) {
      SelectOnly(s.payments, input, k);
    } else {
      var j: Uuid :| j < k && HoldsIntent(s, j, intent);
      assert j in Matching(s.payments, input);
    }
  }

  /** No row but `k` holds the intent. */
  ghost predicate NoOtherHolds(s: State, k: Uuid, intent: string) {
    forall j: Uuid :: j != k ==> !HoldsIntent(s, j, intent)
  }

  /**
   * The save of a session event that read the pending row settles the payment on it exactly when no other
   * row holds the intent at that moment; otherwise it is rejected and the table stays. Calls about the
   * payment that are still in flight do not matter: after the save the unique index rejects them.
   */
  lemma SessionEventSettles(ids: UuidText, s: State, k: Uuid, session: string, intent: string, c: nat)
    requires session != "" && intent != "" && Coherent(ids, s, session, intent) && KeepsSession(s, k, session)
    requires c in s.webhooks && s.webhooks[c].Merged? && s.webhooks[c].read.id == k
    requires s.webhooks[c].input.stripeSessionId == session && s.webhooks[c].input.stripePaymentId == intent
    ensures Settled(ids, Advance(ids, s, WebhookSave(c)), k, session, intent) <==> NoOtherHolds(s, k, intent)
    ensures !NoOtherHolds(s, k, intent) ==> Advance(ids, s, WebhookSave(c)).payments == s.payments
  {
    var row := s.webhooks[c].Row();
    assert CallAgrees(s, s.webhooks[c], session, intent);
    assert MaySave(s.payments, s.payments[k]);
    AdvanceKeepsSession(ids, s, WebhookSave(c), k, session);
    AdvanceCoherent(ids, s, WebhookSave(c), session, intent);
    if NoOtherHolds(s, k, intent) {
      forall j | j in s.payments && j != k
        ensures !Clash(s.payments[j], row)
      {
        assert !Clash(s.payments[j], s.payments[k]) && !HoldsIntent(s, j, intent);
      }
    } else {
      var j: Uuid :| j != k && HoldsIntent(s, j, intent);
      assert Clash(s.payments[j], row);
      if HoldsIntent(s, k, intent) {
        OneHolder(ids, s, session, intent, j, k);
      }
    }
  }

  lemma {:induction false} HolderForever(
    ids: UuidText, steps: seq<Step>, cut: nat, k: Uuid, session: string, intent: string)
    requires session != "" && intent != "" && AllOrderly(ids, steps, session, intent) && cut <= |steps|
    requires HoldsIntent(Execute(ids, INIT, steps[..cut]), k, intent)
    ensures HoldsIntent(Execute(ids, INIT, steps), k, intent)
    decreases |steps|
  {
    if cut == |steps| {
      assert steps[..cut] == steps;
    } else {
      var last := |steps| - 1;
      assert steps[..last][..cut] == steps[..cut];
      OrderlyPrefix(ids, steps, last, session, intent);
      HolderForever(ids, steps[..last], cut, k, session, intent);
      CoherentRun(ids, steps[..last], session, intent);
      assert OrderlyAt(ids, steps, last, session, intent);
      HolderStays(ids, Execute(ids, INIT, steps[..last]), steps[last], k, session, intent);
    }
  }

  /** A row that holds both ids keeps the session with the intent: it is not deleted any more. */
  lemma {:induction false} BothForever(
    ids: UuidText, steps: seq<Step>, cut: nat, k: Uuid, session: string, intent: string)
    requires session != "" && intent != "" && AllOrderly(ids, steps, session, intent) && cut <= |steps|
    requires HoldsIntent(Execute(ids, INIT, steps[..cut]), k, intent)
    requires KeepsSession(Execute(ids, INIT, steps[..cut]), k, session)
    ensures KeepsSession(Execute(ids, INIT, steps), k, session)
    decreases |steps|
  {
    if cut == |steps| {
      assert steps[..cut] == steps;
    } else {
      var last := |steps| - 1;
      assert steps[..last][..cut] == steps[..cut];
      OrderlyPrefix(ids, steps, last, session, intent);
      BothForever(ids, steps[..last], cut, k, session, intent);
      HolderForever(ids, steps[..last], cut, k, session, intent);
      assert OrderlyAt(ids, steps, last, session, intent);
      RunIdsBelow(ids, steps[..last]);
      AdvanceKeepsSession(ids, Execute(ids, INIT, steps[..last]), steps[last], k, session);
    }
  }

  /** Once settled, a payment stays on its row, however later and in-flight calls overlap. */
  lemma SettledForever(ids: UuidText, steps: seq<Step>, cut: nat, k: Uuid, session: string, intent: string)
    requires session != "" && intent != "" && AllOrderly(ids, steps, session, intent) && cut <= |steps|
    requires Settled(ids, Execute(ids, INIT, steps[..cut]), k, session, intent)
    ensures Settled(ids, Execute(ids, INIT, steps), k, session, intent)
  {
    CoherentRun(ids, steps, session, intent);
    HolderForever(ids, steps, cut, k, session, intent);
    BothForever(ids, steps, cut, k, session, intent);
  }

  // ---------- whole runs from the opening of the row ----------

  /** Step `open` is enabled and opens row `k` for the session. */
  ghost predicate OpensFor(ids: UuidText, steps: seq<Step>, open: nat, k: Uuid, session: string) {
    && open < |steps| && steps[open].OpenPayment?
    && var row, s := steps[open].row, Execute(ids, INIT, steps[..open]);
    && row.id == k && row.stripeSessionId == Some(session)
    && row.id >= s.next && row.status == PaymentStatus.Pending && MaySave(s.payments, row)
  }

  lemma SessionOpened(ids: UuidText, steps: seq<Step>, open: nat, k: Uuid, session: string)
    requires OpensFor(ids, steps, open, k, session)
    ensures KeepsSession(Execute(ids, INIT, steps[..open + 1]), k, session)
  {
    ExecuteNext(ids, steps, open);
    RunIdsBelow(ids, steps[..open]);
    OpeningKeepsSession(ids, Execute(ids, INIT, steps[..open]), steps[open].row, session);
  }

  lemma {:induction false} SessionKept(ids: UuidText, steps: seq<Step>, from: nat, n: nat, k: Uuid, session: string)
    requires from <= n <= |steps| && NeverDeleted(steps[from..n], k)
    requires KeepsSession(Execute(ids, INIT, steps[..from]), k, session)
    ensures KeepsSession(Execute(ids, INIT, steps[..n]), k, session)
    decreases n
  {
    if from < n {
      var last := n - 1;
      assert steps[from..n][last - from] == steps[last];
      assert steps[from..last] == steps[from..n][..last - from];
      SessionKept(ids, steps, from, last, k, session);
      ExecuteNext(ids, steps, last);
      RunIdsBelow(ids, steps[..last]);
      AdvanceKeepsSession(ids, Execute(ids, INIT, steps[..last]), steps[last], k, session);
    }
  }

  /** At step `save` a call fires that read row `k` for the payment's session event. */
  ghost predicate SavesSession(
    ids: UuidText, steps: seq<Step>, save: nat, k: Uuid, session: string, intent: string)
  {
    && save < |steps| && steps[save].WebhookSave?
    && var calls, c := Execute(ids, INIT, steps[..save]).webhooks, steps[save].call;
    && c in calls && calls[c].Merged? && calls[c].read.id == k
    && calls[c].input.stripeSessionId == session && calls[c].input.stripePaymentId == intent
  }

  lemma SettledBySave(
    ids: UuidText, steps: seq<Step>, open: nat, save: nat, k: Uuid, session: string, intent: string)
    requires session != "" && intent != "" && AllOrderly(ids, steps, session, intent)
    requires open < save && OpensFor(ids, steps, open, k, session) && SavesSession(ids, steps, save, k, session, intent)
    requires NeverDeleted(steps[open + 1..save], k)
    ensures Settled(ids, Execute(ids, INIT, steps[..save + 1]), k, session, intent) <==>
            NoOtherHolds(Execute(ids, INIT, steps[..save]), k, intent)
  {
    OrderlyPrefix(ids, steps, save, session, intent);
    CoherentRun(ids, steps[..save], session, intent);
    SessionOpened(ids, steps, open, k, session);
    SessionKept(ids, steps, open + 1, save, k, session);
    ExecuteNext(ids, steps, save);
    SessionEventSettles(ids, Execute(ids, INIT, steps[..save]), k, session, intent, steps[save].call);
  }

  /** A row that holds the intent keeps every other row from being settled, for good. */
  lemma HeldElsewhere(
    ids: UuidText, steps: seq<Step>, cut: nat, j: Uuid, k: Uuid, session: string, intent: string)
    requires session != "" && intent != "" && AllOrderly(ids, steps, session, intent) && cut <= |steps| && j != k
    requires HoldsIntent(Execute(ids, INIT, steps[..cut]), j, intent)
    ensures !Settled(ids, Execute(ids, INIT, steps), k, session, intent)
  {
    HolderForever(ids, steps, cut, j, session, intent);
    if Settled(ids, Execute(ids, INIT, steps), k, session, intent) {
      OneHolder(ids, Execute(ids, INIT, steps), session, intent, j, k);
    }
  }

  /**
   * When the pending row gets the payment: a session event that read the row CreatePayment opened settles
   * the payment on that row for the rest of the run if and only if no other row holds the intent at the
   * moment of its save - whatever other events of the payment were read before, and are saved after.
   */
  lemma SettledOnPendingRow(
    ids: UuidText, steps: seq<Step>, open: nat, save: nat, k: Uuid, session: string, intent: string)
    requires session != "" && intent != "" && AllOrderly(ids, steps, session, intent)
    requires open < save && OpensFor(ids, steps, open, k, session) && SavesSession(ids, steps, save, k, session, intent)
    requires NeverDeleted(steps[open + 1..save], k)
    ensures Settled(ids, Execute(ids, INIT, steps), k, session, intent) <==>
            NoOtherHolds(Execute(ids, INIT, steps[..save]), k, intent)
  {
    SettledBySave(ids, steps, open, save, k, session, intent);
    var t := Execute(ids, INIT, steps[..save]);
    if NoOtherHolds(t, k, intent) {
      SettledForever(ids, steps, save + 1, k, session, intent);
    } else {
      var j: Uuid :| j != k && HoldsIntent(t, j, intent);
      HeldElsewhere(ids, steps, save, j, k, session, intent);
    }
  }

  /** The same for the row CreatePayment stores for the session: nothing is assumed about the row itself. */
  lemma SettledOnCreatedPayment(
    ids: UuidText, steps: seq<Step>, open: nat, save: nat, k: Uuid, request: PaymentServer.CreateRequest,
    session: PaymentServer.StripeSession, intent: string)
    requires session.id != "" && intent != "" && AllOrderly(ids, steps, session.id, intent)
    requires open < save < |steps| && steps[open] == OpenPayment(PaymentServer.PendingRow(k, request, session))
    requires k >= Execute(ids, INIT, steps[..open]).next
    requires MaySave(Execute(ids, INIT, steps[..open]).payments, PaymentServer.PendingRow(k, request, session))
    requires SavesSession(ids, steps, save, k, session.id, intent) && NeverDeleted(steps[open + 1..save], k)
    ensures Settled(ids, Execute(ids, INIT, steps), k, session.id, intent) <==>
            NoOtherHolds(Execute(ids, INIT, steps[..save]), k, intent)
  {
    SettledOnPendingRow(ids, steps, open, save, k, session.id, intent);
  }
}
