// The orders table and its status machine: services/order/internal/db/repo.go and
// services/order/internal/server/service.go, MarkPaid and AdminUpdateOrderStatus.
module OrderStore {
  import opened Common
  import opened Machine
  import opened Pricing

  datatype OrderStatus = Pending | Done | Paid | Failed | Cancelled

  datatype Order = Order(
    userId: string, status: OrderStatus, email: string, currency: string,
    subtotalMinor: Int64, totalMinor: Int64, paymentId: string, checkoutUrl: string,
    paidAt: Option<Time>, items: seq<OrderLine>)

  type Orders = map<Uuid, Order>

  /** The admin's status text; anything else is rejected before the table is touched. */
  function ParseStatus(text: string): Option<OrderStatus> {
    if text == "pending" then Some(Pending)
    else if text == "done" then Some(Done)
    else if text == "paid" then Some(Paid)
    else if text == "failed" then Some(Failed)
    else if text == "cancelled" then Some(Cancelled)
    else None
  }

  /** The five allowed texts and what they mean; no other text is allowed. */
  lemma ParseStatusMeaning(text: string)
    ensures ParseStatus("pending") == Some(Pending) && ParseStatus("done") == Some(Done)
    ensures ParseStatus("paid") == Some(Paid) && ParseStatus("failed") == Some(Failed)
    ensures ParseStatus("cancelled") == Some(Cancelled)
    ensures ParseStatus(text).Some? <==> text in {"pending", "done", "paid", "failed", "cancelled"}
  {
  }

  /** The order a checkout places. */
  function Placed(userId: string, email: string, priced: Priced): Order {
    Order(userId, Pending, email, priced.currency, priced.subtotal, priced.subtotal, "", "", None, priced.lines)
  }

  // ---------- the statements, each atomic ----------

  /** Whether marking the order paid affects a row. */
  predicate Transitions(rows: Orders, id: Uuid) {
    id in rows && rows[id].status != Paid
  }

  /** UPDATE ... SET status = 'paid', paid_at = ? WHERE id = ? AND status <> 'paid'. */
  function MarkedPaid(rows: Orders, id: Uuid, paidAt: Time): Orders {
    if Transitions(rows, id) then rows[id := rows[id].(status := Paid, paidAt := Some(paidAt))] else rows
  }

  /** What an admin update carries from its read to its write. */
  datatype AdminCall = AdminCall(id: Uuid, status: OrderStatus, sawPaidAt: bool)

  /** The write half of UpdateStatus: whether to stamp was decided by the earlier read. */
  function Updated(rows: Orders, call: AdminCall, now: Time): Orders {
    if call.id !in rows then rows
    else
      var order := rows[call.id].(status := call.status);
      rows[call.id := if call.status == Paid && !call.sawPaidAt then order.(paidAt := Some(now)) else order]
  }

  // ---------- interleaved runs ----------

  datatype State = State(rows: Orders, next: Uuid, calls: map<nat, AdminCall>)

  datatype Step =
    | Place(id: Uuid, userId: string, email: string, priced: Priced)
    | Attach(id: Uuid, paymentId: string, checkoutUrl: string)
    | Pay(id: Uuid, paidAt: Time)
    | AdminRead(call: nat, id: Uuid, status: OrderStatus)
    | AdminWrite(call: nat, now: Time)
    | AdminAbort(call: nat)
    | Remove(id: Uuid)

  const INIT := State(map[], 0, map[])

  /** One statement; a statement that is not enabled has no effect. */
  function Apply(s: State, step: Step): State {
    match step
    case Place(id, userId, email, priced) =>
      if id >= s.next then s.(rows := s.rows[id := Placed(userId, email, priced)], next := id + 1) else s
    case Attach(id, paymentId, checkoutUrl) =>
      if id in s.rows
      then s.(rows := s.rows[id := s.rows[id].(paymentId := paymentId, checkoutUrl := checkoutUrl)]) else s
    case Pay(id, paidAt) => s.(rows := MarkedPaid(s.rows, id, paidAt))
    case AdminRead(call, id, status) =>
      if id in s.rows && call !in s.calls
      then s.(calls := s.calls[call := AdminCall(id, status, s.rows[id].paidAt.Some?)]) else s
    case AdminWrite(call, now) =>
      if call in s.calls then s.(rows := Updated(s.rows, s.calls[call], now), calls := s.calls - {call}) else s
    case AdminAbort(call) => s.(calls := s.calls - {call})
    case Remove(id) => s.(rows := s.rows - {id})
  }

  function Run(s: State, steps: seq<Step>): State {
    if steps == [] then s else Apply(Run(s, steps[..|steps| - 1]), steps[|steps| - 1])
  }

  ghost predicate Stamped(rows: Orders) {
    forall id :: id in rows && rows[id].status == Paid ==> rows[id].paidAt.Some?
  }

  /** Ids are below `next`, paid orders are stamped, and a read that saw a stamp can still rely on it. */
  ghost predicate Inv(s: State) {
    && (forall id :: id in s.rows ==> id < s.next)
    && Stamped(s.rows)
    && (forall c :: c in s.calls ==>
          && s.calls[c].id < s.next
          && (s.calls[c].sawPaidAt && s.calls[c].id in s.rows ==> s.rows[s.calls[c].id].paidAt.Some?))
  }

  /** An order that survives keeps its stamp and its priced content; a removed id does not come back. */
  ghost predicate Evolves(before: State, after: State) {
    && before.next <= after.next
    && (forall id :: id in before.rows && id in after.rows ==>
          && (before.rows[id].paidAt.Some? ==> after.rows[id].paidAt.Some?)
          && SameContent(before.rows[id], after.rows[id]))
    && (forall id :: id < before.next && id !in before.rows ==> id !in after.rows)
  }

  predicate SameContent(a: Order, b: Order) {
    && a.userId == b.userId && a.email == b.email && a.currency == b.currency
    && a.subtotalMinor == b.subtotalMinor && a.totalMinor == b.totalMinor && a.items == b.items
  }

  /** A statement that rewrites one row, keeping its content and its stamp. */
  lemma RewriteKeeps(s: State, t: State, id: Uuid, row: Order)
    requires Inv(s) && id in s.rows && SameContent(s.rows[id], row)
    requires s.rows[id].paidAt.Some? || row.status == Paid ==> row.paidAt.Some?
    requires t.rows == s.rows[id := row] && t.next == s.next && t.calls.Keys <= s.calls.Keys
    requires forall c :: c in t.calls ==> t.calls[c] == s.calls[c]
    ensures Inv(t) && Evolves(s, t)
  {
  }

  lemma ApplyKeeps(s: State, step: Step)
    requires Inv(s)
    ensures Inv(Apply(s, step)) && Evolves(s, Apply(s, step))
  {
    var t := Apply(s, step);
    match step
    case Attach(id, _, _) =>
      if id in s.rows {
        RewriteKeeps(s, t, id, t.rows[id]);
      }
    case Pay(id, _) =>
      if id in s.rows {
        assert t.rows == s.rows[id := t.rows[id]];
        RewriteKeeps(s, t, id, t.rows[id]);
      }
    case AdminWrite(call, now) =>
      if call in s.calls && s.calls[call].id in s.rows {
        RewriteKeeps(s, t, s.calls[call].id, t.rows[s.calls[call].id]);
      }
    case _ =>
  }

  lemma EvolvesTransitive(s: State, t: State, u: State)
    requires Inv(s) && Evolves(s, t) && Evolves(t, u)
    ensures Evolves(s, u)
  {
    forall id | id in s.rows && id in u.rows
      ensures id in t.rows
    {
      assert id < s.next;
    }
  }

  lemma {:induction false} RunKeeps(s: State, steps: seq<Step>)
    requires Inv(s)
    ensures Inv(Run(s, steps)) && Evolves(s, Run(s, steps))
  {
    if steps != [] {
      var before := Run(s, steps[..|steps| - 1]);
      RunKeeps(s, steps[..|steps| - 1]);
      ApplyKeeps(before, steps[|steps| - 1]);
      EvolvesTransitive(s, before, Run(s, steps));
    }
  }

  /**
   * However payments, removals and the two halves of admin updates interleave, every paid order has a
   * paid time, and between any two moments a paid time once set is still set.
   */
  lemma PaidImpliesStamped(steps: seq<Step>, i: nat, j: nat)
    requires i <= j <= |steps|
    ensures Stamped(Run(INIT, steps[..j]).rows)
    ensures Evolves(Run(INIT, steps[..i]), Run(INIT, steps[..j]))
  {
    RunKeeps(INIT, steps[..i]);
    RunSplit(INIT, steps[..j], i);
    assert steps[..j][..i] == steps[..i];
    RunKeeps(Run(INIT, steps[..i]), steps[..j][i..]);
  }

  lemma {:induction false} RunSplit(s: State, steps: seq<Step>, i: nat)
    requires i <= |steps|
    ensures Run(s, steps) == Run(Run(s, steps[..i]), steps[i..])
    decreases |steps|
  {
    if i == |steps| {
      assert steps[..i] == steps;
    } else {
      var last := |steps| - 1;
      RunSplit(s, steps[..last], i);
      assert steps[..last][..i] == steps[..i];
      assert steps[i..][..last - i] == steps[..last][i..];
    }
  }

  // ---------- paying twice ----------

  /** The step is an admin's write taking the order out of status paid. */
  predicate Unpays(s: State, step: Step, id: Uuid) {
    && step.AdminWrite? && step.call in s.calls
    && s.calls[step.call].id == id && s.calls[step.call].status != Paid
  }

  /** The step ends the time in which the order could be paid again. */
  predicate Closes(s: State, step: Step, id: Uuid) {
    || (step.Pay? && step.id == id)
    || (step.Remove? && step.id == id)
    || (step.AdminWrite? && step.call in s.calls && s.calls[step.call].id == id && s.calls[step.call].status == Paid)
  }

  lemma StepReopens(s: State, step: Step, id: Uuid)
    requires id < s.next && !Transitions(s.rows, id)
    ensures Transitions(Apply(s, step).rows, id) <==> id in s.rows && Unpays(s, step, id)
  {
  }

  lemma StepStaysOpen(s: State, step: Step, id: Uuid)
    requires Transitions(s.rows, id)
    ensures Transitions(Apply(s, step).rows, id) <==> !Closes(s, step, id)
  {
  }

  /** An event handled after `j` steps would pay the order. */
  predicate PayableAt(steps: seq<Step>, j: nat, id: Uuid)
    requires j <= |steps|
  {
    Transitions(Run(INIT, steps[..j]).rows, id)
  }

  /** Step `k` takes the order, which is there, out of paid. */
  predicate UnpaysAt(steps: seq<Step>, k: nat, id: Uuid)
    requires k < |steps|
  {
    id in Run(INIT, steps[..k]).rows && Unpays(Run(INIT, steps[..k]), steps[k], id)
  }

  predicate ClosesAt(steps: seq<Step>, m: nat, id: Uuid)
    requires m < |steps|
  {
    Closes(Run(INIT, steps[..m]), steps[m], id)
  }

  /** Step `k` unpays the order, and nothing from there to `j` pays it, sets it to paid or removes it. */
  ghost predicate OpenSince(steps: seq<Step>, k: nat, j: nat, id: Uuid)
    requires j <= |steps|
  {
    k < j && UnpaysAt(steps, k, id) && forall m: nat :: k < m < j ==> !ClosesAt(steps, m, id)
  }

  ghost predicate Reopened(steps: seq<Step>, i: nat, j: nat, id: Uuid)
    requires j <= |steps|
  {
    exists k: nat :: i < k && OpenSince(steps, k, j, id)
  }

  lemma ReopenedNext(steps: seq<Step>, i: nat, last: nat, id: Uuid)
    requires i < last < |steps|
    ensures Reopened(steps, i, last + 1, id) <==>
            UnpaysAt(steps, last, id) || (Reopened(steps, i, last, id) && !ClosesAt(steps, last, id))
  {
    if UnpaysAt(steps, last, id) {
      assert OpenSince(steps, last, last + 1, id);
    }
    if Reopened(steps, i, last, id) && !ClosesAt(steps, last, id) {
      var k: nat :| i < k && OpenSince(steps, k, last, id);
      assert OpenSince(steps, k, last + 1, id);
    }
    if Reopened(steps, i, last + 1, id) {
      var k: nat :| i < k && OpenSince(steps, k, last + 1, id);
      if k < last {
        assert OpenSince(steps, k, last, id) && !ClosesAt(steps, last, id);
      }
    }
  }

  /** One more step: payable afterwards when it was and stays open, or when an admin unpays the order. */
  lemma PayableNext(steps: seq<Step>, last: nat, id: Uuid)
    requires last < |steps| && id < Run(INIT, steps[..last]).next
    ensures PayableAt(steps, last + 1, id) <==>
            UnpaysAt(steps, last, id) || (PayableAt(steps, last, id) && !ClosesAt(steps, last, id))
  {
    var s := Run(INIT, steps[..last]);
    assert steps[..last + 1][..last] == steps[..last];
    if Transitions(s.rows, id) {
      StepStaysOpen(s, steps[last], id);
    } else {
      StepReopens(s, steps[last], id);
    }
  }

  /**
   * When an order is paid a second time, exactly: after a payment event moved it to paid, a later one moves
   * it to paid again if and only if an admin took it out of paid in between, and since then no event paid
   * it, no admin set it to paid and nobody removed it - however payments, removals and admin halves
   * interleave.
   */
  lemma {:induction false} SecondTransitionExactly(steps: seq<Step>, i: nat, j: nat, id: Uuid)
    requires i < j <= |steps| && steps[i].Pay? && steps[i].id == id && PayableAt(steps, i, id)
    ensures PayableAt(steps, j, id) <==> Reopened(steps, i, j, id)
    decreases j
  {
    var last := j - 1;
    RunKeeps(INIT, steps[..i]);
    PaidImpliesStamped(steps, i, last);
    PayableNext(steps, last, id);
    if last == i {
      assert ClosesAt(steps, i, id);
    } else {
      SecondTransitionExactly(steps, i, last, id);
      ReopenedNext(steps, i, last, id);
    }
  }

  /** An event redelivered right after such an admin step pays again, at its own time. */
  lemma AdminStepIsVisible(s: State, id: Uuid, c: nat, status: OrderStatus, now: Time, paidAt: Time)
    requires id in s.rows && c !in s.calls && status != Paid
    ensures var t := Apply(Apply(s, AdminRead(c, id, status)), AdminWrite(c, now));
            && Transitions(t.rows, id)
            && Apply(t, Pay(id, paidAt)).rows == s.rows[id := s.rows[id].(status := Paid, paidAt := Some(paidAt))]
  {
  }

  // ---------- the repository ----------

  datatype RepoError = OrderNotFound | InvalidStatus | Unavailable

  class OrderRepo {
    var rows: Orders
    ghost var nextId: Uuid

    ghost predicate Valid()
      reads this
    {
      Inv(State(rows, nextId, map[]))
    }

    constructor ()
      ensures Valid() && rows == map[]
    {
      rows, nextId := map[], 0;
    }

    method CreateOrder(id: Uuid, order: Order, dbFails: bool) returns (ok: bool)
      requires Valid() && id >= nextId && (order.status == Paid ==> order.paidAt.Some?)
      modifies this
      ensures Valid() && nextId == id + 1 && ok == !dbFails
      ensures rows == if ok then old(rows)[id := order] else old(rows)
    {
      nextId := id + 1;
      if !dbFails {
        rows := rows[id := order];
      }
      ok := !dbFails;
    }

    method SetPaymentInfo(id: Uuid, paymentId: string, checkoutUrl: string, dbFails: bool) returns (ok: bool)
      requires Valid()
      modifies this
      ensures Valid() && nextId == old(nextId) && ok == !dbFails
      ensures rows == if ok && id in old(rows)
                      then old(rows)[id := old(rows)[id].(paymentId := paymentId, checkoutUrl := checkoutUrl)]
                      else old(rows)
    {
      if !dbFails && id in rows {
        rows := rows[id := rows[id].(paymentId := paymentId, checkoutUrl := checkoutUrl)];
      }
      ok := !dbFails;
    }

    method MarkPaid(id: Uuid, paidAt: Time, dbFails: bool) returns (r: Result<bool, RepoError>)
      requires Valid()
      modifies this
      ensures Valid() && nextId == old(nextId)
      ensures dbFails ==> r == Failure(Unavailable) && rows == old(rows)
      ensures !dbFails ==> rows == MarkedPaid(old(rows), id, paidAt)
      ensures !dbFails ==>
                var unpaid := id in old(rows) && old(rows)[id].status != Paid;
                && r == Success(unpaid)
                && rows == if unpaid then old(rows)[id := old(rows)[id].(status := Paid, paidAt := Some(paidAt))]
                           else old(rows)
    {
      if dbFails {
        return Failure(Unavailable);
      }
      if id in rows && rows[id].status != Paid {
        rows := rows[id := rows[id].(status := Paid, paidAt := Some(paidAt))];
        return Success(true);
      }
      r := Success(false);
    }

    /** AdminUpdateOrderStatus undisturbed: UpdateStatus reads the row, writes it and reads it back. */
    method AdminUpdateStatus(
      ids: UuidText, orderId: string, status: string, now: Time, readFails: bool, writeFails: bool, rereadFails: bool)
      returns (r: Result<Order, RepoError>)
      requires Valid()
      modifies this
      ensures Valid() && nextId == old(nextId)
      ensures r == Failure(InvalidStatus) <==> ParseStatus(status).None?
      ensures r == Failure(OrderNotFound) <==>
              && ParseStatus(status).Some?
              && (ids.parse(orderId).None? || (!readFails && ids.parse(orderId).value !in old(rows)))
      // the update stands once written, even when it cannot be read back
      ensures var applied := ParseStatus(status).Some? && ids.parse(orderId).Some? &&
                             ids.parse(orderId).value in old(rows) && !readFails && !writeFails;
              && (r.Success? <==> applied && !rereadFails)
              && (!applied ==> rows == old(rows))
              && (applied ==>
                    var id, next := ids.parse(orderId).value, ParseStatus(status).value;
                    var before := old(rows)[id];
                    var paidAt := if next == Paid && before.paidAt.None? then Some(now) else before.paidAt;
                    && rows == old(rows)[id := before.(status := next, paidAt := paidAt)]
                    && (r.Success? ==> r.value == rows[id]))
    {
      var next := ParseStatus(status);
      if next.None? {
        return Failure(InvalidStatus);
      }
      var id := ids.parse(orderId);
      if id.None? {
        return Failure(OrderNotFound);
      }
      if readFails {
        return Failure(Unavailable);
      }
      if id.value !in rows {
        return Failure(OrderNotFound);
      }
      var call := AdminCall(id.value, next.value, rows[id.value].paidAt.Some?);
      if writeFails {
        return Failure(Unavailable);
      }
      rows := Updated(rows, call, now);
      if rereadFails {
        return Failure(Unavailable);
      }
      r := Success(rows[id.value]);
    }

    method Delete(id: Uuid, dbFails: bool) returns (r: Result<bool, RepoError>)
      requires Valid()
      modifies this
      ensures Valid() && nextId == old(nextId)
      ensures dbFails ==> r == Failure(Unavailable) && rows == old(rows)
      ensures !dbFails ==> r == Success(id in old(rows)) && rows == old(rows) - {id}
    {
      if dbFails {
        return Failure(Unavailable);
      }
      r := Success(id in rows);
      rows := rows - {id};
    }
  }
}

// The consumer of payment.succeeded: services/order/internal/nats/worker.go.
module OrderConsumer {
  import opened Common
  import opened Stream
  import opened OrderStore

  /** One delivery of a message; the body is None when it does not decode. */
  datatype Delivery = Delivery(
    sequence: nat, body: Option<PaymentSucceeded>, now: Time, dbFails: bool, ackFails: bool)

  /** The order a delivery names, when it decodes and its order id parses. */
  function Named(ids: UuidText, d: Delivery): Option<Uuid> {
    if d.body.None? || d.body.value.orderId == "" then None else ids.parse(d.body.value.orderId)
  }

  function PaidTime(d: Delivery): Time
    requires d.body.Some?
  {
    if d.body.value.paidAt == ZERO_TIME then d.now else d.body.value.paidAt
  }

  /** The message decodes, its order id is the order's, and the update works. */
  predicate Effective(ids: UuidText, d: Delivery, id: Uuid) {
    d.body.Some? && d.body.value.orderId != "" && ids.parse(d.body.value.orderId) == Some(id) && !d.dbFails
  }

  /** Handled without error: what the loop acknowledges. */
  predicate Handled(ids: UuidText, d: Delivery) {
    d.body.Some? && (d.dbFails ==> Named(ids, d).None?)
  }

  function HandleRows(ids: UuidText, rows: Orders, d: Delivery): Orders {
    match Named(ids, d)
    case None => rows
    case Some(id) => if d.dbFails then rows else MarkedPaid(rows, id, PaidTime(d))
  }

  function Consume(ids: UuidText, rows: Orders, ds: seq<Delivery>): Orders {
    if ds == [] then rows else HandleRows(ids, Consume(ids, rows, ds[..|ds| - 1]), ds[|ds| - 1])
  }

  /** The messages acknowledged along the way. */
  function Acked(ids: UuidText, ds: seq<Delivery>): seq<nat> {
    if ds == [] then []
    else
      var d := ds[|ds| - 1];
      Acked(ids, ds[..|ds| - 1]) + if Handled(ids, d) && !d.ackFails then [d.sequence] else []
  }

  /**
   * What one delivery does, on the fields of its message: the unpaid order whose id the message carries
   * becomes paid, at the message's paid time or, without one, now; no other row changes; and a message
   * without a usable order id changes nothing.
   */
  lemma DeliveryPays(ids: UuidText, rows: Orders, d: Delivery, id: Uuid)
    ensures HandleRows(ids, rows, d).Keys == rows.Keys
    ensures id in rows ==>
              var after := HandleRows(ids, rows, d)[id];
              if d.body.Some? && d.body.value.orderId != "" && ids.parse(d.body.value.orderId) == Some(id)
                 && !d.dbFails && rows[id].status != Paid
              then after == rows[id].(status := Paid, paidAt := Some(if d.body.value.paidAt == ZERO_TIME then d.now
                                                                     else d.body.value.paidAt))
              else after == rows[id]
    ensures d.body.None? || d.body.value.orderId == "" || ids.parse(d.body.value.orderId).None? ==>
              HandleRows(ids, rows, d) == rows
  {
  }

  /** Acknowledged are exactly the messages some delivery of which was handled and acknowledged. */
  lemma {:induction false} AckedExactly(ids: UuidText, ds: seq<Delivery>, n: nat)
    ensures n in Acked(ids, ds) <==>
            exists i :: 0 <= i < |ds| && ds[i].sequence == n && !ds[i].ackFails && ds[i].body.Some? &&
                        (ds[i].dbFails ==> ds[i].body.value.orderId == "" || ids.parse(ds[i].body.value.orderId).None?)
  {
    if ds != [] {
      var last := |ds| - 1;
      AckedExactly(ids, ds[..last], n);
    }
  }

  lemma {:induction false} ConsumeConcat(ids: UuidText, rows: Orders, a: seq<Delivery>, b: seq<Delivery>)
    ensures Consume(ids, rows, a + b) == Consume(ids, Consume(ids, rows, a), b)
    ensures Acked(ids, a + b) == Acked(ids, a) + Acked(ids, b)
  {
    if b == [] {
      assert a + b == a;
    } else {
      var last := |b| - 1;
      ConsumeConcat(ids, rows, a, b[..last]);
      assert (a + b)[..|a| + last] == a + b[..last];
    }
  }

  lemma NextBatch(ids: UuidText, rows: Orders, batches: seq<Option<seq<Delivery>>>, i: nat)
    requires i < |batches|
    ensures var before, after := Flatten(batches[..i]), Flatten(batches[..i + 1]);
            match batches[i]
            case None => after == before
            case Some(msgs) =>
              && Consume(ids, rows, after) == Consume(ids, Consume(ids, rows, before), msgs)
              && Acked(ids, after) == Acked(ids, before) + Acked(ids, msgs)
  {
    FlattenNext(batches, i);
    if batches[i].Some? {
      ConsumeConcat(ids, rows, Flatten(batches[..i]), batches[i].value);
    }
  }

  class Worker {
    const ids: UuidText
    const repo: OrderRepo
    var acked: seq<nat>

    constructor (ids: UuidText, repo: OrderRepo)
      ensures this.ids == ids && this.repo == repo && acked == []
    {
      this.ids := ids;
      this.repo := repo;
      acked := [];
    }

    method Handle(d: Delivery) returns (ok: bool)
      requires repo.Valid()
      modifies repo
      ensures repo.Valid() && repo.nextId == old(repo.nextId)
      ensures ok == Handled(ids, d)
      ensures repo.rows == HandleRows(ids, old(repo.rows), d)
      // on the message itself: an error for a body that does not decode, or for an update that fails
      ensures !ok <==> d.body.None? ||
                       (d.dbFails && d.body.value.orderId != "" && ids.parse(d.body.value.orderId).Some?)
      // the order whose id the message carries is paid at the message's time, unless it is paid or unknown
      ensures d.body.Some? && d.body.value.orderId != "" && ids.parse(d.body.value.orderId).Some? && !d.dbFails ==>
                var id := ids.parse(d.body.value.orderId).value;
                var paidAt := if d.body.value.paidAt == ZERO_TIME then d.now else d.body.value.paidAt;
                repo.rows == if id in old(repo.rows) && old(repo.rows)[id].status != Paid
                             then old(repo.rows)[id := old(repo.rows)[id].(status := Paid, paidAt := Some(paidAt))]
                             else old(repo.rows)
      ensures d.body.None? || d.body.value.orderId == "" || ids.parse(d.body.value.orderId).None? || d.dbFails ==>
                repo.rows == old(repo.rows)
    {
      if d.body.None? {
        return false;
      }
      var event := d.body.value;
      if event.orderId == "" {
        return true;
      }
      var paidAt := event.paidAt;
      if paidAt == ZERO_TIME {
        paidAt := d.now;
      }
      var id := ids.parse(event.orderId);
      if id.None? {
        return true;
      }
      var transitioned := repo.MarkPaid(id.value, paidAt, d.dbFails);
      ok := transitioned.Success?;
    }

    /** The inner loop over one fetched batch. */
    method RunBatch(msgs: seq<Delivery>)
      requires repo.Valid()
      modifies this, repo
      ensures repo.Valid() && repo.nextId == old(repo.nextId)
      ensures repo.rows == Consume(ids, old(repo.rows), msgs)
      ensures acked == old(acked) + Acked(ids, msgs)
    {
      for j := 0 to |msgs|
        invariant repo.Valid() && repo.nextId == old(repo.nextId)
        invariant repo.rows == Consume(ids, old(repo.rows), msgs[..j])
        invariant acked == old(acked) + Acked(ids, msgs[..j])
      {
        assert msgs[..j + 1][..j] == msgs[..j];
        var ok := Handle(msgs[j]);
        if !ok {
          continue;
        }
        if !msgs[j].ackFails {
          acked := acked + [msgs[j].sequence];
        }
      }
      assert msgs[..|msgs|] == msgs;
    }

    /** The fetch loop over the batches it was given; a failed fetch delivers nothing. */
    method Run(batches: seq<Option<seq<Delivery>>>)
      requires repo.Valid()
      modifies this, repo
      ensures repo.Valid() && repo.nextId == old(repo.nextId)
      ensures repo.rows == Consume(ids, old(repo.rows), Flatten(batches))
      ensures acked == old(acked) + Acked(ids, Flatten(batches))
    {
      for i := 0 to |batches|
        invariant repo.Valid() && repo.nextId == old(repo.nextId)
        invariant repo.rows == Consume(ids, old(repo.rows), Flatten(batches[..i]))
        invariant acked == old(acked) + Acked(ids, Flatten(batches[..i]))
      {
        NextBatch(ids, old(repo.rows), batches, i);
        if batches[i].None? {
          continue;
        }
        RunBatch(batches[i].value);
      }
      assert batches[..|batches|] == batches;
    }
  }

  // ---------- exactly-once effect ----------

  /** The paid time of the first effective delivery naming the order. */
  function FirstPaid(ids: UuidText, ds: seq<Delivery>, id: Uuid): Option<Time> {
    if ds == [] then None
    else
      match FirstPaid(ids, ds[..|ds| - 1], id)
      case Some(t) => Some(t)
      case None => if Effective(ids, ds[|ds| - 1], id) then Some(PaidTime(ds[|ds| - 1])) else None
  }

  /** How many deliveries had MarkPaid report a transition of the order. */
  function TransitionCount(ids: UuidText, rows: Orders, ds: seq<Delivery>, id: Uuid): nat {
    if ds == [] then 0
    else
      var before := ds[..|ds| - 1];
      TransitionCount(ids, rows, before, id) +
      if Effective(ids, ds[|ds| - 1], id) && Transitions(Consume(ids, rows, before), id) then 1 else 0
  }

  ghost predicate SomeEffective(ids: UuidText, ds: seq<Delivery>, id: Uuid) {
    exists i :: 0 <= i < |ds| && Effective(ids, ds[i], id)
  }

  lemma {:induction false} FirstPaidMeaning(ids: UuidText, ds: seq<Delivery>, id: Uuid)
    ensures FirstPaid(ids, ds, id).Some? <==> SomeEffective(ids, ds, id)
    ensures FirstPaid(ids, ds, id).Some? ==>
              exists i :: 0 <= i < |ds| && Effective(ids, ds[i], id) &&
                          FirstPaid(ids, ds, id).value ==
                          (if ds[i].body.value.paidAt == ZERO_TIME then ds[i].now else ds[i].body.value.paidAt) &&
                          forall j :: 0 <= j < i ==> !Effective(ids, ds[j], id)
  {
    if ds != [] {
      var before := ds[..|ds| - 1];
      FirstPaidMeaning(ids, before, id);
      if FirstPaid(ids, before, id).Some? {
        var i :| 0 <= i < |before| && Effective(ids, before[i], id) &&
                 FirstPaid(ids, before, id).value == PaidTime(before[i]) &&
                 forall j :: 0 <= j < i ==> !Effective(ids, before[j], id);
        assert ds[i] == before[i] && forall j :: 0 <= j < i ==> ds[j] == before[j];
      } else {
        assert forall j :: 0 <= j < |before| ==> before[j] == ds[j] && !Effective(ids, before[j], id);
      }
    }
  }

  /**
   * Without admin steps at-least-once delivery has an exactly-once effect: an order not yet paid becomes
   * paid exactly when an effective delivery names it, with the first one's time, and that first one
   * alone reports a transition; a paid order never changes; no order appears or disappears.
   */
  lemma {:induction false} ExactlyOnceEffect(ids: UuidText, rows: Orders, ds: seq<Delivery>, id: Uuid)
    ensures Consume(ids, rows, ds).Keys == rows.Keys
    ensures id in rows ==>
              Consume(ids, rows, ds)[id] ==
              (if rows[id].status == Paid || FirstPaid(ids, ds, id).None? then rows[id]
               else rows[id].(status := Paid, paidAt := FirstPaid(ids, ds, id)))
    ensures TransitionCount(ids, rows, ds, id) ==
            if id in rows && rows[id].status != Paid && SomeEffective(ids, ds, id) then 1 else 0
  {
    FirstPaidMeaning(ids, ds, id);
    if ds != [] {
      FirstPaidMeaning(ids, ds[..|ds| - 1], id);
      ExactlyOnceEffect(ids, rows, ds[..|ds| - 1], id);
    }
  }

  /** The orders named by effective deliveries. */
  ghost predicate SameTargets(ids: UuidText, a: seq<Delivery>, b: seq<Delivery>) {
    forall id: Uuid :: SomeEffective(ids, a, id) <==> SomeEffective(ids, b, id)
  }

  /** The statuses depend only on the set of orders named, not on order or multiplicity of deliveries. */
  lemma StatusesDependOnSet(ids: UuidText, rows: Orders, a: seq<Delivery>, b: seq<Delivery>)
    requires SameTargets(ids, a, b)
    ensures Consume(ids, rows, a).Keys == Consume(ids, rows, b).Keys
    ensures forall id :: id in Consume(ids, rows, a) ==>
                           Consume(ids, rows, a)[id].status == Consume(ids, rows, b)[id].status
  {
    ExactlyOnceEffect(ids, rows, a, 0);
    ExactlyOnceEffect(ids, rows, b, 0);
    forall id | id in rows
      ensures Consume(ids, rows, a)[id].status == Consume(ids, rows, b)[id].status
    {
      ExactlyOnceEffect(ids, rows, a, id);
      ExactlyOnceEffect(ids, rows, b, id);
      FirstPaidMeaning(ids, a, id);
      FirstPaidMeaning(ids, b, id);
    }
  }

  /** The events some delivery of which was handled. */
  function Events(ds: seq<Delivery>): set<Option<PaymentSucceeded>> {
    set d | d in ds && !d.dbFails :: d.body
  }

  lemma EventsTarget(ids: UuidText, a: seq<Delivery>, b: seq<Delivery>, id: Uuid)
    requires Events(a) <= Events(b) && SomeEffective(ids, a, id)
    ensures SomeEffective(ids, b, id)
  {
    var i :| 0 <= i < |a| && Effective(ids, a[i], id);
    assert a[i].body in Events(a);
    var d :| d in b && !d.dbFails && d.body == a[i].body;
    var j :| 0 <= j < |b| && b[j] == d;
    assert Effective(ids, b[j], id);
  }

  lemma EventsDecideTargets(ids: UuidText, a: seq<Delivery>, b: seq<Delivery>)
    requires Events(a) == Events(b)
    ensures SameTargets(ids, a, b)
  {
    forall id: Uuid
      ensures SomeEffective(ids, a, id) <==> SomeEffective(ids, b, id)
    {
      if SomeEffective(ids, a, id) {
        EventsTarget(ids, a, b, id);
      }
      if SomeEffective(ids, b, id) {
        EventsTarget(ids, b, a, id);
      }
    }
  }

  /** So the same set of events, in any order and at any number of deliveries, ends in the same statuses. */
  lemma RedeliveryKeepsStatuses(ids: UuidText, rows: Orders, a: seq<Delivery>, b: seq<Delivery>)
    requires Events(a) == Events(b)
    ensures Consume(ids, rows, a).Keys == Consume(ids, rows, b).Keys
    ensures forall id :: id in Consume(ids, rows, a) ==>
                           Consume(ids, rows, a)[id].status == Consume(ids, rows, b)[id].status
  {
    EventsDecideTargets(ids, a, b);
    StatusesDependOnSet(ids, rows, a, b);
  }
}
