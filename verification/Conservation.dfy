// What stays the same from the placed order to the receipt, over the interleaved pipeline.
module Conservation {
  import opened Common
  import opened Machine
  import opened Text
  import opened Stream
  import opened PaymentStore
  import opened Settlement
  import Pricing
  import OrderStore
  import OrderConsumer
  import Checkout
  import PaymentServer
  import opened Amounts
  import opened Receipts
  import ReceiptProtocol

  // ---------- one payment's identity over interleaved webhook calls ----------

  /** A row or message of payment `k` carries this order, amount and currency. */
  datatype Terms = Terms(orderId: string, amount: Int64, currency: string)

  predicate Meaningful(terms: Terms) {
    terms.orderId != "" && terms.amount != 0 && terms.currency != ""
  }

  predicate RowHas(row: Payment, k: Uuid, terms: Terms) {
    row.id == k ==> row.orderId == terms.orderId && row.amount == terms.amount && row.currency == terms.currency
  }

  predicate CallHas(call: Call, k: Uuid, terms: Terms) {
    match call
    case Merged(read, _) => RowHas(call.Row(), k, terms)
    case Saved(result, _) =>
      result.paymentId == k ==>
        result.orderId == terms.orderId && result.amount == terms.amount && result.currency == terms.currency
  }

  predicate EventHas(ids: UuidText, e: PaymentSucceeded, k: Uuid, terms: Terms) {
    e.paymentId == ids.show(k) ==>
      e.orderId == terms.orderId && e.amount == terms.amount && e.currency == terms.currency
  }

  /** Wherever payment `k` appears - table, calls in flight, stream - it appears with its terms. */
  ghost predicate Consistent(ids: UuidText, s: State, k: Uuid, terms: Terms) {
    && k < s.next
    && (forall j :: j in s.payments ==> s.payments[j].id == j && RowHas(s.payments[j], k, terms))
    && (forall c :: c in s.webhooks ==> CallHas(s.webhooks[c], k, terms))
    && (forall e :: e in s.stream ==> EventHas(ids, e, k, terms))
  }

  lemma ShowInjective(ids: UuidText, a: Uuid, b: Uuid)
    requires ids.Faithful() && ids.show(a) == ids.show(b)
    ensures a == b
  {
    assert ids.parse(ids.show(a)) == Some(a) && ids.parse(ids.show(b)) == Some(b);
  }

  /** Overlapping calls may lose each other's updates, but none can touch what was set when the row was opened. */
  lemma ApplyConsistent(ids: UuidText, s: State, step: Step, k: Uuid, terms: Terms)
    requires ids.Faithful() && Meaningful(terms) && Consistent(ids, s, k, terms)
    ensures Consistent(ids, Advance(ids, s, step), k, terms)
  {
    match step
    case WebhookRead(call, input, newId) =>
      SelectSound(s.payments, input);
    case WebhookPublish(call) =>
      if call in s.webhooks && s.webhooks[call].Saved? {
        var result := s.webhooks[call].result;
        if ids.show(result.paymentId) == ids.show(k) {
          ShowInjective(ids, result.paymentId, k);
        }
      }
    case _ =>
  }

  lemma {:induction false} RunConsistent(ids: UuidText, s: State, steps: seq<Step>, k: Uuid, terms: Terms)
    requires ids.Faithful() && Meaningful(terms) && Consistent(ids, s, k, terms)
    ensures Consistent(ids, Execute(ids, s, steps), k, terms)
  {
    if steps != [] {
      var last := |steps| - 1;
      RunConsistent(ids, s, steps[..last], k, terms);
      ApplyConsistent(ids, Execute(ids, s, steps[..last]), steps[last], k, terms);
    }
  }

  /** What every reachable state satisfies about ids. */
  ghost predicate IdsBelow(ids: UuidText, s: State) {
    && WellFormed(s.payments, s.next)
    && (forall c :: c in s.webhooks ==>
          match s.webhooks[c]
          case Merged(read, _) => read.id < s.next
          case Saved(result, _) => result.paymentId < s.next)
    && (forall e :: e in s.stream ==> exists id: Uuid :: id < s.next && ids.show(id) == e.paymentId)
    && OrderStore.Inv(s.orders)
  }

  lemma WellFormedLater(rows: Payments, next: Uuid, later: Uuid)
    requires WellFormed(rows, next) && next <= later
    ensures WellFormed(rows, later)
  {
  }

  lemma ApplyIdsBelow(ids: UuidText, s: State, step: Step)
    requires IdsBelow(ids, s)
    ensures IdsBelow(ids, Advance(ids, s, step)) && s.next <= Advance(ids, s, step).next
  {
    var t := Advance(ids, s, step);
    forall e | e in t.stream
      ensures exists id: Uuid :: id < t.next && ids.show(id) == e.paymentId
    {
      if e in s.stream {
        var id: Uuid :| id < s.next && ids.show(id) == e.paymentId;
        assert id < t.next;
      } else {
        assert s.webhooks[step.call].Saved? && s.webhooks[step.call].result.paymentId < t.next;
      }
    }
    match step
    case OpenPayment(row) =>
      if t != s {
        WellFormedLater(s.payments, s.next, t.next);
        SaveKeepsWellFormed(s.payments, t.next, row);
      }
    case WebhookRead(call, input, newId) =>
      SelectSound(s.payments, input);
      WellFormedLater(s.payments, s.next, t.next);
    case WebhookSave(call) =>
      if t.payments != s.payments {
        SaveKeepsWellFormed(s.payments, s.next, s.webhooks[call].Row());
      }
    case DeletePayment(id) =>
      forall k | k in t.payments
        ensures MaySave(t.payments, t.payments[k])
      {
        assert MaySave(s.payments, s.payments[k]);
      }
    case OrderStep(statement) => OrderStore.ApplyKeeps(s.orders, statement);
    case Deliver(d) =>
      if t.orders != s.orders {
        DeliverIsPay(ids, s, d);
      }
    case _ =>
  }

  /** A delivery acts on the orders as the consumer's one statement, or not at all. */
  lemma DeliverIsPay(ids: UuidText, s: State, d: OrderConsumer.Delivery)
    requires OrderStore.Inv(s.orders)
    ensures var t := s.orders.(rows := OrderConsumer.HandleRows(ids, s.orders.rows, d));
            OrderStore.Inv(t) && OrderStore.Evolves(s.orders, t)
  {
    match OrderConsumer.Named(ids, d)
    case None =>
    case Some(id) =>
      if !d.dbFails {
        OrderStore.ApplyKeeps(s.orders, OrderStore.Pay(id, OrderConsumer.PaidTime(d)));
      }
  }

  lemma {:induction false} RunIdsBelow(ids: UuidText, steps: seq<Step>)
    ensures IdsBelow(ids, Execute(ids, INIT, steps))
  {
    if steps != [] {
      var last := |steps| - 1;
      RunIdsBelow(ids, steps[..last]);
      ApplyIdsBelow(ids, Execute(ids, INIT, steps[..last]), steps[last]);
    }
  }

  lemma {:induction false} ExecuteSplit(ids: UuidText, s: State, steps: seq<Step>, i: nat)
    requires i <= |steps|
    ensures Execute(ids, s, steps) == Execute(ids, Execute(ids, s, steps[..i]), steps[i..])
    decreases |steps|
  {
    if i == |steps| {
      assert steps[..i] == steps;
    } else {
      var last := |steps| - 1;
      ExecuteSplit(ids, s, steps[..last], i);
      assert steps[..last][..i] == steps[..i];
      assert steps[i..][..last - i] == steps[..last][i..];
    }
  }

  lemma AdvanceOrdersEvolve(ids: UuidText, s: State, step: Step)
    requires OrderStore.Inv(s.orders)
    ensures OrderStore.Evolves(s.orders, Advance(ids, s, step).orders)
  {
    match step
    case OrderStep(statement) => OrderStore.ApplyKeeps(s.orders, statement);
    case Deliver(d) => DeliverIsPay(ids, s, d);
    case _ =>
  }

  /** Over any steps an order that survives keeps its content, and a paid time once set stays set. */
  lemma {:induction false} OrdersEvolve(ids: UuidText, s: State, steps: seq<Step>)
    requires IdsBelow(ids, s)
    ensures IdsBelow(ids, Execute(ids, s, steps))
    ensures OrderStore.Evolves(s.orders, Execute(ids, s, steps).orders)
  {
    if steps != [] {
      var last := |steps| - 1;
      var before := Execute(ids, s, steps[..last]);
      OrdersEvolve(ids, s, steps[..last]);
      ApplyIdsBelow(ids, before, steps[last]);
      AdvanceOrdersEvolve(ids, before, steps[last]);
      OrderStore.EvolvesTransitive(s.orders, before.orders, Execute(ids, s, steps).orders);
    }
  }

  // ---------- what the receipt shows ----------

  /** An order line as the order service hands it to the notification service. */
  function LineItem(line: Pricing.OrderLine): OrderItem {
    OrderItem(line.name, line.quantity, line.unitPriceMinor)
  }

  function LineItems(lines: seq<Pricing.OrderLine>): seq<OrderItem> {
    seq(|lines|, i requires 0 <= i < |lines| => LineItem(lines[i]))
  }

  lemma {:induction false} ReceiptSumIsTotal(lines: seq<Pricing.OrderLine>)
    ensures Congruent(SumAmounts(ItemsOf(LineItems(lines))), Pricing.Total(lines))
  {
    if lines != [] {
      var last := |lines| - 1;
      var items := ItemsOf(LineItems(lines));
      assert items[..last] == ItemsOf(LineItems(lines[..last]));
      ReceiptSumIsTotal(lines[..last]);
      CongruentSum(SumAmounts(items[..last]), Pricing.Total(lines[..last]),
                   items[last].amount, lines[last].unitPriceMinor * lines[last].quantity);
    }
  }

  lemma {:induction false} ItemsPermuted(a: seq<OrderItem>, b: seq<OrderItem>)
    requires multiset(a) == multiset(b)
    ensures SumAmounts(ItemsOf(a)) == SumAmounts(ItemsOf(b))
    decreases |a|
  {
    if a == [] {
      EmptyPermuted(a, b);
    } else {
      var i := MatchFirst(a, b);
      ItemsPermuted(Without(a, 0), Without(b, i));
      assert ItemsOf(Without(a, 0)) == Without(ItemsOf(a), 0);
      assert ItemsOf(Without(b, i)) == Without(ItemsOf(b), i);
      SumAmountsAt(ItemsOf(a), 0);
      SumAmountsAt(ItemsOf(b), i);
    }
  }

  /** A receipt over the order's lines, fetched in any order, prints the order's subtotal twice. */
  lemma ReceiptShowsSubtotal(
    priced: Pricing.Priced, fetched: seq<OrderItem>, e: PaymentSucceeded, now: Time, formatDate: Time -> string)
    requires priced.lines != [] && priced.subtotal == Wrap(Pricing.Total(priced.lines))
    requires priced.currency != "" && priced.currency == ToUpper(priced.currency)
    requires e.amount == priced.subtotal && e.currency == ToLower(priced.currency)
    requires multiset(fetched) == multiset(LineItems(priced.lines))
    ensures var receipt := Built(ReceiptProtocol.RawReceipt(e, ItemsOf(fetched)), now, formatDate);
            && receipt.totalFormatted == AmountText(priced.subtotal, priced.currency)
            && receipt.subtotalFormatted == receipt.totalFormatted
            && receipt.currencyCode == priced.currency
            && |receipt.lines| == |priced.lines|
  {
    var lines := LineItems(priced.lines);
    assert |multiset(fetched)| == |fetched| && |multiset(lines)| == |lines|;
    ItemsPermuted(fetched, lines);
    ReceiptSumIsTotal(priced.lines);
    CongruentTrans(Wrap(SumAmounts(ItemsOf(lines))), SumAmounts(ItemsOf(lines)), Pricing.Total(priced.lines));
    WrapUnique(Pricing.Total(priced.lines), Wrap(SumAmounts(ItemsOf(lines))));
    assert ToUpper(ToLower(priced.currency)) == ToUpper(priced.currency) by {
      UpperAfterLower(priced.currency);
      assert ToLower(priced.currency) == ToLower(ToUpper(priced.currency));
    }
  }

  // ---------- conservation ----------

  /** Step `cut` stored the pending row CreatePayment makes for the placed order. */
  ghost predicate OpensPayment(
    ids: UuidText, steps: seq<Step>, cut: nat, orderId: Uuid, order: OrderStore.Order, k: Uuid,
    session: PaymentServer.StripeSession)
  {
    && cut < |steps|
    && var s := Execute(ids, INIT, steps[..cut]);
    && var request := Checkout.PaymentRequestFor(ids, orderId, order);
    && PaymentServer.Acceptable(request)
    && steps[cut] == OpenPayment(PaymentServer.PendingRow(k, request, session))
    && k >= s.next && MaySave(s.payments, PaymentServer.PendingRow(k, request, session))
    && orderId in s.orders.rows && OrderStore.SameContent(s.orders.rows[orderId], order)
  }

  lemma OpenedIsConsistent(
    ids: UuidText, steps: seq<Step>, cut: nat, orderId: Uuid, order: OrderStore.Order, k: Uuid,
    session: PaymentServer.StripeSession)
    requires ids.Faithful() && OpensPayment(ids, steps, cut, orderId, order, k, session)
    ensures var terms := Terms(ids.show(orderId), order.totalMinor, ToLower(order.currency));
            Meaningful(terms) && Consistent(ids, Execute(ids, INIT, steps[..cut + 1]), k, terms)
  {
    var s := Execute(ids, INIT, steps[..cut]);
    RunIdsBelow(ids, steps[..cut]);
    assert steps[..cut + 1][..cut] == steps[..cut];
    forall e | e in s.stream
      ensures e.paymentId != ids.show(k)
    {
      var id: Uuid :| id < s.next && ids.show(id) == e.paymentId;
      if ids.show(id) == ids.show(k) {
        ShowInjective(ids, id, k);
      }
    }
  }

  lemma PricedFacts(
    ids: UuidText, products: seq<Pricing.ProductInfo>, inputs: seq<Pricing.ItemInput>, priced: Pricing.Priced)
    requires Pricing.Resolve(ids, products, inputs) == Success(priced)
    ensures priced.lines != [] && priced.subtotal == Wrap(Pricing.Total(priced.lines))
    ensures priced.currency == ToUpper(priced.currency)
    ensures priced.subtotal == Pricing.Total(priced.lines) <==> FitsInt64(Pricing.Total(priced.lines))
  {
    Pricing.ResolvedExact(ids, products, inputs);
    UpperAfterLower(Pricing.ProductOf(ids, products, inputs[|inputs| - 1]).value.currency);
  }

  lemma PaymentKeepsTerms(
    ids: UuidText, steps: seq<Step>, cut: nat, orderId: Uuid, order: OrderStore.Order, k: Uuid,
    session: PaymentServer.StripeSession)
    requires ids.Faithful() && OpensPayment(ids, steps, cut, orderId, order, k, session)
    ensures var terms := Terms(ids.show(orderId), order.totalMinor, ToLower(order.currency));
            Consistent(ids, Execute(ids, INIT, steps), k, terms)
  {
    OpenedIsConsistent(ids, steps, cut, orderId, order, k, session);
    ExecuteSplit(ids, INIT, steps, cut + 1);
    RunConsistent(ids, Execute(ids, INIT, steps[..cut + 1]), steps[cut + 1..], k,
                  Terms(ids.show(orderId), order.totalMinor, ToLower(order.currency)));
  }

  lemma OrderKeepsContent(
    ids: UuidText, steps: seq<Step>, cut: nat, orderId: Uuid, order: OrderStore.Order, k: Uuid,
    session: PaymentServer.StripeSession)
    requires OpensPayment(ids, steps, cut, orderId, order, k, session)
    ensures var rows := Execute(ids, INIT, steps).orders.rows;
            orderId in rows ==> OrderStore.SameContent(rows[orderId], order)
  {
    ExecuteSplit(ids, INIT, steps, cut);
    RunIdsBelow(ids, steps[..cut]);
    OrdersEvolve(ids, Execute(ids, INIT, steps[..cut]), steps[cut..]);
  }

  /**
   * Conservation: for an order priced from the catalog and the row CreatePayment stored for it, whatever
   * amounts Stripe's events carry and however calls, retries, deletions and admin steps interleave, every
   * published event of that payment carries the order's total; the order still holds its lines; and a
   * receipt over those lines prints that total as its total and as its subtotal. The total is the true
   * sum of price times quantity exactly when that sum is an int64.
   */
  lemma ConservationEndToEnd(
    ids: UuidText, products: seq<Pricing.ProductInfo>, inputs: seq<Pricing.ItemInput>, priced: Pricing.Priced,
    userId: string, email: string, steps: seq<Step>, cut: nat, orderId: Uuid, k: Uuid,
    session: PaymentServer.StripeSession, e: PaymentSucceeded, fetched: seq<OrderItem>, now: Time,
    formatDate: Time -> string)
    requires ids.Faithful() && Pricing.Resolve(ids, products, inputs) == Success(priced)
    requires OpensPayment(ids, steps, cut, orderId, OrderStore.Placed(userId, email, priced), k, session)
    requires e in Execute(ids, INIT, steps).stream && e.paymentId == ids.show(k)
    requires multiset(fetched) == multiset(LineItems(priced.lines))
    ensures e.amount == priced.subtotal && e.orderId == ids.show(orderId)
    ensures var payments := Execute(ids, INIT, steps).payments;
            k in payments ==>
              && payments[k].amount == priced.subtotal && payments[k].orderId == ids.show(orderId)
              && payments[k].currency == e.currency == ToLower(priced.currency)
    ensures var orders := Execute(ids, INIT, steps).orders.rows;
            orderId in orders ==>
              orders[orderId].items == priced.lines && orders[orderId].totalMinor == priced.subtotal
    ensures var receipt := Built(ReceiptProtocol.RawReceipt(e, ItemsOf(fetched)), now, formatDate);
            && receipt.totalFormatted == AmountText(priced.subtotal, priced.currency)
            && receipt.subtotalFormatted == receipt.totalFormatted
            && receipt.currencyCode == priced.currency
            && |receipt.lines| == |priced.lines|
    ensures priced.subtotal == Pricing.Total(priced.lines) <==> FitsInt64(Pricing.Total(priced.lines))
  {
    var order := OrderStore.Placed(userId, email, priced);
    PaymentKeepsTerms(ids, steps, cut, orderId, order, k, session);
    OrderKeepsContent(ids, steps, cut, orderId, order, k, session);
    PricedFacts(ids, products, inputs, priced);
    ReceiptShowsSubtotal(priced, fetched, e, now, formatDate);
  }
}
