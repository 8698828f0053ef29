// Opening a payment: services/payments/internal/server/grpc.go, CreatePayment, and the check on Stripe's
// answer in services/payments/internal/checkout/creator.go.
module PaymentServer {
  import opened Common
  import opened Machine
  import Text
  import opened PaymentStore

  datatype CreateRequest = CreateRequest(orderId: string, amountMinor: Int64, currency: string, customerEmail: string)

  datatype StripeSession = StripeSession(id: string, url: string)

  datatype Opened = Opened(paymentId: string, checkoutUrl: string)

  predicate Acceptable(request: CreateRequest) {
    request.orderId != "" && request.amountMinor > 0 && request.currency != ""
  }

  /** Stripe's answer is usable; None stands for a failed call. */
  predicate Usable(session: Option<StripeSession>) {
    session.Some? && session.value.id != "" && session.value.url != ""
  }

  /** The row stored for a request. */
  function PendingRow(id: Uuid, request: CreateRequest, session: StripeSession): Payment {
    Payment(id, request.orderId, Pending, Some(session.id), None, session.url,
            request.customerEmail, request.amountMinor, Text.ToLower(request.currency), None)
  }

  /** The row a successful CreatePayment leaves behind, field by field. */
  predicate OpenedFor(row: Payment, id: Uuid, request: CreateRequest, session: StripeSession) {
    && row.id == id && row.status == PaymentStatus.Pending
    && row.stripeSessionId == Some(session.id) && row.stripePaymentId.None? && row.checkoutUrl == session.url
    && row.orderId == request.orderId && row.email == request.customerEmail
    && row.amount == request.amountMinor && row.currency == Text.ToLower(request.currency) && row.paidAt.None?
  }

  /** Row `k` is what every event of the session finds, as long as no row holds the event's intent. */
  ghost predicate EventsFind(rows: Payments, k: Uuid, session: string) {
    forall input: SuccessInput :: input.stripeSessionId == session && IntentFree(rows, input.stripePaymentId) ==>
                                    Select(rows, input) == Some(k)
  }

  /** No row holds the intent. */
  predicate IntentFree(rows: Payments, intent: string) {
    intent == "" || forall j :: j in rows ==> rows[j].stripePaymentId != Some(intent)
  }

  lemma SessionFinds(rows: Payments, next: Uuid, k: Uuid, session: string)
    requires WellFormed(rows, next) && session != "" && k in rows && rows[k].stripeSessionId == Some(session)
    ensures EventsFind(rows, k, session)
  {
    forall input: SuccessInput | input.stripeSessionId == session && IntentFree(rows, input.stripePaymentId)
      ensures Select(rows, input) == Some(k)
    {
      forall j | j in rows && SharesId(rows[j], input)
        ensures k == j
      {
        assert MaySave(rows, rows[k]) && Clash(rows[j], rows[k]);
      }
      SelectMeaning(rows, input, k);
    }
  }

  /**
   * From CreatePayment to one row: the session's event, handled before any intent event, lands on the row
   * CreatePayment stored, and so does every later event about the payment.
   */
  lemma OneRowFromCreatePayment(
    s: Store, k: Uuid, request: CreateRequest, session: StripeSession, first: SuccessInput, newId: Uuid, ops: seq<Op>)
    requires Sound(s) && k >= s.next && MaySave(s.rows, PendingRow(k, request, session)) && session.id != ""
    requires first.stripeSessionId == session.id && first.stripePaymentId != "" && newId > k
    requires forall j :: j in s.rows ==> s.rows[j].stripePaymentId != Some(first.stripePaymentId)
    requires forall i :: 0 <= i < |ops| ==> !ops[i].Remove? && Paired(ops[i], session.id, first.stripePaymentId)
    ensures var stored := Apply(s, Create(PendingRow(k, request, session)));
            && LandsOn(stored, Succeed(first, newId), k)
            && var t := Apply(stored, Succeed(first, newId));
            && forall i :: 0 <= i < |ops| && ops[i].Succeed? &&
                           About(ops[i].input, session.id, first.stripePaymentId) ==>
                             LandsOn(Run(t, ops[..i]), ops[i], k)
  {
    var stored := Apply(s, Create(PendingRow(k, request, session)));
    ApplyKeeps(s, Create(PendingRow(k, request, session)));
    OneRowFromPending(stored, k, first, newId, ops);
  }

  method CreatePayment(
    repo: PaymentRepo, show: Uuid -> string, request: CreateRequest, newId: Uuid, session: Option<StripeSession>,
    dbFails: bool)
    returns (r: Option<Opened>)
    requires repo.Valid() && newId >= repo.nextId
    modifies repo
    ensures repo.Valid() && repo.nextId in {old(repo.nextId), newId + 1}
    ensures r.Some? <==>
            && Acceptable(request) && Usable(session) && !dbFails
            && MaySave(old(repo.rows), PendingRow(newId, request, session.value))
    ensures r.Some? ==>
              && r.value == Opened(show(newId), session.value.url)
              && repo.rows == old(repo.rows)[newId := PendingRow(newId, request, session.value)]
    ensures r.None? ==> repo.rows == old(repo.rows)
    // the stored row waits for the session's event, and carries what was asked for
    ensures r.Some? ==>
              && newId in repo.rows && repo.rows == old(repo.rows)[newId := repo.rows[newId]]
              && OpenedFor(repo.rows[newId], newId, request, session.value)
              && r.value.paymentId == show(newId) && r.value.checkoutUrl == session.value.url
    ensures r.Some? ==> EventsFind(repo.rows, newId, session.value.id)
    ensures r.Some? <==>
            && request.orderId != "" && request.amountMinor > 0 && request.currency != ""
            && session.Some? && session.value.id != "" && session.value.url != "" && !dbFails
            && forall k :: k in old(repo.rows) ==> old(repo.rows)[k].stripeSessionId != Some(session.value.id)
  {
    if request.orderId == "" || request.amountMinor <= 0 || request.currency == "" {
      return None;
    }
    var payment := Payment(newId, request.orderId, Pending, None, None, "", request.customerEmail,
                           request.amountMinor, Text.ToLower(request.currency), None);
    if session.None? || session.value.id == "" || session.value.url == "" {
      return None;
    }
    payment := payment.(stripeSessionId := Some(session.value.id));
    payment := payment.(checkoutUrl := session.value.url);
    var stored := repo.CreatePending(payment, dbFails);
    if stored.Failure? {
      return None;
    }
    SessionFinds(repo.rows, repo.nextId, newId, session.value.id);
    r := Some(Opened(show(newId), session.value.url));
  }
}

// Placing orders and showing carts: services/order/internal/server/service.go, CreateOrder, cartView,
// AddToCart and CheckoutCart.
module Checkout {
  import opened Common
  import opened Machine
  import opened Text
  import opened Pricing
  import opened OrderStore
  import opened CartStore
  import opened PaymentServer
  import PaymentStore

  // ---------- the cart view ----------

  datatype ItemView = ItemView(productId: Uuid, name: string, quantity: Int32, unitPriceMinor: Int64)

  datatype CartView = CartView(items: seq<ItemView>, subtotalMinor: Int64)

  /** The last active product of the answer carrying `id`. */
  function LookupActive(products: seq<ProductInfo>, id: Uuid): Option<ProductInfo> {
    if products == [] then None
    else if products[|products| - 1].id == id && products[|products| - 1].active then Some(products[|products| - 1])
    else LookupActive(products[..|products| - 1], id)
  }

  ghost predicate IndexesActive(byId: map<Uuid, ProductInfo>, products: seq<ProductInfo>) {
    forall id: Uuid :: LookupActive(products, id) == if id in byId then Some(byId[id]) else None
  }

  lemma IndexActiveNext(byId: map<Uuid, ProductInfo>, products: seq<ProductInfo>, i: nat)
    requires i < |products| && IndexesActive(byId, products[..i])
    ensures IndexesActive(if products[i].active then byId[products[i].id := products[i]] else byId, products[..i + 1])
  {
    assert products[..i + 1][..i] == products[..i];
  }

  function ViewOf(line: CartLine, product: ProductInfo): ItemView {
    ItemView(line.product, product.name, line.quantity, product.priceMinor)
  }

  /** The view after a prefix of the lines: unavailable products are skipped. */
  function Viewed(products: seq<ProductInfo>, lines: seq<CartLine>): CartView {
    if lines == [] then CartView([], 0)
    else
      var view := Viewed(products, lines[..|lines| - 1]);
      var line := lines[|lines| - 1];
      match LookupActive(products, line.product)
      case None => view
      case Some(product) =>
        CartView(view.items + [ViewOf(line, product)], Wrap(view.subtotalMinor + product.priceMinor * line.quantity))
  }

  method ShowCart(lines: seq<CartLine>, answer: Option<seq<ProductInfo>>) returns (r: Option<CartView>)
    ensures lines == [] ==> r == Some(CartView([], 0))
    ensures lines != [] ==> r == match answer case None => None case Some(products) => Some(Viewed(products, lines))
  {
    if |lines| == 0 {
      return Some(CartView([], 0));
    }
    if answer.None? {
      return None;
    }
    var products := answer.value;
    var byId: map<Uuid, ProductInfo> := map[];
    for i := 0 to |products|
      invariant IndexesActive(byId, products[..i])
    {
      IndexActiveNext(byId, products, i);
      if products[i].active {
        byId := byId[products[i].id := products[i]];
      }
    }
    assert products[..|products|] == products;

    var items: seq<ItemView> := [];
    var subtotal: Int64 := 0;
    for i := 0 to |lines|
      invariant Viewed(products, lines[..i]) == CartView(items, subtotal)
    {
      assert lines[..i + 1][..i] == lines[..i];
      if lines[i].product !in byId {
        continue;
      }
      var product := byId[lines[i].product];
      items := items + [ItemView(lines[i].product, product.name, lines[i].quantity, product.priceMinor)];
      WrapAdd(product.priceMinor * lines[i].quantity, subtotal);
      subtotal := Wrap(subtotal + Wrap(product.priceMinor * lines[i].quantity));
    }
    assert lines[..|lines|] == lines;
    r := Some(CartView(items, subtotal));
  }

  /** Product `k` is the last active one of the answer with this id. */
  predicate LastActive(products: seq<ProductInfo>, id: Uuid, k: nat) {
    && k < |products| && products[k].id == id && products[k].active
    && forall j :: k < j < |products| && products[j].active ==> products[j].id != id
  }

  predicate Available(products: seq<ProductInfo>, id: Uuid) {
    exists k :: 0 <= k < |products| && products[k].id == id && products[k].active
  }

  /** The lines whose product the answer holds as active. */
  function AvailableLines(products: seq<ProductInfo>, lines: seq<CartLine>): seq<CartLine> {
    if lines == [] then []
    else
      var last := lines[|lines| - 1];
      AvailableLines(products, lines[..|lines| - 1]) + if Available(products, last.product) then [last] else []
  }

  ghost predicate Presents(products: seq<ProductInfo>, line: CartLine, item: ItemView) {
    && item.productId == line.product && item.quantity == line.quantity
    && exists k: nat :: k < |products| && LastActive(products, line.product, k) &&
                        item.name == products[k].name && item.unitPriceMinor == products[k].priceMinor
  }

  /** The exact sum of price times quantity of the shown items. */
  function SumViews(items: seq<ItemView>): int {
    if items == [] then 0
    else SumViews(items[..|items| - 1]) + items[|items| - 1].unitPriceMinor * items[|items| - 1].quantity
  }

  lemma {:induction false} LookupActiveMeaning(products: seq<ProductInfo>, id: Uuid)
    ensures LookupActive(products, id).Some? <==> Available(products, id)
    ensures LookupActive(products, id).Some? ==>
              exists k: nat :: k < |products| && LastActive(products, id, k) &&
                               products[k] == LookupActive(products, id).value
  {
    if products != [] {
      var last := |products| - 1;
      var before := products[..last];
      LookupActiveMeaning(before, id);
      assert forall j :: 0 <= j < last ==> before[j] == products[j];
      if products[last].id == id && products[last].active {
        assert LastActive(products, id, last);
      } else if LookupActive(products, id).Some? {
        var k: nat :| k < last && LastActive(before, id, k) && before[k] == LookupActive(products, id).value;
        assert LastActive(products, id, k) && products[k].id == id;
      }
    }
  }

  lemma {:induction false} ViewSum(products: seq<ProductInfo>, lines: seq<CartLine>)
    ensures Viewed(products, lines).subtotalMinor == Wrap(SumViews(Viewed(products, lines).items))
  {
    if lines != [] {
      var last := |lines| - 1;
      ViewSum(products, lines[..last]);
      var before := Viewed(products, lines[..last]);
      match LookupActive(products, lines[last].product)
      case None =>
      case Some(product) =>
        assert (before.items + [ViewOf(lines[last], product)])[..|before.items|] == before.items;
        WrapAdd(SumViews(before.items), product.priceMinor * lines[last].quantity);
    }
  }

  lemma {:induction false} ViewItems(products: seq<ProductInfo>, lines: seq<CartLine>)
    ensures var (items, available) := (Viewed(products, lines).items, AvailableLines(products, lines));
            |items| == |available| && forall i :: 0 <= i < |available| ==> Presents(products, available[i], items[i])
  {
    if lines != [] {
      var last := |lines| - 1;
      ViewItems(products, lines[..last]);
      LookupActiveMeaning(products, lines[last].product);
      match LookupActive(products, lines[last].product)
      case None =>
      case Some(product) =>
        assert Presents(products, lines[last], ViewOf(lines[last], product));
    }
  }

  /** The view shows exactly the available lines, in order, at the answer's prices, and their wrapped sum. */
  lemma ViewMeaning(products: seq<ProductInfo>, lines: seq<CartLine>)
    ensures var (view, available) := (Viewed(products, lines), AvailableLines(products, lines));
            && |view.items| == |available|
            && (forall i :: 0 <= i < |available| ==> Presents(products, available[i], view.items[i]))
            && view.subtotalMinor == Wrap(SumViews(view.items))
  {
    ViewItems(products, lines);
    ViewSum(products, lines);
  }

  // ---------- the cart shows what checkout charges ----------

  /** The order items a checkout makes of the cart lines. */
  function InputsOf(ids: UuidText, lines: seq<CartLine>): seq<ItemInput> {
    seq(|lines|, i requires 0 <= i < |lines| => ItemInput(ids.show(lines[i].product), lines[i].quantity))
  }

  function ItemViewsOf(lines: seq<OrderLine>): seq<ItemView> {
    seq(|lines|, i requires 0 <= i < |lines| =>
      ItemView(lines[i].productId, lines[i].name, lines[i].quantity, lines[i].unitPriceMinor))
  }

  /** Where the last product of an id is active, both indexes hold the same product. */
  lemma {:induction false} ActiveAgrees(products: seq<ProductInfo>, id: Uuid)
    requires Lookup(products, id).Some? && Lookup(products, id).value.active
    ensures LookupActive(products, id) == Lookup(products, id)
  {
    if products[|products| - 1].id != id {
      ActiveAgrees(products[..|products| - 1], id);
    }
  }

  /**
   * Against one catalog answer, repeated ids included: whenever pricing accepts the cart, the view shows
   * the order's lines in the order's order, none skipped, and its subtotal.
   */
  lemma {:induction false} ViewShowsWhatIsCharged(ids: UuidText, products: seq<ProductInfo>, lines: seq<CartLine>)
    requires ids.Faithful() && Resolved(ids, products, InputsOf(ids, lines)).Success?
    ensures var priced := Resolved(ids, products, InputsOf(ids, lines)).value;
            Viewed(products, lines) == CartView(ItemViewsOf(priced.lines), priced.subtotal)
  {
    if lines != [] {
      var last := |lines| - 1;
      var inputs := InputsOf(ids, lines);
      assert inputs[..last] == InputsOf(ids, lines[..last]);
      ViewShowsWhatIsCharged(ids, products, lines[..last]);
      assert ids.parse(ids.show(lines[last].product)) == Some(lines[last].product);
      ActiveAgrees(products, lines[last].product);
    }
  }

  /** A second read of the cart may return the lines in another order; the subtotal shown is the same. */
  lemma AnyReadShowsTheSubtotal(
    ids: UuidText, products: seq<ProductInfo>, lines: seq<CartLine>, reread: seq<CartLine>)
    requires ids.Faithful() && NamedCurrencies(products) && multiset(lines) == multiset(reread)
    requires Resolve(ids, products, InputsOf(ids, lines)).Success?
    ensures Viewed(products, reread).subtotalMinor == Resolve(ids, products, InputsOf(ids, lines)).value.subtotal
    ensures |Viewed(products, reread).items| == |lines|
  {
    InputsPermuted(ids, lines, reread);
    var a, b := InputsOf(ids, lines), InputsOf(ids, reread);
    OrderOfInputsIrrelevant(ids, products, a, b);
    if reread == [] {
      EmptyPermuted(reread, lines);
    }
    ViewShowsWhatIsCharged(ids, products, reread);
  }

  lemma {:induction false} InputsPermuted(ids: UuidText, a: seq<CartLine>, b: seq<CartLine>)
    requires multiset(a) == multiset(b)
    ensures multiset(InputsOf(ids, a)) == multiset(InputsOf(ids, b))
    decreases |a|
  {
    if a == [] {
      EmptyPermuted(a, b);
    } else {
      var i := MatchFirst(a, b);
      InputsPermuted(ids, Without(a, 0), Without(b, i));
      InputsAt(ids, a, 0);
      InputsAt(ids, b, i);
    }
  }

  lemma InputsAt(ids: UuidText, lines: seq<CartLine>, i: nat)
    requires i < |lines|
    ensures multiset(InputsOf(ids, lines)) ==
            multiset(InputsOf(ids, Without(lines, i))) + multiset{InputsOf(ids, lines)[i]}
  {
    WithoutOne(InputsOf(ids, lines), i);
    assert InputsOf(ids, Without(lines, i)) == Without(InputsOf(ids, lines), i);
  }

  // ---------- the service ----------

  datatype ServiceError =
    | CatalogFailed
    | Rejected(error: PricingError)
    | StoreFailed
    | PaymentFailed
    | AttachFailed
    | CartFailed

  /** What one CreateOrder call meets: the catalog's and Stripe's answers, the fresh ids, the failing writes. */
  datatype Conditions = Conditions(
    answer: Option<seq<ProductInfo>>, session: Option<StripeSession>, orderId: Uuid, paymentId: Uuid,
    orderStoreFails: bool, paymentStoreFails: bool, attachFails: bool)

  /** The payment request made for a placed order. */
  function PaymentRequestFor(ids: UuidText, orderId: Uuid, order: Order): CreateRequest {
    CreateRequest(ids.show(orderId), order.totalMinor, order.currency, order.email)
  }

  class OrderService {
    const ids: UuidText
    const orders: OrderRepo
    const carts: CartRepo
    const payments: PaymentStore.PaymentRepo

    constructor (ids: UuidText, orders: OrderRepo, carts: CartRepo, payments: PaymentStore.PaymentRepo)
      ensures this.ids == ids && this.orders == orders && this.carts == carts && this.payments == payments
    {
      this.ids, this.orders, this.carts, this.payments := ids, orders, carts, payments;
    }

    ghost predicate Ready(conditions: Conditions)
      reads orders, payments
    {
      && orders.Valid() && payments.Valid()
      && conditions.orderId >= orders.nextId && conditions.paymentId >= payments.nextId
    }

    /** The payments table with the pending row of the order placed for `inputs`. */
    ghost function PendingAfter(
      rows: PaymentStore.Payments, userId: string, email: string, inputs: seq<ItemInput>, conditions: Conditions)
      : PaymentStore.Payments
    {
      if conditions.answer.None? || conditions.session.None? then rows
      else
        match Resolve(ids, conditions.answer.value, inputs)
        case Failure(_) => rows
        case Success(priced) =>
          var request := PaymentRequestFor(ids, conditions.orderId, Placed(userId, email, priced));
          rows[conditions.paymentId := PendingRow(conditions.paymentId, request, conditions.session.value)]
    }

    method CreateOrder(userId: string, email: string, inputs: seq<ItemInput>, conditions: Conditions)
      returns (r: Result<Order, ServiceError>)
      requires Ready(conditions)
      modifies orders, payments
      ensures orders.Valid() && payments.Valid()
      // a placed order: its priced content, and a pending payment row over the same total
      ensures r.Success? ==>
                && conditions.answer.Some? && Resolve(ids, conditions.answer.value, inputs).Success?
                && conditions.session.Some?
                && var order := Placed(userId, email, Resolve(ids, conditions.answer.value, inputs).value);
                && var request := PaymentRequestFor(ids, conditions.orderId, order);
                && r.value == order.(paymentId := ids.show(conditions.paymentId),
                                     checkoutUrl := conditions.session.value.url)
                && orders.rows == old(orders.rows)[conditions.orderId := r.value]
                && payments.rows == PendingAfter(old(payments.rows), userId, email, inputs, conditions)
                && Acceptable(request)
      // field by field: the order is the customer's, pending, over the priced lines and their sum, and the
      // payment row names the order, goes to the customer and asks for that sum
      ensures r.Success? ==>
                var priced := Resolve(ids, conditions.answer.value, inputs).value;
                && r.value.userId == userId && r.value.email == email && r.value.status == OrderStatus.Pending
                && r.value.items == priced.lines && r.value.currency == priced.currency && r.value.paidAt.None?
                && r.value.subtotalMinor == priced.subtotal == r.value.totalMinor
                && r.value.paymentId == ids.show(conditions.paymentId)
                && r.value.checkoutUrl == conditions.session.value.url
                && conditions.paymentId in payments.rows
                && var row := payments.rows[conditions.paymentId];
                && row.orderId == ids.show(conditions.orderId) && row.email == email
                && row.amount == priced.subtotal && row.currency == ToLower(priced.currency)
                && row.stripeSessionId == Some(conditions.session.value.id)
      // a failure before the order is stored leaves both tables alone
      ensures r.Failure? && (r.error.CatalogFailed? || r.error.Rejected? || r.error.StoreFailed?) ==>
                orders.rows == old(orders.rows) && payments.rows == old(payments.rows)
      ensures conditions.answer.None? <==> r == Failure(CatalogFailed)
      ensures conditions.answer.Some? && Resolve(ids, conditions.answer.value, inputs).Failure? <==>
              r.Failure? && r.error.Rejected?
      ensures r.Failure? && r.error.Rejected? ==>
                r.error.error == Resolve(ids, conditions.answer.value, inputs).error
      // a later one leaves the order behind, pending
      ensures r.Failure? && (r.error.PaymentFailed? || r.error.AttachFailed?) ==>
                && orders.rows == old(orders.rows)
                     [conditions.orderId := Placed(userId, email, Resolve(ids, conditions.answer.value, inputs).value)]
                && payments.rows == (if r.error.PaymentFailed? then old(payments.rows)
                                     else PendingAfter(old(payments.rows), userId, email, inputs, conditions))
      ensures r.Failure? ==> !r.error.CartFailed?
    {
      if conditions.answer.None? {
        return Failure(CatalogFailed);
      }
      var resolved := ResolveItems(ids, inputs, conditions.answer.value);
      if resolved.Failure? {
        return Failure(Rejected(resolved.error));
      }
      var priced := resolved.value;
      var order := Order(userId, Pending, email, priced.currency, priced.subtotal, priced.subtotal, "", "", None,
                         priced.lines);
      var created := orders.CreateOrder(conditions.orderId, order, conditions.orderStoreFails);
      if !created {
        return Failure(StoreFailed);
      }
      var payment := CreatePayment(
        payments, ids.show,
        CreateRequest(ids.show(conditions.orderId), order.totalMinor, order.currency, order.email),
        conditions.paymentId, conditions.session, conditions.paymentStoreFails);
      if payment.None? {
        return Failure(PaymentFailed);
      }
      var attached := orders.SetPaymentInfo(
        conditions.orderId, payment.value.paymentId, payment.value.checkoutUrl, conditions.attachFails);
      if !attached {
        return Failure(AttachFailed);
      }
      order := order.(paymentId := payment.value.paymentId, checkoutUrl := payment.value.checkoutUrl);
      r := Success(order);
    }

    /** An addition the service accepts reaches the cart; one it rejects leaves it alone. */
    method AddToCart(
      userId: string, productId: string, quantity: Int32, answer: Option<seq<ProductInfo>>,
      viewAnswer: Option<seq<ProductInfo>>, cartId: Uuid, itemId: Uuid, faults: Faults)
      returns (r: Option<CartView>)
      requires carts.Valid() && carts.nextId <= cartId < itemId
      modifies carts
      ensures carts.Valid()
      ensures carts.contents ==
              (if ids.parse(productId).Some? && quantity >= 1 &&
                  answer.Some? && |answer.value| == 1 && answer.value[0].active && !faults.cart && !faults.write
               then MapAdd(old(carts.contents), Line(userId, ids.parse(productId).value), quantity)
               else old(carts.contents))
      ensures r.Some? <==>
                && ids.parse(productId).Some? && quantity >= 1
                && answer.Some? && |answer.value| == 1 && answer.value[0].active
                && !faults.cart && !faults.write && !faults.reload
                && FitsInt32(QuantityIn(old(carts.contents), Line(userId, ids.parse(productId).value)) + quantity)
                && viewAnswer.Some?
      ensures r.Some? ==>
                exists lines :: Lists(carts.contents, userId, lines) && lines != [] &&
                                r.value == Viewed(viewAnswer.value, lines)
    {
      var id := ids.parse(productId);
      if id.None? || quantity < 1 {
        return None;
      }
      if answer.None? || |answer.value| != 1 || !answer.value[0].active {
        return None;
      }
      var lines := carts.AddCartItem(userId, id.value, quantity, cartId, itemId, faults);
      if lines.None? {
        return None;
      }
      r := ShowCart(lines.value, viewAnswer);
    }

    /** The request items for the lines of a cart. */
    method OrderItems(lines: seq<CartLine>) returns (inputs: seq<ItemInput>)
      ensures inputs == InputsOf(ids, lines)
    {
      inputs := [];
      for i := 0 to |lines|
        invariant inputs == InputsOf(ids, lines[..i])
      {
        assert InputsOf(ids, lines[..i + 1]) == InputsOf(ids, lines[..i]) + [InputsOf(ids, lines)[i]];
        inputs := inputs + [ItemInput(ids.show(lines[i].product), lines[i].quantity)];
      }
      assert lines[..|lines|] == lines;
    }

    /**
     * `lines` is the cart as this call read it. On success the order charges exactly what the view of
     * those lines shows against the same catalog answer, and the cart is empty; on any failure the cart
     * is as before.
     */
    method CheckoutCart(
      userId: string, email: string, conditions: Conditions, cartId: Uuid, clearCartId: Uuid, readFaults: Faults,
      clearFaults: Faults)
      returns (r: Result<Order, ServiceError>, lines: seq<CartLine>)
      requires Ready(conditions) && carts.Valid() && carts.nextId <= cartId < clearCartId
      requires ids.Faithful()
      modifies orders, carts, payments
      ensures orders.Valid() && carts.Valid() && payments.Valid()
      ensures r.Success? ==>
                && Lists(old(carts.contents), userId, lines) && lines != []
                && carts.contents == MapClear(old(carts.contents), userId)
                && conditions.answer.Some?
                && Viewed(conditions.answer.value, lines) == CartView(ItemViewsOf(r.value.items), r.value.subtotalMinor)
                && r.value.totalMinor == r.value.subtotalMinor
                && orders.rows == old(orders.rows)[conditions.orderId := r.value]
                && payments.rows == PendingAfter(old(payments.rows), userId, email, InputsOf(ids, lines), conditions)
      ensures r.Failure? ==> carts.contents == old(carts.contents)
      ensures r == Failure(CartFailed) && readFaults.cart ==>
                orders.rows == old(orders.rows) && payments.rows == old(payments.rows)
      // the order stands when only clearing the cart failed
      ensures r == Failure(CartFailed) && !readFaults.cart ==>
                && (clearFaults.cart || clearFaults.write)
                && Lists(old(carts.contents), userId, lines)
                && conditions.answer.Some? && conditions.session.Some?
                && Resolve(ids, conditions.answer.value, InputsOf(ids, lines)).Success?
                && orders.rows == old(orders.rows)[conditions.orderId :=
                     Placed(userId, email, Resolve(ids, conditions.answer.value, InputsOf(ids, lines)).value)
                       .(paymentId := ids.show(conditions.paymentId), checkoutUrl := conditions.session.value.url)]
                && payments.rows == PendingAfter(old(payments.rows), userId, email, InputsOf(ids, lines), conditions)
      ensures r.Failure? && !r.error.CartFailed? && !r.error.PaymentFailed? && !r.error.AttachFailed? ==>
                orders.rows == old(orders.rows)
    {
      lines := [];
      var cart := carts.GetCart(userId, cartId, readFaults);
      if cart.None? {
        return Failure(CartFailed), lines;
      }
      lines := cart.value;
      if |lines| == 0 {
        return Failure(Rejected(NoItems)), lines;
      }
      var inputs := OrderItems(lines);
      r := CreateOrder(userId, email, inputs, conditions);
      if r.Failure? {
        return;
      }
      ViewShowsWhatIsCharged(ids, conditions.answer.value, lines);
      var cleared := carts.ClearCart(userId, clearCartId, clearFaults);
      if !cleared {
        return Failure(CartFailed), lines;
      }
    }
  }
}
