// Building the receipt mail: services/notification/internal/nats/receipt.go, buildReceiptData and
// SendReceipt, and the line items of worker.go, fetchReceiptItems.
module Receipts {
  import opened Common
  import opened Machine
  import opened Text
  import opened Amounts

  datatype OrderItem = OrderItem(name: string, quantity: Int32, unitPriceMinor: Int64)

  datatype ReceiptItem = ReceiptItem(name: string, quantity: Int64, amount: Int64)

  datatype ReceiptLine = ReceiptLine(name: string, qtyLabel: string, amountFormatted: string)

  datatype ReceiptData = ReceiptData(
    orderId: string, paymentId: string, stripePaymentId: string,
    amount: Int64, currency: string, paymentMethod: string, paidAt: Time,
    items: seq<ReceiptItem>,
    lines: seq<ReceiptLine>, dateFormatted: string, totalFormatted: string, subtotalFormatted: string,
    currencyCode: string, paymentMethodLabel: string, hasItems: bool)

  // ---------- line items ----------

  function LineAmount(unitPriceMinor: Int64, quantity: Int32): Int64 {
    Wrap(unitPriceMinor * quantity)
  }

  function ItemOf(item: OrderItem): ReceiptItem {
    ReceiptItem(item.name, item.quantity as int, LineAmount(item.unitPriceMinor, item.quantity))
  }

  function ItemsOf(items: seq<OrderItem>): seq<ReceiptItem> {
    seq(|items|, i requires 0 <= i < |items| => ItemOf(items[i]))
  }

  /** `answer` is what the order service returned, or None when the call failed or no client is set. */
  method FetchReceiptItems(answer: Option<seq<OrderItem>>, orderId: string) returns (lines: seq<ReceiptItem>)
    ensures lines == if orderId != "" && answer.Some? then ItemsOf(answer.value) else []
    ensures orderId == "" || answer.None? ==> lines == []
    ensures orderId != "" && answer.Some? ==>
              && |lines| == |answer.value|
              && forall i :: 0 <= i < |lines| ==>
                               && lines[i].name == answer.value[i].name
                               && lines[i].quantity == answer.value[i].quantity
                               && lines[i].amount == Wrap(answer.value[i].unitPriceMinor * answer.value[i].quantity)
  {
    if orderId == "" || answer.None? {
      return [];
    }
    var items := answer.value;
    lines := [];
    for i := 0 to |items|
      invariant lines == ItemsOf(items[..i])
    {
      assert ItemsOf(items[..i + 1]) == ItemsOf(items[..i]) + [ItemOf(items[i])];
      lines := lines + [ReceiptItem(items[i].name, items[i].quantity as int,
                                    Wrap(items[i].unitPriceMinor * items[i].quantity))];
    }
    assert items[..|items|] == items;
  }

  // ---------- the rendered view ----------

  function CurrencyCode(currency: string): string {
    if ToUpper(currency) == "" then "USD" else ToUpper(currency)
  }

  function PaymentMethodLabel(paymentMethod: string): string {
    var lower := ToLower(paymentMethod);
    if lower == "" || lower == "stripe" then "Stripe"
    else if lower == "card" then "Card"
    else ToUpper(paymentMethod[..1]) + paymentMethod[1..]
  }

  function QtyLabel(quantity: Int64): string {
    if quantity > 1 then "\U{D7} " + FormatInt(quantity) else ""
  }

  function LineOf(item: ReceiptItem, currency: string): ReceiptLine {
    ReceiptLine(item.name, QtyLabel(item.quantity), AmountText(item.amount, currency))
  }

  function LinesOf(items: seq<ReceiptItem>, currency: string): seq<ReceiptLine> {
    seq(|items|, i requires 0 <= i < |items| => LineOf(items[i], currency))
  }

  /** The exact sum of the line amounts. */
  function SumAmounts(items: seq<ReceiptItem>): int {
    if items == [] then 0 else SumAmounts(items[..|items| - 1]) + items[|items| - 1].amount
  }

  /** What the mail shows; `now` is read only when the event carried no time. */
  function Built(data: ReceiptData, now: Time, formatDate: Time -> string): ReceiptData {
    var paidAt := if data.paidAt == ZERO_TIME then now else data.paidAt;
    var some := data.items != [];
    data.(currencyCode := CurrencyCode(data.currency),
          totalFormatted := AmountText(data.amount, data.currency),
          items := [],
          hasItems := some || data.hasItems,
          subtotalFormatted := if some then AmountText(Wrap(SumAmounts(data.items)), data.currency)
                               else data.subtotalFormatted,
          lines := if some then LinesOf(data.items, data.currency) else data.lines,
          paidAt := paidAt,
          dateFormatted := formatDate(paidAt),
          paymentMethodLabel := PaymentMethodLabel(data.paymentMethod))
  }

  lemma NextLine(items: seq<ReceiptItem>, i: nat, currency: string)
    requires i < |items|
    ensures Wrap(Wrap(SumAmounts(items[..i])) + items[i].amount) == Wrap(SumAmounts(items[..i + 1]))
    ensures LinesOf(items[..i + 1], currency) == LinesOf(items[..i], currency) + [LineOf(items[i], currency)]
  {
    assert items[..i + 1][..i] == items[..i];
    WrapAdd(SumAmounts(items[..i]), items[i].amount);
  }

  /** The loop over the items: the lines and their wrapped sum. */
  method BuildLines(items: seq<ReceiptItem>, currency: string) returns (lines: seq<ReceiptLine>, subtotal: Int64)
    ensures lines == LinesOf(items, currency)
    ensures subtotal == Wrap(SumAmounts(items))
  {
    subtotal := 0;
    lines := [];
    for i := 0 to |items|
      invariant subtotal == Wrap(SumAmounts(items[..i]))
      invariant lines == LinesOf(items[..i], currency)
    {
      NextLine(items, i, currency);
      subtotal := Wrap(subtotal + items[i].amount);
      var qtyLabel := "";
      if items[i].quantity > 1 {
        qtyLabel := "\U{D7} " + FormatInt(items[i].quantity);
      }
      var amount := FormatAmount(items[i].amount, currency);
      lines := lines + [ReceiptLine(items[i].name, qtyLabel, amount)];
    }
    assert items[..|items|] == items;
  }

  method BuildReceiptData(data: ReceiptData, now: Time, formatDate: Time -> string) returns (r: ReceiptData)
    ensures r == Built(data, now, formatDate)
  {
    var code := ToUpper(data.currency);
    if code == "" {
      code := "USD";
    }
    var total := FormatAmount(data.amount, data.currency);

    var lines, subtotal := BuildLines(data.items, data.currency);

    r := data.(currencyCode := code, totalFormatted := total, items := []);
    if |lines| > 0 {
      var formatted := FormatAmount(subtotal, data.currency);
      r := r.(hasItems := true, subtotalFormatted := formatted, lines := lines);
    }
    if r.paidAt == ZERO_TIME {
      r := r.(paidAt := now);
    }
    r := r.(dateFormatted := formatDate(r.paidAt), paymentMethodLabel := PaymentMethodLabel(r.paymentMethod));
  }

  /**
   * The mailer builds the data and then renders it, which builds it again. The second pass, at a possibly
   * later clock reading, changes nothing although the first one dropped the items.
   */
  lemma BuildIdempotent(data: ReceiptData, now: Time, later: Time, formatDate: Time -> string)
    requires now != ZERO_TIME
    ensures Built(Built(data, now, formatDate), later, formatDate) == Built(data, now, formatDate)
  {
  }

  /** The label is a times sign, a space and the quantity in digits. */
  predicate Labels(text: string, quantity: Int64) {
    |text| > 2 && text[0] == '\U{D7}' && text[1] == ' ' && ParseInt64(text[2..]) == Some(quantity)
  }

  lemma LabelReads(quantity: Int64)
    requires quantity > 1
    ensures Labels(QtyLabel(quantity), quantity)
  {
    var digits := FormatInt(quantity);
    FormatIntRoundTrip(quantity);
    assert ("\U{D7} " + digits)[2..] == digits;
  }

  /** What SendReceipt hands to the template. */
  method RenderedReceipt(data: ReceiptData, now: Time, later: Time, formatDate: Time -> string)
    returns (r: ReceiptData)
    requires now != ZERO_TIME
    ensures r == Built(data, now, formatDate)
    ensures data.items != [] ==>
              && |r.lines| == |data.items| && r.hasItems
              && (forall i :: 0 <= i < |r.lines| ==>
                    && r.lines[i].name == data.items[i].name
                    && r.lines[i].amountFormatted == AmountText(data.items[i].amount, data.currency)
                    && (data.items[i].quantity <= 1 ==> r.lines[i].qtyLabel == "")
                    && (data.items[i].quantity > 1 ==> Labels(r.lines[i].qtyLabel, data.items[i].quantity)))
              && r.subtotalFormatted == AmountText(Wrap(SumAmounts(data.items)), data.currency)
    ensures data.items == [] ==> r.lines == data.lines && r.hasItems == data.hasItems
    // the header: currency, total, time and payment method
    ensures r.currencyCode == (if data.currency == "" then "USD" else ToUpper(data.currency))
    ensures r.totalFormatted == AmountText(data.amount, data.currency)
    ensures r.paidAt == if data.paidAt == ZERO_TIME then now else data.paidAt
    ensures r.dateFormatted == formatDate(r.paidAt)
    ensures ToLower(data.paymentMethod) in {"", "stripe"} ==> r.paymentMethodLabel == "Stripe"
    ensures ToLower(data.paymentMethod) == "card" ==> r.paymentMethodLabel == "Card"
    ensures ToLower(data.paymentMethod) !in {"", "stripe", "card"} ==>
              && |r.paymentMethodLabel| == |data.paymentMethod|
              && r.paymentMethodLabel[0] == UpperChar(data.paymentMethod[0])
              && r.paymentMethodLabel[1..] == data.paymentMethod[1..]
  {
    forall i | 0 <= i < |data.items| && data.items[i].quantity > 1
      ensures Labels(QtyLabel(data.items[i].quantity), data.items[i].quantity)
    {
      LabelReads(data.items[i].quantity);
    }
    var once := BuildReceiptData(data, now, formatDate);
    r := BuildReceiptData(once, later, formatDate);
    BuildIdempotent(data, now, later, formatDate);
  }

  // ---------- the subtotal does not depend on the order of the lines ----------

  lemma {:induction false} SumAmountsAt(items: seq<ReceiptItem>, i: nat)
    requires i < |items|
    ensures SumAmounts(items) == SumAmounts(Without(items, i)) + items[i].amount
  {
    var last := |items| - 1;
    if i == last {
      assert Without(items, i) == items[..last];
    } else {
      SumAmountsAt(items[..last], i);
      assert Without(items, i)[..last - 1] == Without(items[..last], i);
    }
  }

  lemma {:induction false} SumAmountsPermuted(a: seq<ReceiptItem>, b: seq<ReceiptItem>)
    requires multiset(a) == multiset(b)
    ensures SumAmounts(a) == SumAmounts(b)
    decreases |a|
  {
    if a == [] {
      EmptyPermuted(a, b);
    } else {
      var i := MatchFirst(a, b);
      SumAmountsPermuted(Without(a, 0), Without(b, i));
      SumAmountsAt(a, 0);
      SumAmountsAt(b, i);
    }
  }
}
