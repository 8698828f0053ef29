// Telling the customer about a status change: services/order/internal/server/service.go,
// notifyStatusChanged.
module StatusEvents {
  import opened Common
  import opened Machine
  import opened Pricing
  import OrderStore

  datatype StatusItem = StatusItem(name: string, quantity: Int32, amountMinor: Int64)

  datatype StatusEvent = StatusEvent(
    orderId: string, userId: string, email: string, status: OrderStore.OrderStatus, totalMinor: Int64,
    currency: string, items: seq<StatusItem>, updatedAt: Time)

  /** The sum of the line amounts of an event. */
  function SumItems(items: seq<StatusItem>): int {
    if items == [] then 0 else SumItems(items[..|items| - 1]) + items[|items| - 1].amountMinor
  }

  /** `enabled` tells whether a publisher is wired; None means nothing is published. */
  method NotifyStatusChanged(id: string, order: OrderStore.Order, enabled: bool, now: Time)
    returns (r: Option<StatusEvent>)
    ensures r.Some? <==> enabled && order.email != ""
    ensures r.Some? ==>
              && r.value.orderId == id && r.value.userId == order.userId && r.value.email == order.email
              && r.value.status == order.status && r.value.currency == order.currency
              && r.value.totalMinor == order.totalMinor
              && r.value.updatedAt ==
                 (if order.status == OrderStore.Paid && order.paidAt.Some? then order.paidAt.value else now)
              && |r.value.items| == |order.items|
              && (forall i :: 0 <= i < |order.items| ==>
                    && r.value.items[i].name == order.items[i].name
                    && r.value.items[i].quantity == order.items[i].quantity
                    && r.value.items[i].amountMinor == Wrap(order.items[i].unitPriceMinor * order.items[i].quantity))
              // the printed line amounts add up to what the lines cost, wrapped like the total
              && Wrap(SumItems(r.value.items)) == Wrap(Total(order.items))
  {
    if !enabled || order.email == "" {
      return None;
    }
    var items: seq<StatusItem> := [];
    for i := 0 to |order.items|
      invariant |items| == i
      invariant forall j :: 0 <= j < i ==>
                  && items[j].name == order.items[j].name && items[j].quantity == order.items[j].quantity
                  && items[j].amountMinor == Wrap(order.items[j].unitPriceMinor * order.items[j].quantity)
      invariant Congruent(SumItems(items), Total(order.items[..i]))
    {
      var item := order.items[i];
      var amount := Wrap(item.unitPriceMinor * item.quantity);
      var next := items + [StatusItem(item.name, item.quantity, amount)];
      assert next[..i] == items && order.items[..i + 1][..i] == order.items[..i];
      CongruentSum(SumItems(items), Total(order.items[..i]), amount, item.unitPriceMinor * item.quantity);
      items := next;
    }
    assert order.items[..|order.items|] == order.items;
    CongruentTrans(Wrap(SumItems(items)), SumItems(items), Total(order.items));
    WrapUnique(Total(order.items), Wrap(SumItems(items)));
    var updatedAt := now;
    if order.paidAt.Some? && order.status == OrderStore.Paid {
      updatedAt := order.paidAt.value;
    }
    r := Some(StatusEvent(id, order.userId, order.email, order.status, order.totalMinor, order.currency, items,
                          updatedAt));
  }
}
