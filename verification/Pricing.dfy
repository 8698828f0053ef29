// Pricing an order against the catalog: services/order/internal/server/service.go, resolveItems.
module Pricing {
  import opened Common
  import opened Machine
  import opened Text

  datatype ProductInfo = ProductInfo(id: Uuid, name: string, priceMinor: Int64, currency: string, active: bool)

  datatype ItemInput = ItemInput(productId: string, quantity: Int32)

  datatype OrderLine = OrderLine(productId: Uuid, name: string, quantity: Int32, unitPriceMinor: Int64)

  datatype PricingError =
    | NoItems
    | BadProductId(text: string)
    | ProductMissing(id: Uuid)
    | BadQuantity(id: Uuid)
    | CurrencyMixed

  datatype Priced = Priced(lines: seq<OrderLine>, subtotal: Int64, currency: string)

  // ---------- the catalog answer as an index ----------

  /** The last product of the answer carrying `id`: later duplicates overwrite earlier ones. */
  function Lookup(products: seq<ProductInfo>, id: Uuid): Option<ProductInfo> {
    if products == [] then None
    else if products[|products| - 1].id == id then Some(products[|products| - 1])
    else Lookup(products[..|products| - 1], id)
  }

  /** The index built by one pass over the answer. */
  ghost predicate Indexes(byId: map<Uuid, ProductInfo>, products: seq<ProductInfo>) {
    forall id: Uuid :: Lookup(products, id) == if id in byId then Some(byId[id]) else None
  }

  lemma IndexSnoc(byId: map<Uuid, ProductInfo>, products: seq<ProductInfo>, i: nat)
    requires i < |products| && Indexes(byId, products[..i])
    ensures Indexes(byId[products[i].id := products[i]], products[..i + 1])
  {
    assert products[..i + 1][..i] == products[..i];
  }

  // ---------- what one input contributes ----------

  /** The product an input names, when its id parses and the answer holds it. */
  function ProductOf(ids: UuidText, products: seq<ProductInfo>, input: ItemInput): Option<ProductInfo> {
    match ids.parse(input.productId)
    case None => None
    case Some(id) => Lookup(products, id)
  }

  /** What is wrong with an input on its own, in the order the code checks it. */
  function OwnError(ids: UuidText, products: seq<ProductInfo>, input: ItemInput): Option<PricingError> {
    match ids.parse(input.productId)
    case None => Some(BadProductId(input.productId))
    case Some(id) =>
      match Lookup(products, id)
      case None => Some(ProductMissing(id))
      case Some(product) =>
        if !product.active then Some(ProductMissing(id))
        else if input.quantity < 1 then Some(BadQuantity(id))
        else None
  }

  /** The upper-cased currency of an input without an error of its own. */
  function CurrencyOf(ids: UuidText, products: seq<ProductInfo>, input: ItemInput): string
    requires OwnError(ids, products, input).None?
  {
    ToUpper(ProductOf(ids, products, input).value.currency)
  }

  function SnapshotOf(ids: UuidText, products: seq<ProductInfo>, input: ItemInput): OrderLine
    requires OwnError(ids, products, input).None?
  {
    var product := ProductOf(ids, products, input).value;
    OrderLine(ids.parse(input.productId).value, product.name, input.quantity, product.priceMinor)
  }

  /** An earlier line settled on another currency. An empty code settles nothing. */
  predicate Conflicts(earlier: string, later: string) {
    earlier != "" && earlier != later
  }

  /** Every input is in order on its own. */
  predicate EachValid(ids: UuidText, products: seq<ProductInfo>, inputs: seq<ItemInput>) {
    forall i :: 0 <= i < |inputs| ==> OwnError(ids, products, inputs[i]).None?
  }

  /** No input conflicts with an earlier one. */
  predicate CurrenciesAgree(ids: UuidText, products: seq<ProductInfo>, inputs: seq<ItemInput>)
    requires EachValid(ids, products, inputs)
  {
    forall i, j :: 0 <= i < j < |inputs| ==>
                     !Conflicts(CurrencyOf(ids, products, inputs[i]), CurrencyOf(ids, products, inputs[j]))
  }

  function Snapshots(ids: UuidText, products: seq<ProductInfo>, inputs: seq<ItemInput>): seq<OrderLine>
    requires EachValid(ids, products, inputs)
  {
    seq(|inputs|, i requires 0 <= i < |inputs| => SnapshotOf(ids, products, inputs[i]))
  }

  /** The exact sum of price times quantity. */
  function Total(lines: seq<OrderLine>): int {
    if lines == [] then 0
    else Total(lines[..|lines| - 1]) + lines[|lines| - 1].unitPriceMinor * lines[|lines| - 1].quantity
  }

  // ---------- the whole computation ----------

  /** What the loop knows after a prefix of the inputs: the lines so far, or the error it stopped at. */
  function Resolved(ids: UuidText, products: seq<ProductInfo>, inputs: seq<ItemInput>): Result<Priced, PricingError> {
    if inputs == [] then Success(Priced([], 0, ""))
    else
      match Resolved(ids, products, inputs[..|inputs| - 1])
      case Failure(e) => Failure(e)
      case Success(priced) =>
        var input := inputs[|inputs| - 1];
        if OwnError(ids, products, input).Some? then Failure(OwnError(ids, products, input).value)
        else if Conflicts(priced.currency, CurrencyOf(ids, products, input)) then Failure(CurrencyMixed)
        else
          var line := SnapshotOf(ids, products, input);
          Success(Priced(priced.lines + [line],
                         Wrap(priced.subtotal + line.unitPriceMinor * line.quantity),
                         CurrencyOf(ids, products, input)))
  }

  function Resolve(ids: UuidText, products: seq<ProductInfo>, inputs: seq<ItemInput>): Result<Priced, PricingError> {
    if inputs == [] then Failure(NoItems) else Resolved(ids, products, inputs)
  }

  method ResolveItems(ids: UuidText, inputs: seq<ItemInput>, products: seq<ProductInfo>)
    returns (r: Result<Priced, PricingError>)
    ensures r == Resolve(ids, products, inputs)
  {
    if |inputs| == 0 {
      return Failure(NoItems);
    }
    var byId: map<Uuid, ProductInfo> := map[];
    for i := 0 to |products|
      invariant Indexes(byId, products[..i])
    {
      IndexSnoc(byId, products, i);
      byId := byId[products[i].id := products[i]];
    }
    assert products[..|products|] == products;

    var items: seq<OrderLine> := [];
    var subtotal: Int64 := 0;
    var currency := "";
    for i := 0 to |inputs|
      invariant Resolved(ids, products, inputs[..i]) == Success(Priced(items, subtotal, currency))
    {
      assert inputs[..i + 1][..i] == inputs[..i];
      var input := inputs[i];
      var id := ids.parse(input.productId);
      if id.None? {
        StaysFailed(ids, products, inputs, i + 1);
        return Failure(BadProductId(input.productId));
      }
      if id.value !in byId || !byId[id.value].active {
        StaysFailed(ids, products, inputs, i + 1);
        return Failure(ProductMissing(id.value));
      }
      var product := byId[id.value];
      if input.quantity < 1 {
        StaysFailed(ids, products, inputs, i + 1);
        return Failure(BadQuantity(id.value));
      }
      if currency == "" {
        currency := ToUpper(product.currency);
      } else if currency != ToUpper(product.currency) {
        StaysFailed(ids, products, inputs, i + 1);
        return Failure(CurrencyMixed);
      }
      var line := Wrap(product.priceMinor * input.quantity);
      WrapAdd(product.priceMinor * input.quantity, subtotal);
      subtotal := Wrap(subtotal + line);
      items := items + [OrderLine(id.value, product.name, input.quantity, product.priceMinor)];
    }
    assert inputs[..|inputs|] == inputs;
    r := Success(Priced(items, subtotal, currency));
  }

  lemma {:induction false} StaysFailed(ids: UuidText, products: seq<ProductInfo>, inputs: seq<ItemInput>, i: nat)
    requires i <= |inputs| && Resolved(ids, products, inputs[..i]).Failure?
    ensures Resolved(ids, products, inputs) == Resolved(ids, products, inputs[..i])
    decreases |inputs| - i
  {
    if i == |inputs| {
      assert inputs[..i] == inputs;
    } else {
      assert inputs[..i + 1][..i] == inputs[..i];
      StaysFailed(ids, products, inputs, i + 1);
    }
  }

  // ---------- exactness ----------

  /** The priced order an error-free input list yields. */
  ghost predicate PricesExactly(ids: UuidText, products: seq<ProductInfo>, inputs: seq<ItemInput>, priced: Priced)
    requires EachValid(ids, products, inputs)
  {
    && priced.lines == Snapshots(ids, products, inputs)
    && priced.subtotal == Wrap(Total(priced.lines))
    && priced.currency == if inputs == [] then "" else CurrencyOf(ids, products, inputs[|inputs| - 1])
  }

  /** One more input: what the loop's own step adds to a list that is priced exactly. */
  lemma PricesExactlySnoc(
    ids: UuidText, products: seq<ProductInfo>, before: seq<ItemInput>, input: ItemInput, priced: Priced)
    requires EachValid(ids, products, before) && OwnError(ids, products, input).None?
    requires PricesExactly(ids, products, before, priced)
    ensures EachValid(ids, products, before + [input])
    ensures var line := SnapshotOf(ids, products, input);
            PricesExactly(ids, products, before + [input],
                          Priced(priced.lines + [line], Wrap(priced.subtotal + line.unitPriceMinor * line.quantity),
                                 CurrencyOf(ids, products, input)))
  {
    var line := SnapshotOf(ids, products, input);
    assert (priced.lines + [line])[..|priced.lines|] == priced.lines;
    WrapAdd(Total(priced.lines), line.unitPriceMinor * line.quantity);
  }

  /** One more input: when the list stays acceptable. */
  lemma AcceptableSnoc(ids: UuidText, products: seq<ProductInfo>, before: seq<ItemInput>, input: ItemInput)
    ensures EachValid(ids, products, before + [input]) <==>
            EachValid(ids, products, before) && OwnError(ids, products, input).None?
    ensures EachValid(ids, products, before + [input]) ==>
              (CurrenciesAgree(ids, products, before + [input]) <==>
               CurrenciesAgree(ids, products, before) &&
               (before != [] ==>
                  !Conflicts(CurrencyOf(ids, products, before[|before| - 1]), CurrencyOf(ids, products, input))))
  {
    var inputs := before + [input];
    assert inputs[..|before|] == before;
    if EachValid(ids, products, inputs) {
      assert forall i :: 0 <= i < |before| ==> before[i] == inputs[i];
      assert inputs[|before|] == input;
      AgreeSnoc(ids, products, inputs);
    }
  }

  /**
   * The loop succeeds exactly when every input is valid on its own and none conflicts with an earlier
   * one; it then yields one snapshot per input in order and the wrapped exact sum.
   */
  lemma {:induction false} ResolvedExact(ids: UuidText, products: seq<ProductInfo>, inputs: seq<ItemInput>)
    ensures Resolved(ids, products, inputs).Success? <==>
            EachValid(ids, products, inputs) && CurrenciesAgree(ids, products, inputs)
    ensures Resolved(ids, products, inputs).Success? ==>
              PricesExactly(ids, products, inputs, Resolved(ids, products, inputs).value)
  {
    if inputs != [] {
      var last := |inputs| - 1;
      assert inputs == inputs[..last] + [inputs[last]];
      ResolvedExact(ids, products, inputs[..last]);
      ResolvedExactSnoc(ids, products, inputs[..last], inputs[last]);
    }
  }

  /** Accepted, and then priced exactly: what one resolution does. */
  ghost predicate IsExact(ids: UuidText, products: seq<ProductInfo>, inputs: seq<ItemInput>) {
    var resolved := Resolved(ids, products, inputs);
    if EachValid(ids, products, inputs) && CurrenciesAgree(ids, products, inputs)
    then resolved.Success? && PricesExactly(ids, products, inputs, resolved.value)
    else resolved.Failure?
  }

  lemma ResolvedExactSnoc(ids: UuidText, products: seq<ProductInfo>, before: seq<ItemInput>, input: ItemInput)
    requires IsExact(ids, products, before)
    ensures IsExact(ids, products, before + [input])
  {
    ResolvedSnoc(ids, products, before, input);
    AcceptableSnoc(ids, products, before, input);
    var resolved := Resolved(ids, products, before);
    if resolved.Failure? {
      assert Resolved(ids, products, before + [input]).Failure?;
    } else if OwnError(ids, products, input).None? {
      PricesExactlySnoc(ids, products, before, input, resolved.value);
    }
  }

  /** It is enough to compare with the line just before: an agreed currency never changes again. */
  lemma AgreeSnoc(ids: UuidText, products: seq<ProductInfo>, inputs: seq<ItemInput>)
    requires inputs != [] && EachValid(ids, products, inputs)
    ensures CurrenciesAgree(ids, products, inputs) <==>
            && CurrenciesAgree(ids, products, inputs[..|inputs| - 1])
            && (|inputs| > 1 ==> !Conflicts(CurrencyOf(ids, products, inputs[|inputs| - 2]),
                                            CurrencyOf(ids, products, inputs[|inputs| - 1])))
  {
    var last := |inputs| - 1;
    var before := inputs[..last];
    assert forall i :: 0 <= i < last ==> before[i] == inputs[i];
    if CurrenciesAgree(ids, products, before) && last > 0 &&
       !Conflicts(CurrencyOf(ids, products, inputs[last - 1]), CurrencyOf(ids, products, inputs[last])) {
      forall i | 0 <= i < last
        ensures !Conflicts(CurrencyOf(ids, products, inputs[i]), CurrencyOf(ids, products, inputs[last]))
      {
        if i < last - 1 {
          assert !Conflicts(CurrencyOf(ids, products, before[i]), CurrencyOf(ids, products, before[last - 1]));
        }
      }
    }
  }

  /** The error the code reports for input `i`, given that it got that far. */
  function ErrorAt(ids: UuidText, products: seq<ProductInfo>, inputs: seq<ItemInput>, i: nat): PricingError
    requires i < |inputs|
  {
    if OwnError(ids, products, inputs[i]).Some? then OwnError(ids, products, inputs[i]).value else CurrencyMixed
  }

  /** Input `i` is where the loop stops: everything before it was accepted, and this is its error. */
  ghost predicate StopsAt(
    ids: UuidText, products: seq<ProductInfo>, inputs: seq<ItemInput>, i: nat, error: PricingError)
  {
    && i < |inputs|
    && Resolved(ids, products, inputs[..i]).Success?
    && Resolved(ids, products, inputs[..i + 1]).Failure?
    && error == ErrorAt(ids, products, inputs, i)
  }

  /** A failure is the error of the first input that cannot be accepted. */
  lemma {:induction false} ResolvedFirstError(ids: UuidText, products: seq<ProductInfo>, inputs: seq<ItemInput>)
    requires Resolved(ids, products, inputs).Failure?
    ensures exists i: nat :: StopsAt(ids, products, inputs, i, Resolved(ids, products, inputs).error)
  {
    var last := |inputs| - 1;
    var before := inputs[..last];
    assert inputs[..last + 1] == inputs;
    if Resolved(ids, products, before).Failure? {
      ResolvedFirstError(ids, products, before);
      var i: nat :| StopsAt(ids, products, before, i, Resolved(ids, products, inputs).error);
      assert before[..i] == inputs[..i] && before[..i + 1] == inputs[..i + 1];
      assert StopsAt(ids, products, inputs, i, Resolved(ids, products, inputs).error);
    } else {
      assert StopsAt(ids, products, inputs, last, Resolved(ids, products, inputs).error);
    }
  }

  /** The subtotal charged is the true sum exactly when that sum is an int64. */
  lemma SubtotalExact(ids: UuidText, products: seq<ProductInfo>, inputs: seq<ItemInput>)
    requires Resolve(ids, products, inputs).Success?
    ensures var priced := Resolve(ids, products, inputs).value;
            && Congruent(priced.subtotal, Total(priced.lines))
            && (priced.subtotal == Total(priced.lines) <==> FitsInt64(Total(priced.lines)))
  {
    ResolvedExact(ids, products, inputs);
  }

  // ---------- the order of the lines does not matter ----------

  lemma {:induction false} TotalAt(lines: seq<OrderLine>, i: nat)
    requires i < |lines|
    ensures Total(lines) == Total(Without(lines, i)) + lines[i].unitPriceMinor * lines[i].quantity
  {
    var last := |lines| - 1;
    if i == last {
      assert Without(lines, i) == lines[..last];
    } else {
      TotalAt(lines[..last], i);
      assert Without(lines, i)[..last - 1] == Without(lines[..last], i);
    }
  }

  lemma {:induction false} TotalPermuted(a: seq<OrderLine>, b: seq<OrderLine>)
    requires multiset(a) == multiset(b)
    ensures Total(a) == Total(b)
    decreases |a|
  {
    if a == [] {
      EmptyPermuted(a, b);
    } else {
      var i := MatchFirst(a, b);
      TotalPermuted(Without(a, 0), Without(b, i));
      TotalAt(a, 0);
      TotalAt(b, i);
    }
  }

  lemma SnapshotsAt(ids: UuidText, products: seq<ProductInfo>, inputs: seq<ItemInput>, i: nat)
    requires i < |inputs| && EachValid(ids, products, inputs)
    ensures EachValid(ids, products, Without(inputs, i))
    ensures multiset(Snapshots(ids, products, inputs)) ==
            multiset(Snapshots(ids, products, Without(inputs, i))) + multiset{SnapshotOf(ids, products, inputs[i])}
  {
    var s := Snapshots(ids, products, inputs);
    WithoutOne(s, i);
    assert Snapshots(ids, products, Without(inputs, i)) == Without(s, i);
  }

  lemma {:induction false} SnapshotsPermuted(
    ids: UuidText, products: seq<ProductInfo>, a: seq<ItemInput>, b: seq<ItemInput>)
    requires multiset(a) == multiset(b) && EachValid(ids, products, a) && EachValid(ids, products, b)
    ensures multiset(Snapshots(ids, products, a)) == multiset(Snapshots(ids, products, b))
    decreases |a|
  {
    if a == [] {
      EmptyPermuted(a, b);
    } else {
      var i := MatchFirst(a, b);
      SnapshotsAt(ids, products, a, 0);
      SnapshotsAt(ids, products, b, i);
      SnapshotsPermuted(ids, products, Without(a, 0), Without(b, i));
    }
  }

  /** The catalog only stores products with a currency. */
  predicate NamedCurrencies(products: seq<ProductInfo>) {
    forall k :: 0 <= k < |products| ==> products[k].currency != ""
  }

  lemma {:induction false} LookupFinds(products: seq<ProductInfo>, id: Uuid)
    ensures Lookup(products, id).Some? ==>
              exists k :: 0 <= k < |products| && products[k] == Lookup(products, id).value && products[k].id == id
    ensures Lookup(products, id).None? ==> forall k :: 0 <= k < |products| ==> products[k].id != id
  {
    if products != [] {
      var last := |products| - 1;
      LookupFinds(products[..last], id);
      if products[last].id != id && Lookup(products, id).Some? {
        var k :| 0 <= k < last && products[..last][k] == Lookup(products, id).value && products[..last][k].id == id;
        assert products[k] == Lookup(products, id).value;
      }
    }
  }

  lemma SameElements(a: seq<ItemInput>, b: seq<ItemInput>)
    requires multiset(a) == multiset(b)
    ensures forall i :: 0 <= i < |a| ==> a[i] in b
    ensures |a| == |b|
  {
    assert |multiset(a)| == |a| && |multiset(b)| == |b|;
    forall i | 0 <= i < |a|
      ensures a[i] in b
    {
      assert a[i] in multiset(a);
    }
  }

  /** All lines share one currency. */
  predicate OneCurrency(ids: UuidText, products: seq<ProductInfo>, inputs: seq<ItemInput>)
    requires EachValid(ids, products, inputs)
  {
    forall i, j :: 0 <= i < |inputs| && 0 <= j < |inputs| ==>
                     CurrencyOf(ids, products, inputs[i]) == CurrencyOf(ids, products, inputs[j])
  }

  lemma NamedMeansOneCurrency(ids: UuidText, products: seq<ProductInfo>, inputs: seq<ItemInput>)
    requires NamedCurrencies(products) && EachValid(ids, products, inputs)
    ensures CurrenciesAgree(ids, products, inputs) <==> OneCurrency(ids, products, inputs)
  {
    forall i | 0 <= i < |inputs|
      ensures CurrencyOf(ids, products, inputs[i]) != ""
    {
      LookupFinds(products, ids.parse(inputs[i].productId).value);
    }
    if CurrenciesAgree(ids, products, inputs) {
      forall i, j | 0 <= i < |inputs| && 0 <= j < |inputs|
        ensures CurrencyOf(ids, products, inputs[i]) == CurrencyOf(ids, products, inputs[j])
      {
        if i < j {
          assert !Conflicts(CurrencyOf(ids, products, inputs[i]), CurrencyOf(ids, products, inputs[j]));
        } else if j < i {
          assert !Conflicts(CurrencyOf(ids, products, inputs[j]), CurrencyOf(ids, products, inputs[i]));
        }
      }
    }
  }

  lemma PermutedValidity(ids: UuidText, products: seq<ProductInfo>, a: seq<ItemInput>, b: seq<ItemInput>)
    requires multiset(a) == multiset(b)
    requires EachValid(ids, products, a) && OneCurrency(ids, products, a)
    ensures EachValid(ids, products, b) && OneCurrency(ids, products, b)
    ensures a != [] ==> CurrencyOf(ids, products, a[|a| - 1]) == CurrencyOf(ids, products, b[|b| - 1])
  {
    SameElements(b, a);
  }

  /**
   * Reordering the inputs preserves success and failure, the subtotal and the currency, and carries each
   * line along with its input.
   */
  lemma OrderOfInputsIrrelevant(ids: UuidText, products: seq<ProductInfo>, a: seq<ItemInput>, b: seq<ItemInput>)
    requires multiset(a) == multiset(b) && NamedCurrencies(products)
    ensures Resolve(ids, products, a).Success? <==> Resolve(ids, products, b).Success?
    ensures Resolve(ids, products, a).Success? ==>
              var x, y := Resolve(ids, products, a).value, Resolve(ids, products, b).value;
              && x.subtotal == y.subtotal
              && x.currency == y.currency
              && multiset(x.lines) == multiset(y.lines)
              && |x.lines| == |y.lines| == |a| == |b|
              && forall i, j :: 0 <= i < |a| && 0 <= j < |b| && a[i] == b[j] ==> x.lines[i] == y.lines[j]
  {
    SameElements(a, b);
    ResolvedExact(ids, products, a);
    ResolvedExact(ids, products, b);
    if EachValid(ids, products, a) && OneCurrency(ids, products, a) {
      PermutedValidity(ids, products, a, b);
      NamedMeansOneCurrency(ids, products, a);
      NamedMeansOneCurrency(ids, products, b);
      SnapshotsPermuted(ids, products, a, b);
      TotalPermuted(Snapshots(ids, products, a), Snapshots(ids, products, b));
    } else {
      if EachValid(ids, products, b) && OneCurrency(ids, products, b) {
        PermutedValidity(ids, products, b, a);
      }
      if EachValid(ids, products, a) {
        NamedMeansOneCurrency(ids, products, a);
      }
      if EachValid(ids, products, b) {
        NamedMeansOneCurrency(ids, products, b);
      }
    }
  }

  /**
   * Without the catalog's guarantee the order matters: an accepted list stays accepted under every
   * reordering exactly when its lines already share one currency.
   */
  lemma OrderMattersWithoutCurrency(ids: UuidText, products: seq<ProductInfo>, a: seq<ItemInput>)
    requires Resolve(ids, products, a).Success?
    ensures EachValid(ids, products, a)
    ensures OneCurrency(ids, products, a) <==>
            forall b: seq<ItemInput> :: multiset(b) == multiset(a) ==> Resolve(ids, products, b).Success?
  {
    ResolvedExact(ids, products, a);
    if OneCurrency(ids, products, a) {
      forall b: seq<ItemInput> | multiset(b) == multiset(a)
        ensures Resolve(ids, products, b).Success?
      {
        SameElements(a, b);
        PermutedValidity(ids, products, a, b);
        ResolvedExact(ids, products, b);
      }
    } else {
      var b := MixedReordering(ids, products, a);
      assert multiset(b) == multiset(a) && Resolve(ids, products, b).Failure?;
    }
  }

  /** Two lines of different currencies are accepted one way round only. */
  lemma MixedReordering(ids: UuidText, products: seq<ProductInfo>, a: seq<ItemInput>) returns (b: seq<ItemInput>)
    requires EachValid(ids, products, a) && CurrenciesAgree(ids, products, a) && !OneCurrency(ids, products, a)
    ensures multiset(b) == multiset(a) && Resolve(ids, products, b).Failure?
  {
    var i, j :| 0 <= i < |a| && 0 <= j < |a| && CurrencyOf(ids, products, a[i]) != CurrencyOf(ids, products, a[j]);
    var p, q := if i < j then i else j, if i < j then j else i;
    assert !Conflicts(CurrencyOf(ids, products, a[p]), CurrencyOf(ids, products, a[q]));
    b := a[p := a[q]][q := a[p]];
    SwapPermutes(a, p, q);
    ResolvedExact(ids, products, b);
    assert forall n :: 0 <= n < |b| ==> b[n] == if n == p then a[q] else if n == q then a[p] else a[n];
    assert Conflicts(CurrencyOf(ids, products, b[p]), CurrencyOf(ids, products, b[q]));
  }

  // ---------- the checks, on the inputs and the answer themselves ----------

  /** Product `k` is the last of the answer with this id: the one the index keeps. */
  predicate LastWith(products: seq<ProductInfo>, id: Uuid, k: nat) {
    && k < |products| && products[k].id == id
    && forall j :: k < j < |products| ==> products[j].id != id
  }

  /** The product that counts for an id is there and active. */
  predicate Sellable(products: seq<ProductInfo>, id: Uuid) {
    exists k: nat :: k < |products| && LastWith(products, id, k) && products[k].active
  }

  lemma {:induction false} LookupIsLast(products: seq<ProductInfo>, id: Uuid)
    ensures Lookup(products, id).Some? ==>
              exists k: nat :: k < |products| && LastWith(products, id, k) && products[k] == Lookup(products, id).value
    ensures Lookup(products, id).None? ==> forall k: nat :: !LastWith(products, id, k)
    ensures Lookup(products, id).None? ==> forall k :: 0 <= k < |products| ==> products[k].id != id
  {
    LookupFinds(products, id);
    if products != [] {
      var last := |products| - 1;
      if products[last].id == id {
        assert LastWith(products, id, last);
      } else {
        LookupIsLast(products[..last], id);
        if Lookup(products, id).Some? {
          var k: nat :|
            k < last && LastWith(products[..last], id, k) && products[..last][k] == Lookup(products, id).value;
          assert forall j :: k < j < last ==> products[j] == products[..last][j];
          assert LastWith(products, id, k);
        }
      }
    }
  }

  lemma LastIsLookup(products: seq<ProductInfo>, id: Uuid, k: nat)
    requires LastWith(products, id, k)
    ensures Lookup(products, id) == Some(products[k])
  {
    LookupIsLast(products, id);
    if Lookup(products, id).Some? {
      var j: nat :| j < |products| && LastWith(products, id, j) && products[j] == Lookup(products, id).value;
      assert j == k;
    }
  }

  /** What the code says of one input, in the order it checks: None when the input is in order. */
  ghost function Complaint(ids: UuidText, products: seq<ProductInfo>, input: ItemInput): Option<PricingError> {
    match ids.parse(input.productId)
    case None => Some(BadProductId(input.productId))
    case Some(id) =>
      if !Sellable(products, id) then Some(ProductMissing(id))
      else if input.quantity < 1 then Some(BadQuantity(id))
      else None
  }

  lemma OwnErrorMeaning(ids: UuidText, products: seq<ProductInfo>, input: ItemInput)
    ensures OwnError(ids, products, input) == Complaint(ids, products, input)
  {
    var parsed := ids.parse(input.productId);
    if parsed.Some? {
      LookupIsLast(products, parsed.value);
      if Sellable(products, parsed.value) {
        var k: nat :| k < |products| && LastWith(products, parsed.value, k) && products[k].active;
        LastIsLookup(products, parsed.value, k);
      }
    }
  }

  /** The line is the snapshot of the input: its product as the answer last has it, and its quantity. */
  ghost predicate SnapshotLine(ids: UuidText, products: seq<ProductInfo>, input: ItemInput, line: OrderLine) {
    && ids.parse(input.productId) == Some(line.productId)
    && line.quantity == input.quantity && line.quantity >= 1
    && exists k: nat :: k < |products| && LastWith(products, line.productId, k) && products[k].active &&
                        line.name == products[k].name && line.unitPriceMinor == products[k].priceMinor
  }

  /** The upper-cased code of the product that counts for the input. */
  ghost predicate HasCurrency(ids: UuidText, products: seq<ProductInfo>, input: ItemInput, currency: string) {
    ids.parse(input.productId).Some? &&
    exists k: nat :: k < |products| && LastWith(products, ids.parse(input.productId).value, k) &&
                     currency == ToUpper(products[k].currency)
  }

  /** Success gives one snapshot line per input, in order and, over catalog products, all in one currency. */
  lemma SuccessMeaning(ids: UuidText, products: seq<ProductInfo>, inputs: seq<ItemInput>)
    requires Resolve(ids, products, inputs).Success?
    ensures var priced := Resolve(ids, products, inputs).value;
            && |priced.lines| == |inputs| > 0
            && (forall i :: 0 <= i < |inputs| ==> SnapshotLine(ids, products, inputs[i], priced.lines[i]))
            && (NamedCurrencies(products) ==>
                  forall i :: 0 <= i < |inputs| ==> HasCurrency(ids, products, inputs[i], priced.currency))
            && Congruent(priced.subtotal, Total(priced.lines))
  {
    ResolvedExact(ids, products, inputs);
    var priced := Resolve(ids, products, inputs).value;
    forall i | 0 <= i < |inputs|
      ensures SnapshotLine(ids, products, inputs[i], priced.lines[i])
    {
      OwnErrorMeaning(ids, products, inputs[i]);
      LookupIsLast(products, ids.parse(inputs[i].productId).value);
    }
    if NamedCurrencies(products) {
      NamedMeansOneCurrency(ids, products, inputs);
      forall i | 0 <= i < |inputs|
        ensures HasCurrency(ids, products, inputs[i], priced.currency)
      {
        assert CurrencyOf(ids, products, inputs[i]) == CurrencyOf(ids, products, inputs[|inputs| - 1]);
        CurrencyMeaning(ids, products, inputs[i], priced.currency);
      }
    }
  }

  /** An earlier input fixed a currency that input `i` does not have. */
  ghost predicate Clashes(ids: UuidText, products: seq<ProductInfo>, inputs: seq<ItemInput>, i: nat)
    requires i < |inputs|
  {
    exists j: nat, a: string, b: string ::
      j < i && HasCurrency(ids, products, inputs[j], a) && HasCurrency(ids, products, inputs[i], b) && a != "" && a != b
  }

  /** Input `i` cannot be accepted, with the error the code's checks give in their order. */
  ghost predicate Refused(
    ids: UuidText, products: seq<ProductInfo>, inputs: seq<ItemInput>, i: nat, error: PricingError)
    requires i < |inputs|
  {
    match Complaint(ids, products, inputs[i])
    case Some(e) => error == e
    case None => Clashes(ids, products, inputs, i) && error == CurrencyMixed
  }

  ghost predicate InOrder(ids: UuidText, products: seq<ProductInfo>, inputs: seq<ItemInput>, i: nat)
    requires i < |inputs|
  {
    Complaint(ids, products, inputs[i]).None? && !Clashes(ids, products, inputs, i)
  }

  lemma CurrencyMeaning(ids: UuidText, products: seq<ProductInfo>, input: ItemInput, currency: string)
    requires OwnError(ids, products, input).None?
    ensures HasCurrency(ids, products, input, currency) <==> currency == CurrencyOf(ids, products, input)
  {
    var id := ids.parse(input.productId).value;
    LookupIsLast(products, id);
    if HasCurrency(ids, products, input, currency) {
      var k: nat :| k < |products| && LastWith(products, id, k) && currency == ToUpper(products[k].currency);
      LastIsLookup(products, id, k);
    }
  }

  /** Whether the inputs up to `n` are accepted, read off them directly. */
  lemma AcceptedMeaning(ids: UuidText, products: seq<ProductInfo>, inputs: seq<ItemInput>, n: nat)
    requires n <= |inputs|
    ensures Resolved(ids, products, inputs[..n]).Success? <==>
            forall i: nat :: i < n ==> InOrder(ids, products, inputs, i)
  {
    var some := inputs[..n];
    ResolvedExact(ids, products, some);
    forall i | 0 <= i < n
      ensures OwnError(ids, products, some[i]) == Complaint(ids, products, inputs[i])
    {
      OwnErrorMeaning(ids, products, inputs[i]);
    }
    if EachValid(ids, products, some) {
      forall i: nat | i < n
        ensures Complaint(ids, products, inputs[i]).None?
      {
        assert OwnError(ids, products, some[i]).None?;
      }
      AgreementMeaning(ids, products, inputs, n);
      forall i: nat | i < n
        ensures InOrder(ids, products, inputs, i) <==> !Clashes(ids, products, inputs, i)
      {
      }
    } else {
      var i :| 0 <= i < n && OwnError(ids, products, some[i]).Some?;
      assert !InOrder(ids, products, inputs, i);
    }
  }

  lemma AgreementMeaning(ids: UuidText, products: seq<ProductInfo>, inputs: seq<ItemInput>, n: nat)
    requires n <= |inputs| && EachValid(ids, products, inputs[..n])
    ensures CurrenciesAgree(ids, products, inputs[..n]) <==>
            forall i: nat :: i < n ==> !Clashes(ids, products, inputs, i)
  {
    var some := inputs[..n];
    forall i: nat | i < n
      ensures OwnError(ids, products, inputs[i]).None?
    {
      assert some[i] == inputs[i];
    }
    if i: nat :| i < n && Clashes(ids, products, inputs, i) {
      var j: nat, a: string, b: string :|
        j < i && HasCurrency(ids, products, inputs[j], a) && HasCurrency(ids, products, inputs[i], b) &&
        a != "" && a != b;
      CurrencyMeaning(ids, products, inputs[j], a);
      CurrencyMeaning(ids, products, inputs[i], b);
      assert Conflicts(CurrencyOf(ids, products, some[j]), CurrencyOf(ids, products, some[i]));
    } else if !CurrenciesAgree(ids, products, some) {
      var j, i :| 0 <= j < i < n && Conflicts(CurrencyOf(ids, products, some[j]), CurrencyOf(ids, products, some[i]));
      var a, b := CurrencyOf(ids, products, some[j]), CurrencyOf(ids, products, some[i]);
      CurrencyMeaning(ids, products, inputs[j], a);
      CurrencyMeaning(ids, products, inputs[i], b);
      assert Clashes(ids, products, inputs, i);
    }
  }

  /** Input `i` is the first that cannot be accepted, and this is its error. */
  ghost predicate FirstRefused(
    ids: UuidText, products: seq<ProductInfo>, inputs: seq<ItemInput>, i: nat, error: PricingError)
    requires i < |inputs|
  {
    Refused(ids, products, inputs, i, error) && forall j: nat :: j < i ==> InOrder(ids, products, inputs, j)
  }

  /**
   * Pricing fails exactly with the error of the first input that cannot be accepted, the conditions read
   * off the inputs and the answer: a bad id, no active product, a quantity below one, or a currency other
   * than an earlier line's - checked in this order.
   */
  lemma FailureMeaning(ids: UuidText, products: seq<ProductInfo>, inputs: seq<ItemInput>, error: PricingError)
    ensures Resolve(ids, products, inputs) == Failure(error) <==>
            (inputs == [] && error == NoItems) ||
            exists i: nat :: i < |inputs| && FirstRefused(ids, products, inputs, i, error)
  {
    if inputs != [] {
      if Resolve(ids, products, inputs) == Failure(error) {
        FailureIsRefusal(ids, products, inputs);
      }
      if i: nat :| i < |inputs| && FirstRefused(ids, products, inputs, i, error) {
        RefusalIsFailure(ids, products, inputs, i, error);
      }
    }
  }

  lemma StopIsRefusal(ids: UuidText, products: seq<ProductInfo>, inputs: seq<ItemInput>, i: nat, error: PricingError)
    requires i < |inputs| && StopsAt(ids, products, inputs, i, error)
    ensures FirstRefused(ids, products, inputs, i, error)
  {
    AcceptedMeaning(ids, products, inputs, i);
    AcceptedMeaning(ids, products, inputs, i + 1);
    OwnErrorMeaning(ids, products, inputs[i]);
    assert !InOrder(ids, products, inputs, i);
  }

  lemma FailureIsRefusal(ids: UuidText, products: seq<ProductInfo>, inputs: seq<ItemInput>)
    requires Resolved(ids, products, inputs).Failure?
    ensures exists i: nat :: i < |inputs| &&
                             FirstRefused(ids, products, inputs, i, Resolved(ids, products, inputs).error)
  {
    ResolvedFirstError(ids, products, inputs);
    var i: nat :| StopsAt(ids, products, inputs, i, Resolved(ids, products, inputs).error);
    StopIsRefusal(ids, products, inputs, i, Resolved(ids, products, inputs).error);
  }

  lemma RefusalIsFailure(ids: UuidText, products: seq<ProductInfo>, inputs: seq<ItemInput>, i: nat, error: PricingError)
    requires i < |inputs| && FirstRefused(ids, products, inputs, i, error)
    ensures Resolved(ids, products, inputs) == Failure(error)
  {
    AcceptedMeaning(ids, products, inputs, |inputs|);
    assert inputs[..|inputs|] == inputs && !InOrder(ids, products, inputs, i);
    FailureIsRefusal(ids, products, inputs);
    var k: nat :| k < |inputs| && FirstRefused(ids, products, inputs, k, Resolved(ids, products, inputs).error);
    assert !InOrder(ids, products, inputs, k);
    assert k == i;
  }

  lemma {:induction false} TotalCovers(lines: seq<OrderLine>, i: nat)
    requires i < |lines|
    requires forall k :: 0 <= k < |lines| ==> lines[k].unitPriceMinor >= 0 && lines[k].quantity >= 1
    ensures Total(lines) >= lines[i].unitPriceMinor * lines[i].quantity >= lines[i].unitPriceMinor
    ensures Total(lines) >= 0
  {
    var last := |lines| - 1;
    AtLeastOnce(lines[last].unitPriceMinor, lines[last].quantity);
    AtLeastOnce(lines[i].unitPriceMinor, lines[i].quantity);
    if last > 0 {
      TotalCovers(lines[..last], if i < last then i else 0);
    }
  }

  lemma AtLeastOnce(price: nat, quantity: nat)
    requires quantity >= 1
    ensures price * quantity >= price
  {
  }

  /** With prices that are not negative and a sum that fits, no line costs more than the subtotal. */
  lemma SubtotalCoversLines(ids: UuidText, products: seq<ProductInfo>, inputs: seq<ItemInput>, i: nat)
    requires Resolve(ids, products, inputs).Success? && i < |inputs|
    requires forall k :: 0 <= k < |products| ==> products[k].priceMinor >= 0
    requires FitsInt64(Total(Resolve(ids, products, inputs).value.lines))
    ensures var priced := Resolve(ids, products, inputs).value;
            && i < |priced.lines|
            && priced.subtotal >= priced.lines[i].unitPriceMinor * inputs[i].quantity >= priced.lines[i].unitPriceMinor
  {
    SuccessMeaning(ids, products, inputs);
    SubtotalExact(ids, products, inputs);
    var lines := Resolve(ids, products, inputs).value.lines;
    forall k | 0 <= k < |lines|
      ensures lines[k].unitPriceMinor >= 0 && lines[k].quantity >= 1
    {
      assert SnapshotLine(ids, products, inputs[k], lines[k]);
    }
    TotalCovers(lines, i);
    assert SnapshotLine(ids, products, inputs[i], lines[i]);
  }

  // ---------- splitting a line ----------

  /** The same outcome up to the lines. */
  predicate Alike(a: Result<Priced, PricingError>, b: Result<Priced, PricingError>) {
    match (a, b)
    case (Success(x), Success(y)) => x.subtotal == y.subtotal && x.currency == y.currency
    case (Failure(e), Failure(f)) => e == f
    case _ => false
  }

  lemma {:induction false} AlikeExtends(
    ids: UuidText, products: seq<ProductInfo>, a: seq<ItemInput>, b: seq<ItemInput>, after: seq<ItemInput>)
    requires Alike(Resolved(ids, products, a), Resolved(ids, products, b))
    ensures Alike(Resolved(ids, products, a + after), Resolved(ids, products, b + after))
  {
    if after == [] {
      assert a + after == a && b + after == b;
    } else {
      var last := |after| - 1;
      AlikeExtends(ids, products, a, b, after[..last]);
      ResolvedSnoc(ids, products, a + after[..last], after[last]);
      ResolvedSnoc(ids, products, b + after[..last], after[last]);
      assert a + after == a + after[..last] + [after[last]];
      assert b + after == b + after[..last] + [after[last]];
    }
  }

  lemma ResolvedSnoc(ids: UuidText, products: seq<ProductInfo>, inputs: seq<ItemInput>, input: ItemInput)
    ensures Resolved(ids, products, inputs + [input]) ==
            match Resolved(ids, products, inputs)
            case Failure(e) => Failure(e)
            case Success(priced) =>
              if OwnError(ids, products, input).Some? then Failure(OwnError(ids, products, input).value)
              else if Conflicts(priced.currency, CurrencyOf(ids, products, input)) then Failure(CurrencyMixed)
              else
                var line := SnapshotOf(ids, products, input);
                Success(Priced(priced.lines + [line],
                               Wrap(priced.subtotal + line.unitPriceMinor * line.quantity),
                               CurrencyOf(ids, products, input)))
  {
    assert (inputs + [input])[..|inputs|] == inputs;
  }

  /** Ordering q1 + q2 of a product costs what ordering q1 and then q2 of it costs, to the bit. */
  lemma SplitLine(
    ids: UuidText, products: seq<ProductInfo>, before: seq<ItemInput>, productId: string,
    q1: Int32, q2: Int32, after: seq<ItemInput>)
    requires q1 >= 1 && q2 >= 1 && FitsInt32(q1 + q2)
    ensures Alike(Resolve(ids, products, before + [ItemInput(productId, q1 + q2)] + after),
                  Resolve(ids, products, before + [ItemInput(productId, q1), ItemInput(productId, q2)] + after))
  {
    var w, x, y := ItemInput(productId, q1 + q2), ItemInput(productId, q1), ItemInput(productId, q2);
    SplitStep(ids, products, before, productId, q1, q2);
    AlikeExtends(ids, products, before + [w], before + [x, y], after);
  }

  lemma SplitStep(
    ids: UuidText, products: seq<ProductInfo>, before: seq<ItemInput>, productId: string, q1: Int32, q2: Int32)
    requires q1 >= 1 && q2 >= 1 && FitsInt32(q1 + q2)
    ensures Alike(Resolved(ids, products, before + [ItemInput(productId, q1 + q2)]),
                  Resolved(ids, products, before + [ItemInput(productId, q1), ItemInput(productId, q2)]))
  {
    var w, x, y := ItemInput(productId, q1 + q2), ItemInput(productId, q1), ItemInput(productId, q2);
    assert before + [x] + [y] == before + [x, y];
    ResolvedSnoc(ids, products, before, w);
    ResolvedSnoc(ids, products, before, x);
    ResolvedSnoc(ids, products, before + [x], y);
    SameButQuantity(ids, products, productId, q1 + q2, q1);
    SameButQuantity(ids, products, productId, q1 + q2, q2);
    match Resolved(ids, products, before)
    case Failure(_) =>
    case Success(known) =>
      if OwnError(ids, products, w).None? {
        SplitSum(known.subtotal, SnapshotOf(ids, products, w), SnapshotOf(ids, products, x),
                 SnapshotOf(ids, products, y));
      }
  }

  lemma SameButQuantity(ids: UuidText, products: seq<ProductInfo>, productId: string, q: Int32, r: Int32)
    requires q >= 1 && r >= 1
    ensures var x, y := ItemInput(productId, q), ItemInput(productId, r);
            && OwnError(ids, products, x) == OwnError(ids, products, y)
            && (OwnError(ids, products, x).None? ==>
                  && CurrencyOf(ids, products, x) == CurrencyOf(ids, products, y)
                  && SnapshotOf(ids, products, y) == SnapshotOf(ids, products, x).(quantity := r)
                  && SnapshotOf(ids, products, x).quantity == q)
  {
  }

  lemma SplitSum(subtotal: Int64, whole: OrderLine, first: OrderLine, second: OrderLine)
    requires first.unitPriceMinor == second.unitPriceMinor == whole.unitPriceMinor
    requires whole.quantity == first.quantity + second.quantity
    ensures Wrap(Wrap(subtotal + first.unitPriceMinor * first.quantity) + second.unitPriceMinor * second.quantity) ==
            Wrap(subtotal + whole.unitPriceMinor * whole.quantity)
  {
    var price := whole.unitPriceMinor;
    Distribute(price, first.quantity, second.quantity);
    WrapAdd(subtotal + price * first.quantity, price * second.quantity);
  }

  lemma Distribute(price: int, a: int, b: int)
    ensures price * (a + b) == price * a + price * b
  {
  }
}
