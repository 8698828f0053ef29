// The payments table: services/payments/internal/db/repo.go and model.go.
module PaymentStore {
  import opened Common
  import opened Machine

  datatype PaymentStatus = Pending | Succeeded | Failed

  /** A row; the two Stripe ids are nullable and each carries a unique index. */
  datatype Payment = Payment(
    id: Uuid, orderId: string, status: PaymentStatus,
    stripeSessionId: Option<string>, stripePaymentId: Option<string>, checkoutUrl: string,
    email: string, amount: Int64, currency: string, paidAt: Option<Time>)

  type Payments = map<Uuid, Payment>

  datatype SuccessInput = SuccessInput(
    stripeEventId: string, stripeSessionId: string, stripePaymentId: string,
    orderId: string, email: string, amount: Int64, currency: string, paidAt: Time)

  datatype SuccessResult = SuccessResult(
    paymentId: Uuid, orderId: string, stripePaymentId: string, email: string, amount: Int64, currency: string,
    alreadySucceeded: bool)

  datatype DbError = UniqueViolation | Unavailable

  // ---------- the merge rule ----------

  function NullIfEmpty(s: string): Option<string> {
    if s == "" then None else Some(s)
  }

  /** SQL equality: NULL matches nothing. */
  predicate SqlEquals(a: Option<string>, b: Option<string>) {
    a.Some? && a == b
  }

  predicate Matches(row: Payment, input: SuccessInput) {
    SqlEquals(row.stripePaymentId, NullIfEmpty(input.stripePaymentId)) ||
    SqlEquals(row.stripeSessionId, NullIfEmpty(input.stripeSessionId))
  }

  function Matching(rows: Payments, input: SuccessInput): set<Uuid> {
    set k | k in rows && Matches(rows[k], input)
  }

  /** The row First picks: the lowest primary key among the matches. */
  ghost function Select(rows: Payments, input: SuccessInput): Option<Uuid> {
    if Matching(rows, input) == {} then None else Some(Least(Matching(rows, input)))
  }

  /** The row built when nothing matched. It is already marked succeeded. */
  function Inserted(id: Uuid, input: SuccessInput): Payment {
    Payment(id, "", Succeeded, NullIfEmpty(input.stripeSessionId), NullIfEmpty(input.stripePaymentId),
            "", "", 0, "", None)
  }

  ghost function Loaded(rows: Payments, input: SuccessInput, newId: Uuid): Payment {
    match Select(rows, input)
    case Some(k) => rows[k]
    case None => Inserted(newId, input)
  }

  function Keep(current: string, given: string): string {
    if current == "" then given else current
  }

  /** Fields are filled only where they are still empty. */
  function Filled(row: Payment, input: SuccessInput): Payment {
    row.(orderId := Keep(row.orderId, input.orderId),
         email := Keep(row.email, input.email),
         amount := if row.amount == 0 then input.amount else row.amount,
         currency := Keep(row.currency, input.currency),
         status := Succeeded,
         stripePaymentId := if row.stripePaymentId.None? then NullIfEmpty(input.stripePaymentId)
                            else row.stripePaymentId,
         stripeSessionId := if row.stripeSessionId.None? then NullIfEmpty(input.stripeSessionId)
                            else row.stripeSessionId,
         paidAt := if row.paidAt.None? then Some(input.paidAt) else row.paidAt)
  }

  function ResultOf(row: Payment, input: SuccessInput, already: bool): SuccessResult {
    SuccessResult(row.id, row.orderId, input.stripePaymentId, row.email, row.amount, row.currency, already)
  }

  /** Two rows may not share a Stripe id. */
  predicate Clash(a: Payment, b: Payment) {
    SqlEquals(a.stripePaymentId, b.stripePaymentId) || SqlEquals(a.stripeSessionId, b.stripeSessionId)
  }

  /** The unique indexes let the row be written under its primary key. */
  predicate MaySave(rows: Payments, row: Payment) {
    forall k :: k in rows && k != row.id ==> !Clash(rows[k], row)
  }

  /** UpsertSucceeded as one atomic step with a working database. */
  ghost function Upsert(rows: Payments, input: SuccessInput, newId: Uuid): (Payments, Result<SuccessResult, DbError>) {
    var row := Loaded(rows, input, newId);
    var filled := Filled(row, input);
    if MaySave(rows, filled) then
      (rows[filled.id := filled], Success(ResultOf(filled, input, row.status == Succeeded)))
    else (rows, Failure(UniqueViolation))
  }

  // ---------- what every write keeps ----------

  /** Rows sit under their id, ids below `next` have been handed out, and the unique indexes hold. */
  ghost predicate WellFormed(rows: Payments, next: Uuid) {
    && (forall k :: k in rows ==> rows[k].id == k && k < next)
    && (forall k :: k in rows ==> MaySave(rows, rows[k]))
  }

  /** Nothing that was set is ever changed: status once succeeded, and every other field once non-empty. */
  ghost predicate Grows(before: Payment, after: Payment) {
    && after.id == before.id
    && (before.status == Succeeded ==> after.status == Succeeded)
    && (before.orderId != "" ==> after.orderId == before.orderId)
    && (before.email != "" ==> after.email == before.email)
    && (before.amount != 0 ==> after.amount == before.amount)
    && (before.currency != "" ==> after.currency == before.currency)
    && (before.stripeSessionId.Some? ==> after.stripeSessionId == before.stripeSessionId)
    && (before.stripePaymentId.Some? ==> after.stripePaymentId == before.stripePaymentId)
    && (before.paidAt.Some? ==> after.paidAt == before.paidAt)
  }

  ghost predicate RowsGrow(before: Payments, after: Payments) {
    forall k :: k in before && k in after ==> Grows(before[k], after[k])
  }

  lemma SaveKeepsWellFormed(rows: Payments, next: Uuid, row: Payment)
    requires WellFormed(rows, next) && MaySave(rows, row) && row.id < next
    ensures WellFormed(rows[row.id := row], next)
  {
    var after := rows[row.id := row];
    forall k | k in after
      ensures MaySave(after, after[k])
    {
      if k != row.id {
        assert MaySave(rows, rows[k]) && !Clash(rows[k], row);
      }
    }
  }

  lemma SelectSound(rows: Payments, input: SuccessInput)
    ensures Select(rows, input).Some? ==>
              Select(rows, input).value in rows && Matches(rows[Select(rows, input).value], input)
    ensures Select(rows, input).None? ==> forall k :: k in rows ==> !Matches(rows[k], input)
  {
    if Matching(rows, input) == {} {
      forall k | k in rows
        ensures !Matches(rows[k], input)
      {
        assert k !in Matching(rows, input);
      }
    } else {
      assert Select(rows, input).value in Matching(rows, input);
    }
  }

  /** A row that alone matches is the one selected. */
  lemma SelectOnly(rows: Payments, input: SuccessInput, k: Uuid)
    requires k in rows && Matches(rows[k], input)
    requires forall j :: j in rows && Matches(rows[j], input) ==> k <= j
    ensures Select(rows, input) == Some(k)
  {
    assert k in Matching(rows, input);
    assert Least(Matching(rows, input)) in Matching(rows, input);
  }

  lemma UpsertKeeps(rows: Payments, next: Uuid, input: SuccessInput, newId: Uuid)
    requires WellFormed(rows, next) && newId >= next
    ensures var (after, _) := Upsert(rows, input, newId);
            && WellFormed(after, newId + 1)
            && RowsGrow(rows, after)
            && rows.Keys <= after.Keys
  {
    SelectSound(rows, input);
    var filled := Filled(Loaded(rows, input, newId), input);
    if MaySave(rows, filled) {
      assert WellFormed(rows, newId + 1);
      SaveKeepsWellFormed(rows, newId + 1, filled);
    }
  }

  // ---------- what a merge selects, inserts and fills ----------

  /** The row shares a non-empty Stripe id with the event. */
  predicate SharesId(row: Payment, input: SuccessInput) {
    || (input.stripePaymentId != "" && row.stripePaymentId == Some(input.stripePaymentId))
    || (input.stripeSessionId != "" && row.stripeSessionId == Some(input.stripeSessionId))
  }

  /** Selected is the lowest of the rows that share a non-empty Stripe id with the event. */
  lemma SelectMeaning(rows: Payments, input: SuccessInput, k: Uuid)
    ensures Select(rows, input) == Some(k) <==>
            k in rows && SharesId(rows[k], input) && forall j :: j in rows && SharesId(rows[j], input) ==> k <= j
    ensures Select(rows, input).None? <==> forall j :: j in rows ==> !SharesId(rows[j], input)
  {
    forall j | j in rows
      ensures SharesId(rows[j], input) <==> j in Matching(rows, input)
    {
    }
    SelectSound(rows, input);
    if k in rows && SharesId(rows[k], input) && forall j :: j in rows && SharesId(rows[j], input) ==> k <= j {
      SelectOnly(rows, input, k);
    }
  }

  /** An event that shares no id with any row is always accepted, and what is inserted is what it carries. */
  lemma InsertTakesInput(rows: Payments, next: Uuid, input: SuccessInput, newId: Uuid)
    requires WellFormed(rows, next) && newId >= next
    requires forall j :: j in rows ==> !SharesId(rows[j], input)
    ensures var (after, r) := Upsert(rows, input, newId);
            && r.Success? && newId in after && after == rows[newId := after[newId]]
            && var row, result := after[newId], r.value;
            && row.id == newId && row.status == Succeeded && row.checkoutUrl == ""
            && row.orderId == input.orderId && row.email == input.email
            && row.amount == input.amount && row.currency == input.currency
            && row.stripePaymentId == (if input.stripePaymentId == "" then None else Some(input.stripePaymentId))
            && row.stripeSessionId == (if input.stripeSessionId == "" then None else Some(input.stripeSessionId))
            && row.paidAt == Some(input.paidAt)
            && result.paymentId == newId && result.stripePaymentId == input.stripePaymentId
            && result.orderId == input.orderId && result.email == input.email
            && result.amount == input.amount && result.currency == input.currency
  {
    SelectMeaning(rows, input, newId);
    SelectSound(rows, input);
    assert MaySave(rows, Filled(Inserted(newId, input), input));
  }

  /** `after` is `before` with its empty fields taken from the event and nothing else touched. */
  predicate FilledFrom(before: Payment, after: Payment, input: SuccessInput) {
    && after.id == before.id && after.checkoutUrl == before.checkoutUrl && after.status == Succeeded
    && after.orderId == (if before.orderId == "" then input.orderId else before.orderId)
    && after.email == (if before.email == "" then input.email else before.email)
    && after.amount == (if before.amount == 0 then input.amount else before.amount)
    && after.currency == (if before.currency == "" then input.currency else before.currency)
    && (before.stripePaymentId.Some? ==> after.stripePaymentId == before.stripePaymentId)
    && (before.stripePaymentId.None? ==>
          after.stripePaymentId == if input.stripePaymentId == "" then None else Some(input.stripePaymentId))
    && (before.stripeSessionId.Some? ==> after.stripeSessionId == before.stripeSessionId)
    && (before.stripeSessionId.None? ==>
          after.stripeSessionId == if input.stripeSessionId == "" then None else Some(input.stripeSessionId))
    && after.paidAt == (if before.paidAt.Some? then before.paidAt else Some(input.paidAt))
  }

  /** An accepted event that shares an id fills the lowest such row and reports what the row then holds. */
  lemma MatchFillsRow(rows: Payments, next: Uuid, input: SuccessInput, newId: Uuid, k: Uuid)
    requires WellFormed(rows, next) && k in rows && SharesId(rows[k], input)
    requires forall j :: j in rows && SharesId(rows[j], input) ==> k <= j
    requires Upsert(rows, input, newId).1.Success?
    ensures var (after, r) := Upsert(rows, input, newId);
            && k in after && after == rows[k := after[k]] && FilledFrom(rows[k], after[k], input)
            && r.value.paymentId == k && r.value.stripePaymentId == input.stripePaymentId
            && r.value.orderId == after[k].orderId && r.value.email == after[k].email
            && r.value.amount == after[k].amount && r.value.currency == after[k].currency
  {
    SelectMeaning(rows, input, k);
  }

  /** Accepted is exactly what leaves no Stripe id on two rows. */
  lemma AcceptedExactly(rows: Payments, next: Uuid, input: SuccessInput, newId: Uuid, k: Uuid, row: Payment)
    requires WellFormed(rows, next) && k in rows && SharesId(rows[k], input)
    requires forall j :: j in rows && SharesId(rows[j], input) ==> k <= j
    requires FilledFrom(rows[k], row, input)
    ensures Upsert(rows, input, newId).1.Success? <==>
            forall j :: j in rows && j != k ==>
                          && (row.stripePaymentId.Some? ==> rows[j].stripePaymentId != row.stripePaymentId)
                          && (row.stripeSessionId.Some? ==> rows[j].stripeSessionId != row.stripeSessionId)
  {
    SelectMeaning(rows, input, k);
    assert Filled(rows[k], input) == row;
  }

  // ---------- redelivery ----------

  predicate Identified(input: SuccessInput) {
    input.stripePaymentId != "" || input.stripeSessionId != ""
  }

  /** The same input again finds the row it wrote, in spite of the OR and of the lowest-id rule. */
  lemma SelectAgain(rows: Payments, next: Uuid, input: SuccessInput, newId: Uuid)
    requires WellFormed(rows, next) && newId >= next && Identified(input)
    requires Upsert(rows, input, newId).1.Success?
    ensures var (after, result) := Upsert(rows, input, newId);
            Select(after, input) == Some(result.value.paymentId)
  {
    SelectSound(rows, input);
    var row := Loaded(rows, input, newId);
    var filled := Filled(row, input);
    var after := rows[filled.id := filled];
    assert Matches(filled, input);
    forall j | j in after && Matches(after[j], input)
      ensures filled.id <= j
    {
      if j != filled.id {
        assert j in Matching(rows, input);
      }
    }
    SelectOnly(after, input, filled.id);
  }

  /**
   * An accepted event delivered again changes nothing and reports the same result, now as already
   * succeeded - exactly when it carries a Stripe id at all. Without one, every delivery inserts a row.
   */
  lemma RedeliveryIsNoOp(rows: Payments, next: Uuid, input: SuccessInput, newId: Uuid, later: Uuid)
    requires WellFormed(rows, next) && next <= newId < later
    requires Upsert(rows, input, newId).1.Success?
    ensures var (after, result) := Upsert(rows, input, newId);
            var (again, repeated) := Upsert(after, input, later);
            && (again == after <==> Identified(input))
            && (Identified(input) ==> repeated == Success(result.value.(alreadySucceeded := true)))
            && (!Identified(input) ==> later in again && later !in after)
  {
    var (after, result) := Upsert(rows, input, newId);
    UpsertKeeps(rows, next, input, newId);
    SelectSound(rows, input);
    SelectSound(after, input);
    var filled := Filled(Loaded(rows, input, newId), input);
    if Identified(input) {
      SelectAgain(rows, next, input, newId);
      assert Loaded(after, input, later) == filled;
      assert Filled(filled, input) == filled;
      assert MaySave(after, filled);
      assert after[filled.id := filled] == after;
    } else {
      var (again, repeated) := Upsert(after, input, later);
      var row := Filled(Inserted(later, input), input);
      assert Loaded(after, input, later) == Inserted(later, input);
      assert MaySave(after, row);
      assert again == after[later := row];
      assert later !in after;
    }
  }

  /** `alreadySucceeded` says that the selected row was succeeded or that there was none to select. */
  lemma AlreadySucceededMeaning(rows: Payments, input: SuccessInput, newId: Uuid)
    requires Upsert(rows, input, newId).1.Success?
    ensures Upsert(rows, input, newId).1.value.alreadySucceeded <==>
            (Select(rows, input).None? || rows[Select(rows, input).value].status == Succeeded)
  {
    SelectSound(rows, input);
  }

  // ---------- runs of atomic operations ----------

  datatype Op =
    | Create(row: Payment)
    | Succeed(input: SuccessInput, newId: Uuid)
    | Remove(id: Uuid)
    | Lost // any operation whose database call failed

  datatype Store = Store(rows: Payments, next: Uuid)

  ghost predicate Sound(s: Store) {
    WellFormed(s.rows, s.next)
  }

  /** One operation; an id that is not fresh disables it. */
  ghost function Apply(s: Store, op: Op): Store {
    match op
    case Create(row) =>
      if row.id >= s.next && MaySave(s.rows, row) then Store(s.rows[row.id := row], row.id + 1) else s
    case Succeed(input, newId) =>
      if newId >= s.next then Store(Upsert(s.rows, input, newId).0, newId + 1) else s
    case Remove(id) => s.(rows := s.rows - {id})
    case Lost => s
  }

  ghost function Run(s: Store, ops: seq<Op>): Store {
    if ops == [] then s else Apply(Run(s, ops[..|ops| - 1]), ops[|ops| - 1])
  }

  lemma ApplyKeeps(s: Store, op: Op)
    requires Sound(s)
    ensures Sound(Apply(s, op)) && s.next <= Apply(s, op).next
    ensures RowsGrow(s.rows, Apply(s, op).rows)
    ensures forall k :: k < s.next && k !in s.rows ==> k !in Apply(s, op).rows
    ensures !op.Remove? ==> s.rows.Keys <= Apply(s, op).rows.Keys
  {
    match op
    case Create(row) =>
      if row.id >= s.next && MaySave(s.rows, row) {
        assert WellFormed(s.rows, row.id + 1);
        SaveKeepsWellFormed(s.rows, row.id + 1, row);
      }
    case Succeed(input, newId) =>
      if newId >= s.next {
        UpsertKeeps(s.rows, s.next, input, newId);
        SelectSound(s.rows, input);
      }
    case Remove(id) =>
      var after := s.rows - {id};
      forall k | k in after
        ensures MaySave(after, after[k])
      {
        assert MaySave(s.rows, s.rows[k]);
      }
    case Lost =>
  }

  /**
   * Over every run, deletions included, the unique indexes hold, a row that survives only ever grows,
   * and the id of a removed row never comes back.
   */
  lemma {:induction false} RunKeeps(s: Store, ops: seq<Op>)
    requires Sound(s)
    ensures Sound(Run(s, ops)) && s.next <= Run(s, ops).next
    ensures RowsGrow(s.rows, Run(s, ops).rows)
    ensures forall k :: k < s.next && k !in s.rows ==> k !in Run(s, ops).rows
    ensures (forall i :: 0 <= i < |ops| ==> !ops[i].Remove?) ==> s.rows.Keys <= Run(s, ops).rows.Keys
  {
    if ops != [] {
      var before := Run(s, ops[..|ops| - 1]);
      RunKeeps(s, ops[..|ops| - 1]);
      ApplyKeeps(before, ops[|ops| - 1]);
      forall k | k in s.rows && k in Run(s, ops).rows
        ensures Grows(s.rows[k], Run(s, ops).rows[k])
      {
        assert k in before.rows;
        assert Grows(s.rows[k], before.rows[k]);
      }
    }
  }

  // ---------- one row per payment ----------

  /** The event is about the payment with this session and intent. */
  predicate About(input: SuccessInput, session: string, intent: string) {
    input.stripeSessionId == session || input.stripePaymentId == intent
  }

  /** Stripe pairs a session with one intent: an event naming either never names a different partner. */
  predicate Paired(op: Op, session: string, intent: string) {
    op.Succeed? && About(op.input, session, intent) ==>
      op.input.stripeSessionId in ["", session] && op.input.stripePaymentId in ["", intent]
  }

  /** Row `k` carries both Stripe ids of the payment. */
  ghost predicate Bound(s: Store, k: Uuid, session: string, intent: string) {
    && k in s.rows
    && s.rows[k].stripeSessionId == Some(session)
    && s.rows[k].stripePaymentId == Some(intent)
  }

  /** An event about a bound payment is accepted, lands on its row and inserts nothing. */
  lemma BoundStep(s: Store, k: Uuid, session: string, intent: string, input: SuccessInput, newId: Uuid)
    requires Sound(s) && session != "" && intent != "" && Bound(s, k, session, intent)
    requires About(input, session, intent) && Paired(Succeed(input, newId), session, intent)
    ensures Select(s.rows, input) == Some(k)
    ensures Upsert(s.rows, input, newId).1.Success?
    ensures Upsert(s.rows, input, newId).1.value.paymentId == k
    ensures Upsert(s.rows, input, newId).0.Keys == s.rows.Keys
    ensures forall j :: j in s.rows && j != k ==> Upsert(s.rows, input, newId).0[j] == s.rows[j]
  {
    assert MaySave(s.rows, s.rows[k]);
    forall j | j in s.rows && j != k
      ensures !Matches(s.rows[j], input)
    {
      assert !Clash(s.rows[j], s.rows[k]);
    }
    SelectOnly(s.rows, input, k);
    var filled := Filled(s.rows[k], input);
    assert MaySave(s.rows, filled);
  }

  /** The session event that binds both ids to the stored pending row. */
  lemma SessionEventBinds(s: Store, k: Uuid, input: SuccessInput, newId: Uuid)
    requires Sound(s) && newId >= s.next
    requires input.stripeSessionId != "" && input.stripePaymentId != ""
    requires k in s.rows && s.rows[k].stripeSessionId == Some(input.stripeSessionId) && s.rows[k].stripePaymentId.None?
    // no row ties the intent to another session
    requires forall j :: j in s.rows && s.rows[j].stripePaymentId == Some(input.stripePaymentId) ==>
                           s.rows[j].stripeSessionId in [None, Some(input.stripeSessionId)]
    // accepted exactly when no intent event was handled before, that is when no row holds the intent yet
    ensures Upsert(s.rows, input, newId).1.Success? <==>
            forall j :: j in s.rows ==> s.rows[j].stripePaymentId != Some(input.stripePaymentId)
    ensures Upsert(s.rows, input, newId).1.Success? ==>
              && Upsert(s.rows, input, newId).1.value.paymentId == k
              && Bound(Apply(s, Succeed(input, newId)), k, input.stripeSessionId, input.stripePaymentId)
              && Apply(s, Succeed(input, newId)).rows.Keys == s.rows.Keys
  {
    var rows := s.rows;
    SelectSound(rows, input);
    assert k in Matching(rows, input);
    var sel := Select(rows, input).value;
    var filled := Filled(rows[sel], input);
    if forall j :: j in rows ==> rows[j].stripePaymentId != Some(input.stripePaymentId) {
      forall j | j in rows && j != k
        ensures !Matches(rows[j], input)
      {
        assert MaySave(rows, rows[k]);
        assert !Clash(rows[j], rows[k]);
      }
      assert sel == k;
      forall j | j in rows && j != k
        ensures !Clash(rows[j], filled)
      {
        assert MaySave(rows, rows[k]) && !Clash(rows[j], rows[k]);
      }
      assert MaySave(rows, filled);
    } else {
      var j :| j in rows && rows[j].stripePaymentId == Some(input.stripePaymentId);
      assert j != k && j in Matching(rows, input);
      assert !Clash(rows[j], rows[k]) by { assert MaySave(rows, rows[k]); }
      assert s.rows[j].stripeSessionId.None?;
      if sel == k {
        assert Clash(rows[j], filled);
      } else {
        assert rows[sel].stripePaymentId == Some(input.stripePaymentId) by {
          assert MaySave(rows, rows[k]) && Matches(rows[sel], input);
          assert !Clash(rows[sel], rows[k]);
        }
        assert Clash(rows[k], filled);
      }
    }
  }

  /** Operation `op` in state `s`: an event that selects row `k`, is accepted there and inserts nothing. */
  ghost predicate LandsOn(s: Store, op: Op, k: Uuid)
    requires op.Succeed?
  {
    && Select(s.rows, op.input) == Some(k)
    && Upsert(s.rows, op.input, op.newId).1.Success?
    && Upsert(s.rows, op.input, op.newId).1.value.paymentId == k
    && Apply(s, op).rows.Keys == s.rows.Keys
  }

  /**
   * Once a payment's row is bound to both Stripe ids, every later event about it, of either kind and
   * interleaved with any other payments, lands on that row.
   */
  lemma OneRowPerPayment(s: Store, k: Uuid, session: string, intent: string, ops: seq<Op>)
    requires Sound(s) && session != "" && intent != "" && Bound(s, k, session, intent)
    requires forall i :: 0 <= i < |ops| ==> !ops[i].Remove? && Paired(ops[i], session, intent)
    ensures Bound(Run(s, ops), k, session, intent)
    ensures forall i :: 0 <= i < |ops| && ops[i].Succeed? && About(ops[i].input, session, intent) ==>
                          LandsOn(Run(s, ops[..i]), ops[i], k)
  {
    RunKeeps(s, ops);
    assert Grows(s.rows[k], Run(s, ops).rows[k]);
    forall i | 0 <= i < |ops| && ops[i].Succeed? && About(ops[i].input, session, intent)
      ensures LandsOn(Run(s, ops[..i]), ops[i], k)
    {
      var t := Run(s, ops[..i]);
      RunKeeps(s, ops[..i]);
      assert Grows(s.rows[k], t.rows[k]);
      BoundStep(t, k, session, intent, ops[i].input, ops[i].newId);
    }
  }

  /**
   * So for a stored pending payment: if its session event is accepted - which it is exactly when no intent
   * event came before - that event and every later one about the payment land on the pending row.
   */
  lemma OneRowFromPending(s: Store, k: Uuid, first: SuccessInput, newId: Uuid, ops: seq<Op>)
    requires Sound(s) && newId >= s.next && first.stripeSessionId != "" && first.stripePaymentId != ""
    requires k in s.rows && s.rows[k].stripeSessionId == Some(first.stripeSessionId) && s.rows[k].stripePaymentId.None?
    requires forall j :: j in s.rows ==> s.rows[j].stripePaymentId != Some(first.stripePaymentId)
    requires forall i :: 0 <= i < |ops| ==>
                           !ops[i].Remove? && Paired(ops[i], first.stripeSessionId, first.stripePaymentId)
    ensures LandsOn(s, Succeed(first, newId), k)
    ensures var t := Apply(s, Succeed(first, newId));
            forall i :: 0 <= i < |ops| && ops[i].Succeed? &&
                        About(ops[i].input, first.stripeSessionId, first.stripePaymentId) ==>
                          LandsOn(Run(t, ops[..i]), ops[i], k)
  {
    SessionEventBinds(s, k, first, newId);
    SelectAgain(s.rows, s.next, first, newId);
    ApplyKeeps(s, Succeed(first, newId));
    SelectSound(s.rows, first);
    OneRowPerPayment(Apply(s, Succeed(first, newId)), k, first.stripeSessionId, first.stripePaymentId, ops);
  }

  // ---------- events in the other order ----------

  /** Stripe's events about one payment: the session event carries both ids, the intent event its own only. */
  predicate StripeOrder(op: Op, session: string, intent: string) {
    op.Succeed? && About(op.input, session, intent) ==>
      op.input.stripePaymentId == intent && op.input.stripeSessionId in ["", session]
  }

  /** The payment is split: row `k0` has the session alone, row `k1` the intent alone. */
  ghost predicate SplitRows(s: Store, k0: Uuid, k1: Uuid, session: string, intent: string) {
    && k0 in s.rows && s.rows[k0].stripeSessionId == Some(session) && s.rows[k0].stripePaymentId.None?
    && k1 in s.rows && s.rows[k1].stripePaymentId == Some(intent) && s.rows[k1].stripeSessionId.None?
  }

  lemma SplitSelects(s: Store, k0: Uuid, k1: Uuid, session: string, intent: string, input: SuccessInput)
    requires Sound(s) && session != "" && intent != "" && SplitRows(s, k0, k1, session, intent)
    requires input.stripePaymentId == intent && input.stripeSessionId in ["", session]
    ensures Select(s.rows, input).Some?
    ensures Select(s.rows, input).value == k1 || (Select(s.rows, input).value == k0 && input.stripeSessionId == session)
  {
    SelectSound(s.rows, input);
    assert Matches(s.rows[k1], input);
    var sel := Select(s.rows, input).value;
    assert MaySave(s.rows, s.rows[k0]) && MaySave(s.rows, s.rows[k1]);
    if sel != k0 && sel != k1 {
      assert false;
    }
  }

  /** A session event for a split payment violates a unique index, whichever row it selects. */
  lemma SplitRejectsSession(
    s: Store, k0: Uuid, k1: Uuid, session: string, intent: string, input: SuccessInput, newId: Uuid)
    requires Sound(s) && session != "" && intent != "" && SplitRows(s, k0, k1, session, intent)
    requires input.stripePaymentId == intent && input.stripeSessionId == session
    ensures Upsert(s.rows, input, newId) == (s.rows, Failure(UniqueViolation))
  {
    SplitSelects(s, k0, k1, session, intent, input);
    var sel := Select(s.rows, input).value;
    var filled := Filled(s.rows[sel], input);
    assert Clash(s.rows[if sel == k0 then k1 else k0], filled);
  }

  /** An event leaves every row alone that it does not match. */
  lemma OthersUntouched(s: Store, k: Uuid, input: SuccessInput, newId: Uuid)
    requires Sound(s) && newId >= s.next && k in s.rows && !Matches(s.rows[k], input)
    ensures k in Upsert(s.rows, input, newId).0 && Upsert(s.rows, input, newId).0[k] == s.rows[k]
  {
    SelectSound(s.rows, input);
  }

  /** An intent event for a split payment goes to the row holding the intent. */
  lemma SplitIntentEvent(
    s: Store, k0: Uuid, k1: Uuid, session: string, intent: string, input: SuccessInput, newId: Uuid)
    requires Sound(s) && session != "" && intent != "" && SplitRows(s, k0, k1, session, intent)
    requires input.stripePaymentId == intent && input.stripeSessionId == ""
    ensures var after := Upsert(s.rows, input, newId).0;
            k0 in after && after[k0] == s.rows[k0] &&
            k1 in after && after[k1].stripeSessionId.None? && after[k1].stripePaymentId == Some(intent)
  {
    SplitSelects(s, k0, k1, session, intent, input);
  }

  lemma SplitStep(s: Store, k0: Uuid, k1: Uuid, session: string, intent: string, op: Op)
    requires Sound(s) && session != "" && intent != "" && SplitRows(s, k0, k1, session, intent)
    requires !op.Remove? && StripeOrder(op, session, intent)
    ensures SplitRows(Apply(s, op), k0, k1, session, intent)
    ensures Apply(s, op).rows[k0] == s.rows[k0]
  {
    if op.Succeed? && op.newId >= s.next {
      if !About(op.input, session, intent) {
        OthersUntouched(s, k0, op.input, op.newId);
        OthersUntouched(s, k1, op.input, op.newId);
      } else if op.input.stripeSessionId == session {
        SplitRejectsSession(s, k0, k1, session, intent, op.input, op.newId);
      } else {
        SplitIntentEvent(s, k0, k1, session, intent, op.input, op.newId);
      }
    }
  }

  lemma {:induction false} SplitForever(s: Store, k0: Uuid, k1: Uuid, session: string, intent: string, ops: seq<Op>)
    requires Sound(s) && session != "" && intent != "" && SplitRows(s, k0, k1, session, intent)
    requires forall i :: 0 <= i < |ops| ==> !ops[i].Remove? && StripeOrder(ops[i], session, intent)
    ensures SplitRows(Run(s, ops), k0, k1, session, intent) && Sound(Run(s, ops))
    ensures Run(s, ops).rows[k0] == s.rows[k0]
  {
    RunKeeps(s, ops);
    if ops != [] {
      var last := |ops| - 1;
      SplitForever(s, k0, k1, session, intent, ops[..last]);
      SplitStep(Run(s, ops[..last]), k0, k1, session, intent, ops[last]);
    }
  }

  /**
   * "Any event order converges" is false. If the intent event of a stored pending payment is handled
   * first, it inserts a second row, and from then on every session event is rejected and the pending
   * row never changes, however often Stripe retries.
   */
  lemma IntentFirstNeverConverges(s: Store, k0: Uuid, session: string, first: SuccessInput, newId: Uuid, ops: seq<Op>)
    requires Sound(s) && newId >= s.next && session != ""
    requires k0 in s.rows && s.rows[k0].stripeSessionId == Some(session) && s.rows[k0].stripePaymentId.None?
    requires first.stripeSessionId == "" && first.stripePaymentId != ""
    requires forall k :: k in s.rows ==> s.rows[k].stripePaymentId != Some(first.stripePaymentId)
    requires forall i :: 0 <= i < |ops| ==> !ops[i].Remove? && StripeOrder(ops[i], session, first.stripePaymentId)
    ensures var t := Apply(s, Succeed(first, newId));
            && newId in t.rows && newId !in s.rows
            && k0 in Run(t, ops).rows && Run(t, ops).rows[k0] == s.rows[k0]
            && forall i :: 0 <= i < |ops| && ops[i].Succeed? && ops[i].input.stripeSessionId == session ==>
                             Upsert(Run(t, ops[..i]).rows, ops[i].input, ops[i].newId).1 == Failure(UniqueViolation)
  {
    var t := Apply(s, Succeed(first, newId));
    var intent := first.stripePaymentId;
    SelectSound(s.rows, first);
    assert Select(s.rows, first).None?;
    assert MaySave(s.rows, Filled(Inserted(newId, first), first));
    ApplyKeeps(s, Succeed(first, newId));
    assert SplitRows(t, k0, newId, session, intent);
    SplitForever(t, k0, newId, session, intent, ops);
    forall i | 0 <= i < |ops| && ops[i].Succeed? && ops[i].input.stripeSessionId == session
      ensures Upsert(Run(t, ops[..i]).rows, ops[i].input, ops[i].newId).1 == Failure(UniqueViolation)
    {
      SplitForever(t, k0, newId, session, intent, ops[..i]);
      SplitRejectsSession(Run(t, ops[..i]), k0, newId, session, intent, ops[i].input, ops[i].newId);
    }
  }

  // ---------- the repository ----------

  /** The repository over its table; `nextId` is a ghost bound above every id handed out so far. */
  class PaymentRepo {
    var rows: Payments
    ghost var nextId: Uuid

    ghost predicate Valid()
      reads this
    {
      WellFormed(rows, nextId)
    }

    constructor ()
      ensures Valid() && rows == map[]
    {
      rows, nextId := map[], 0;
    }

    method CreatePending(payment: Payment, dbFails: bool) returns (r: Result<(), DbError>)
      requires Valid() && payment.id >= nextId
      modifies this
      ensures Valid() && nextId == payment.id + 1
      ensures r.Success? <==> !dbFails && MaySave(old(rows), payment)
      // that is, no other row carries one of its Stripe ids
      ensures r.Success? <==>
              !dbFails && forall k :: k in old(rows) && k != payment.id ==>
                                        && (payment.stripePaymentId.Some? ==>
                                              old(rows)[k].stripePaymentId != payment.stripePaymentId)
                                        && (payment.stripeSessionId.Some? ==>
                                              old(rows)[k].stripeSessionId != payment.stripeSessionId)
      ensures rows == if r.Success? then old(rows)[payment.id := payment] else old(rows)
    {
      nextId := payment.id + 1;
      if dbFails {
        return Failure(Unavailable);
      }
      if !MaySave(rows, payment) {
        return Failure(UniqueViolation);
      }
      SaveKeepsWellFormed(rows, nextId, payment);
      rows := rows[payment.id := payment];
      r := Success(());
    }

    /** SELECT ... WHERE stripe_payment_id = ? OR stripe_session_id = ? ORDER BY id LIMIT 1. */
    method FindByStripeIds(input: SuccessInput) returns (found: Option<Payment>)
      requires Valid()
      ensures found == match Select(rows, input) case Some(k) => Some(rows[k]) case None => None
    {
      SelectSound(rows, input);
      var ids := set k | k in rows && Matches(rows[k], input);
      if ids == {} {
        return None;
      }
      LeastExists(ids);
      var k :| k in ids && forall j :: j in ids ==> k <= j;
      found := Some(rows[k]);
    }

    method UpsertSucceeded(input: SuccessInput, newId: Uuid, readFails: bool, saveFails: bool)
      returns (r: Result<SuccessResult, DbError>)
      requires Valid() && newId >= nextId
      modifies this
      ensures Valid() && nextId == newId + 1
      ensures readFails || saveFails ==> rows == old(rows) && r.Failure?
      ensures !readFails && !saveFails ==> (rows, r) == Upsert(old(rows), input, newId)
    {
      UpsertKeeps(rows, nextId, input, newId);
      nextId := newId + 1;
      if readFails {
        return Failure(Unavailable);
      }
      var found := FindByStripeIds(input);
      var payment: Payment;
      if found.Some? {
        payment := found.value;
      } else {
        payment := Payment(newId, "", Succeeded, NullIfEmpty(input.stripeSessionId),
                           NullIfEmpty(input.stripePaymentId), "", "", 0, "", None);
      }
      var already := payment.status == Succeeded;
      if payment.orderId == "" {
        payment := payment.(orderId := input.orderId);
      }
      if payment.email == "" {
        payment := payment.(email := input.email);
      }
      if payment.amount == 0 {
        payment := payment.(amount := input.amount);
      }
      if payment.currency == "" {
        payment := payment.(currency := input.currency);
      }
      payment := payment.(status := Succeeded);
      var paidId := NullIfEmpty(input.stripePaymentId);
      if paidId.Some? && payment.stripePaymentId.None? {
        payment := payment.(stripePaymentId := paidId);
      }
      var session := NullIfEmpty(input.stripeSessionId);
      if session.Some? && payment.stripeSessionId.None? {
        payment := payment.(stripeSessionId := session);
      }
      if payment.paidAt.None? {
        payment := payment.(paidAt := Some(input.paidAt));
      }
      if saveFails {
        return Failure(Unavailable);
      }
      if !MaySave(rows, payment) {
        return Failure(UniqueViolation);
      }
      rows := rows[payment.id := payment];
      r := Success(SuccessResult(payment.id, payment.orderId, input.stripePaymentId, payment.email,
                                 payment.amount, payment.currency, already));
    }

    method Delete(id: Uuid, dbFails: bool) returns (r: Result<bool, DbError>)
      requires Valid()
      modifies this
      ensures Valid() && nextId == old(nextId)
      ensures dbFails ==> r == Failure(Unavailable) && rows == old(rows)
      ensures !dbFails ==> r == Success(id in old(rows)) && rows == old(rows) - {id}
    {
      if dbFails {
        return Failure(Unavailable);
      }
      ApplyKeeps(Store(rows, nextId), Remove(id));
      r := Success(id in rows);
      rows := rows - {id};
    }
  }
}
