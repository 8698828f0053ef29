// What overlapping webhook calls keep and lose: UpsertSucceeded reads a row and saves it later
// (services/payments/internal/db/repo.go).
module Overlap {
  import opened Common
  import opened Machine
  import opened PaymentStore
  import opened Settlement
  import opened Conservation

  // ---------- one save ----------

  /** A text field: still as it was read, or empty, or - when it was read empty - what the input brings. */
  predicate TextKept(read: string, current: string, given: string) {
    if read == "" then current == "" || current == given else current == "" || current == read
  }

  predicate IdKept(read: Option<string>, current: Option<string>, given: string) {
    if read.None? then current.None? || current == NullIfEmpty(given) else current.None? || current == read
  }

  predicate AmountKept(read: Int64, current: Int64, given: Int64) {
    if read == 0 then current == 0 || current == given else current == 0 || current == read
  }

  predicate TimeKept(read: Option<Time>, current: Option<Time>, given: Time) {
    if read.None? then current.None? || current == Some(given) else current.None? || current == read
  }

  /** Every field of the current row is empty, or as it was read, or - read empty - what the input brings. */
  predicate FieldsKept(read: Payment, current: Payment, input: SuccessInput) {
    && TextKept(read.orderId, current.orderId, input.orderId)
    && TextKept(read.email, current.email, input.email)
    && AmountKept(read.amount, current.amount, input.amount)
    && TextKept(read.currency, current.currency, input.currency)
    && IdKept(read.stripeSessionId, current.stripeSessionId, input.stripeSessionId)
    && IdKept(read.stripePaymentId, current.stripePaymentId, input.stripePaymentId)
    && TimeKept(read.paidAt, current.paidAt, input.paidAt)
  }

  /** What a save loses: writing the merge keeps all that is set in the current row exactly under that check. */
  lemma SaveKeepsExactly(read: Payment, current: Payment, input: SuccessInput)
    requires read.id == current.id
    ensures Grows(current, Filled(read, input)) <==> FieldsKept(read, current, input)
  {
  }

  /** Each field empty at the read is still empty now, or is exactly what the input brings. */
  predicate Harmless(read: Payment, current: Payment, input: SuccessInput) {
    && (read.orderId == "" ==> current.orderId in ["", input.orderId])
    && (read.email == "" ==> current.email in ["", input.email])
    && (read.amount == 0 ==> current.amount in [0, input.amount])
    && (read.currency == "" ==> current.currency in ["", input.currency])
    && (read.stripeSessionId.None? ==> current.stripeSessionId in [None, NullIfEmpty(input.stripeSessionId)])
    && (read.stripePaymentId.None? ==> current.stripePaymentId in [None, NullIfEmpty(input.stripePaymentId)])
    && (read.paidAt.None? ==> current.paidAt in [None, Some(input.paidAt)])
  }

  /** As long as nothing was lost since the read, that is all there is to check. */
  lemma SaveKeepsIfHarmless(read: Payment, current: Payment, input: SuccessInput)
    requires Grows(read, current)
    ensures Grows(current, Filled(read, input)) <==> Harmless(read, current, input)
  {
    SaveKeepsExactly(read, current, input);
  }

  // ---------- write-once over runs ----------

  /** Call `c` has read row `k` and not saved it yet. */
  predicate Reads(s: State, c: nat, k: Uuid) {
    c in s.webhooks && s.webhooks[c].Merged? && s.webhooks[c].read.id == k
  }

  /** The step is a save of row `k` that the indexes accept. */
  predicate Writes(s: State, step: Step, k: Uuid) {
    step.WebhookSave? && Reads(s, step.call, k) && MaySave(s.payments, s.webhooks[step.call].Row())
  }

  ghost predicate SavesRow(ids: UuidText, steps: seq<Step>, n: nat, k: Uuid)
    requires n < |steps|
  {
    Writes(Execute(ids, INIT, steps[..n]), steps[n], k)
  }

  /** The step changes nothing that is set in row `k`. */
  ghost predicate StepKeeps(ids: UuidText, s: State, step: Step, k: Uuid) {
    var t := Advance(ids, s, step);
    k in s.payments && k in t.payments ==> Grows(s.payments[k], t.payments[k])
  }

  ghost predicate KeepsRow(ids: UuidText, steps: seq<Step>, n: nat, k: Uuid)
    requires n < |steps|
  {
    StepKeeps(ids, Execute(ids, INIT, steps[..n]), steps[n], k)
  }

  ghost predicate WriteOnce(ids: UuidText, steps: seq<Step>, k: Uuid) {
    forall n: nat :: n < |steps| ==> KeepsRow(ids, steps, n, k)
  }

  /** If the step saves row `k`, it is harmless to the row it finds. */
  ghost predicate StepHarmless(s: State, step: Step, k: Uuid) {
    Writes(s, step, k) && k in s.payments ==>
      Harmless(s.webhooks[step.call].read, s.payments[k], s.webhooks[step.call].input)
  }

  ghost predicate HarmlessAt(ids: UuidText, steps: seq<Step>, n: nat, k: Uuid)
    requires n < |steps|
  {
    StepHarmless(Execute(ids, INIT, steps[..n]), steps[n], k)
  }

  ghost predicate AllHarmless(ids: UuidText, steps: seq<Step>, k: Uuid) {
    forall n: nat :: n < |steps| ==> HarmlessAt(ids, steps, n, k)
  }

  /** If step `n` saves row `k`, each field it finds there passes the check. */
  ghost predicate FieldsKeptAt(ids: UuidText, steps: seq<Step>, n: nat, k: Uuid)
    requires n < |steps|
  {
    var s := Execute(ids, INIT, steps[..n]);
    Writes(s, steps[n], k) && k in s.payments ==>
      FieldsKept(s.webhooks[steps[n].call].read, s.payments[k], s.webhooks[steps[n].call].input)
  }

  /** Only a save changes a row that is there; it then holds the merge. */
  lemma RowAfter(ids: UuidText, s: State, step: Step, k: Uuid)
    requires IdsBelow(ids, s) && k in s.payments && k in Advance(ids, s, step).payments
    ensures Advance(ids, s, step).payments[k] ==
            if Writes(s, step, k) then s.webhooks[step.call].Row() else s.payments[k]
  {
  }

  lemma StepKeepsFields(ids: UuidText, steps: seq<Step>, n: nat, k: Uuid)
    requires n < |steps|
    ensures KeepsRow(ids, steps, n, k) <==> FieldsKeptAt(ids, steps, n, k)
  {
    var s := Execute(ids, INIT, steps[..n]);
    RunIdsBelow(ids, steps[..n]);
    if k in s.payments && k in Advance(ids, s, steps[n]).payments {
      RowAfter(ids, s, steps[n], k);
      if Writes(s, steps[n], k) {
        var call := s.webhooks[steps[n].call];
        SaveKeepsExactly(call.read, s.payments[k], call.input);
      }
    }
  }

  /**
   * Write-once over interleaved runs, exactly: what is set in a row is never changed if and only if every
   * save of the row finds each field empty, as it was read, or - read empty - equal to what it brings.
   */
  lemma WriteOnceFields(ids: UuidText, steps: seq<Step>, k: Uuid)
    ensures WriteOnce(ids, steps, k) <==> forall n: nat :: n < |steps| ==> FieldsKeptAt(ids, steps, n, k)
  {
    forall n: nat | n < |steps|
      ensures KeepsRow(ids, steps, n, k) <==> FieldsKeptAt(ids, steps, n, k)
    {
      StepKeepsFields(ids, steps, n, k);
    }
  }

  /** What was read of row `k` has only grown since, and a row not yet in the table is one call's alone. */
  ghost predicate ReadsGrow(s: State, k: Uuid) {
    && (forall c :: Reads(s, c, k) && k in s.payments ==> Grows(s.webhooks[c].read, s.payments[k]))
    && (forall c, d :: c != d && Reads(s, c, k) && Reads(s, d, k) ==> k in s.payments)
  }

  lemma GrowsTransitive(a: Payment, b: Payment, c: Payment)
    requires Grows(a, b) && Grows(b, c)
    ensures Grows(a, c)
  {
  }

  lemma AdvanceReadsGrow(ids: UuidText, s: State, step: Step, k: Uuid)
    requires IdsBelow(ids, s) && ReadsGrow(s, k) && step != DeletePayment(k) && StepKeeps(ids, s, step, k)
    ensures ReadsGrow(Advance(ids, s, step), k)
  {
    var t := Advance(ids, s, step);
    if step.WebhookRead? {
      SelectSound(s.payments, step.input);
    }
    forall c, d | c != d && Reads(t, c, k) && Reads(t, d, k)
      ensures k in t.payments
    {
      ReadBefore(ids, s, step, c, k);
      ReadBefore(ids, s, step, d, k);
    }
    forall c | Reads(t, c, k) && k in t.payments
      ensures Grows(t.webhooks[c].read, t.payments[k])
    {
      ReadBefore(ids, s, step, c, k);
      if c in s.webhooks {
        RowArrives(ids, s, step, c, k);
        GrowsTransitive(t.webhooks[c].read, s.payments[k], t.payments[k]);
      }
    }
  }

  /** A call that has read the row read it before this step, or reads it in this step. */
  lemma ReadBefore(ids: UuidText, s: State, step: Step, c: nat, k: Uuid)
    requires Reads(Advance(ids, s, step), c, k)
    ensures if c in s.webhooks then Reads(s, c, k) && Advance(ids, s, step).webhooks[c] == s.webhooks[c]
            else step.WebhookRead? && step.call == c
  {
  }

  /** A row some call has read comes into the table only by the save of another call that read it. */
  lemma RowArrives(ids: UuidText, s: State, step: Step, c: nat, k: Uuid)
    requires IdsBelow(ids, s) && Reads(s, c, k) && Reads(Advance(ids, s, step), c, k)
    ensures k !in s.payments && k in Advance(ids, s, step).payments ==>
              step.WebhookSave? && Reads(s, step.call, k) && step.call != c
  {
  }

  /** A step keeps what is set in the row exactly when it is harmless. */
  lemma StepKeepsExactly(ids: UuidText, s: State, step: Step, k: Uuid)
    requires IdsBelow(ids, s) && ReadsGrow(s, k)
    ensures StepKeeps(ids, s, step, k) <==> StepHarmless(s, step, k)
  {
    if k in s.payments && k in Advance(ids, s, step).payments {
      RowAfter(ids, s, step, k);
      if Writes(s, step, k) {
        var call := s.webhooks[step.call];
        SaveKeepsIfHarmless(call.read, s.payments[k], call.input);
      }
    }
  }

  lemma {:induction false} ReadsGrowRun(ids: UuidText, steps: seq<Step>, n: nat, k: Uuid)
    requires n <= |steps| && NeverDeleted(steps, k)
    requires forall i: nat :: i < n ==> KeepsRow(ids, steps, i, k)
    ensures ReadsGrow(Execute(ids, INIT, steps[..n]), k)
  {
    if n > 0 {
      var last := n - 1;
      ReadsGrowRun(ids, steps, last, k);
      RunIdsBelow(ids, steps[..last]);
      assert steps[..n][..last] == steps[..last];
      assert KeepsRow(ids, steps, last, k);
      AdvanceReadsGrow(ids, Execute(ids, INIT, steps[..last]), steps[last], k);
    }
  }

  /**
   * As long as a row is not deleted the check is simpler: what is set in it is never changed if and only if
   * every save of the row is harmless to the fields its call read empty.
   */
  lemma WriteOnceExactly(ids: UuidText, steps: seq<Step>, k: Uuid)
    requires NeverDeleted(steps, k)
    ensures WriteOnce(ids, steps, k) <==> AllHarmless(ids, steps, k)
  {
    if AllHarmless(ids, steps, k) {
      HarmlessKeeps(ids, steps, |steps|, k);
    } else if WriteOnce(ids, steps, k) {
      forall n: nat | n < |steps|
        ensures HarmlessAt(ids, steps, n, k)
      {
        ReadsGrowRun(ids, steps, n, k);
        RunIdsBelow(ids, steps[..n]);
        assert KeepsRow(ids, steps, n, k);
        StepKeepsExactly(ids, Execute(ids, INIT, steps[..n]), steps[n], k);
      }
    }
  }

  lemma {:induction false} HarmlessKeeps(ids: UuidText, steps: seq<Step>, n: nat, k: Uuid)
    requires n <= |steps| && NeverDeleted(steps, k) && AllHarmless(ids, steps, k)
    ensures forall i: nat :: i < n ==> KeepsRow(ids, steps, i, k)
  {
    if n > 0 {
      HarmlessKeeps(ids, steps, n - 1, k);
      ReadsGrowRun(ids, steps, n - 1, k);
      RunIdsBelow(ids, steps[..n - 1]);
      assert HarmlessAt(ids, steps, n - 1, k);
      StepKeepsExactly(ids, Execute(ids, INIT, steps[..n - 1]), steps[n - 1], k);
    }
  }

  // ---------- calls that do not overlap on the row ----------

  ghost predicate InFlight(ids: UuidText, steps: seq<Step>, m: nat, c: nat, k: Uuid)
    requires m <= |steps|
  {
    Reads(Execute(ids, INIT, steps[..m]), c, k)
  }

  /** Call `c` read row `k` at step `i` and is still in flight before step `n`. */
  ghost predicate Started(ids: UuidText, steps: seq<Step>, i: nat, n: nat, c: nat, k: Uuid) {
    && i < n <= |steps| && steps[i].WebhookRead? && steps[i].call == c
    && c !in Execute(ids, INIT, steps[..i]).webhooks
    && (forall m: nat :: i < m <= n ==> InFlight(ids, steps, m, c, k))
  }

  /** No other call saves row `k` between a call's read of it and its save. */
  ghost predicate Serial(ids: UuidText, steps: seq<Step>, k: Uuid) {
    forall i: nat, m: nat, n: nat ::
      i < m < n < |steps| && SavesRow(ids, steps, n, k) && Started(ids, steps, i, n, steps[n].call, k) ==>
        !SavesRow(ids, steps, m, k)
  }

  /** If nothing saved row `k` since call `c` read it, it is still as it was read. */
  ghost predicate Untouched(s: State, c: nat, k: Uuid) {
    k in s.payments && Reads(s, c, k) ==> s.payments[k] == s.webhooks[c].read
  }

  lemma ReadIsCurrent(ids: UuidText, s: State, step: Step, k: Uuid)
    requires IdsBelow(ids, s) && step.WebhookRead? && step.call !in s.webhooks
    ensures Untouched(Advance(ids, s, step), step.call, k)
  {
    SelectSound(s.payments, step.input);
  }

  lemma StaysUntouched(ids: UuidText, s: State, step: Step, c: nat, k: Uuid)
    requires IdsBelow(ids, s) && !Writes(s, step, k)
    requires Reads(s, c, k) && Reads(Advance(ids, s, step), c, k) && Untouched(s, c, k)
    ensures Untouched(Advance(ids, s, step), c, k)
  {
    ReadBefore(ids, s, step, c, k);
  }

  lemma {:induction false} UntouchedUntil(ids: UuidText, steps: seq<Step>, i: nat, n: nat, c: nat, k: Uuid)
    requires Started(ids, steps, i, n, c, k)
    requires forall m: nat :: i < m < n ==> !SavesRow(ids, steps, m, k)
    ensures Untouched(Execute(ids, INIT, steps[..n]), c, k)
    decreases n
  {
    var last := n - 1;
    ExecuteNext(ids, steps, last);
    RunIdsBelow(ids, steps[..last]);
    if last == i {
      ReadIsCurrent(ids, Execute(ids, INIT, steps[..i]), steps[i], k);
    } else {
      assert Started(ids, steps, i, last, c, k);
      UntouchedUntil(ids, steps, i, last, c, k);
      assert InFlight(ids, steps, last, c, k) && InFlight(ids, steps, n, c, k) && !SavesRow(ids, steps, last, k);
      StaysUntouched(ids, Execute(ids, INIT, steps[..last]), steps[last], c, k);
    }
  }

  /** A call in flight was in flight one step earlier, or was started by that step. */
  lemma InFlightBefore(ids: UuidText, steps: seq<Step>, last: nat, c: nat, k: Uuid)
    requires last < |steps| && InFlight(ids, steps, last + 1, c, k)
    ensures InFlight(ids, steps, last, c, k) || Started(ids, steps, last, last + 1, c, k)
  {
    ExecuteNext(ids, steps, last);
    ReadBefore(ids, Execute(ids, INIT, steps[..last]), steps[last], c, k);
  }

  lemma StartedExtends(ids: UuidText, steps: seq<Step>, i: nat, last: nat, c: nat, k: Uuid)
    requires last < |steps| && Started(ids, steps, i, last, c, k) && InFlight(ids, steps, last + 1, c, k)
    ensures Started(ids, steps, i, last + 1, c, k)
  {
  }

  lemma {:induction false} StartedByRead(ids: UuidText, steps: seq<Step>, n: nat, c: nat, k: Uuid)
    requires n <= |steps| && InFlight(ids, steps, n, c, k)
    ensures exists i: nat :: Started(ids, steps, i, n, c, k)
  {
    assert n > 0;
    InFlightBefore(ids, steps, n - 1, c, k);
    if InFlight(ids, steps, n - 1, c, k) {
      StartedByRead(ids, steps, n - 1, c, k);
      var i: nat :| Started(ids, steps, i, n - 1, c, k);
      StartedExtends(ids, steps, i, n - 1, c, k);
    }
  }

  /**
   * So runs whose calls do not overlap on a row - no other call saves it between a call's read and its
   * save - never change what is set in it, deletions of the row included.
   */
  lemma SerialIsWriteOnce(ids: UuidText, steps: seq<Step>, k: Uuid)
    requires Serial(ids, steps, k)
    ensures WriteOnce(ids, steps, k)
  {
    forall n: nat | n < |steps|
      ensures KeepsRow(ids, steps, n, k)
    {
      SerialStepKeeps(ids, steps, n, k);
    }
  }

  lemma SerialStepKeeps(ids: UuidText, steps: seq<Step>, n: nat, k: Uuid)
    requires n < |steps| && Serial(ids, steps, k)
    ensures KeepsRow(ids, steps, n, k)
  {
    RunIdsBelow(ids, steps[..n]);
    var s := Execute(ids, INIT, steps[..n]);
    if SavesRow(ids, steps, n, k) {
      StartedByRead(ids, steps, n, steps[n].call, k);
      var i: nat :| Started(ids, steps, i, n, steps[n].call, k);
      UntouchedUntil(ids, steps, i, n, steps[n].call, k);
    }
    UntouchedSaveKeeps(ids, s, steps[n], k);
  }

  lemma UntouchedSaveKeeps(ids: UuidText, s: State, step: Step, k: Uuid)
    requires IdsBelow(ids, s) && (Writes(s, step, k) ==> Untouched(s, step.call, k))
    ensures StepKeeps(ids, s, step, k)
  {
    if k in s.payments && k in Advance(ids, s, step).payments {
      RowAfter(ids, s, step, k);
    }
  }

  // ---------- an update that is lost ----------

  /**
   * Two calls that both read the row before either saves: the later save replaces the email the earlier
   * one filled, by its own or, when its event brings none, by nothing.
   */
  lemma OverlapLosesUpdate(ids: UuidText, s: State, a: SuccessInput, b: SuccessInput, idA: Uuid, idB: Uuid, k: Uuid)
    requires WellFormed(s.payments, s.next) && s.webhooks == map[] && s.next <= idA < idB
    requires Select(s.payments, a) == Some(k) && Select(s.payments, b) == Some(k)
    requires s.payments[k].stripeSessionId.Some? && s.payments[k].stripePaymentId.Some?
    requires s.payments[k].email == "" && a.email != "" && a.email != b.email
    ensures var r := Advance(ids, Advance(ids, s, WebhookRead(0, a, idA)), WebhookRead(1, b, idB));
            var t := Advance(ids, r, WebhookSave(0));
            var u := Advance(ids, t, WebhookSave(1));
            && t.payments[k].email == a.email
            && u.payments[k].email == b.email
            && !Grows(t.payments[k], u.payments[k])
  {
    var r := Advance(ids, Advance(ids, s, WebhookRead(0, a, idA)), WebhookRead(1, b, idB));
    SelectSound(s.payments, a);
    assert r.webhooks == map[0 := Merged(s.payments[k], a), 1 := Merged(s.payments[k], b)];
    assert MaySave(s.payments, s.payments[k]);
    SameIdsMaySave(r.payments, s.payments[k], Filled(s.payments[k], a));
    var t := Advance(ids, r, WebhookSave(0));
    SameIdsMaySave(t.payments, s.payments[k], Filled(s.payments[k], b));
  }

  /** Which Stripe ids a row carries decides whether it may be saved. */
  lemma SameIdsMaySave(rows: Payments, a: Payment, b: Payment)
    requires a.id == b.id && a.stripeSessionId == b.stripeSessionId && a.stripePaymentId == b.stripePaymentId
    ensures MaySave(rows, a) <==> MaySave(rows, b)
  {
  }

  // ---------- deletions ----------

  /** The row carries everything but an email. */
  predicate OnlyEmailEmpty(row: Payment) {
    && row.orderId != "" && row.email == "" && row.amount != 0 && row.currency != "" && row.paidAt.Some?
    && row.stripeSessionId.Some? && row.stripePaymentId.Some?
  }

  lemma SameIdsSelect(rows: Payments, k: Uuid, row: Payment, input: SuccessInput)
    requires k in rows
    requires row.stripeSessionId == rows[k].stripeSessionId && row.stripePaymentId == rows[k].stripePaymentId
    ensures Select(rows[k := row], input) == Select(rows, input)
  {
    assert Matching(rows[k := row], input) == Matching(rows, input);
  }

  /** Call 0 reads the row, call 1 fills its email, and call 2 reads it then. */
  ghost function AfterFill(ids: UuidText, s: State, a: SuccessInput, b: SuccessInput, newId: Uuid): State {
    var r := Advance(ids, Advance(ids, s, WebhookRead(0, a, newId)), WebhookRead(1, b, newId + 1));
    Advance(ids, Advance(ids, r, WebhookSave(1)), WebhookRead(2, b, newId + 2))
  }

  lemma FillRun(ids: UuidText, s: State, a: SuccessInput, b: SuccessInput, newId: Uuid, k: Uuid)
    requires WellFormed(s.payments, s.next) && s.webhooks == map[] && s.next <= newId
    requires Select(s.payments, a) == Some(k) == Select(s.payments, b) && OnlyEmailEmpty(s.payments[k])
    ensures var t := AfterFill(ids, s, a, b, newId);
            && t.payments == s.payments[k := Filled(s.payments[k], b)]
            && {0, 2} <= t.webhooks.Keys
            && t.webhooks[0] == Merged(s.payments[k], a) && t.webhooks[2] == Merged(Filled(s.payments[k], b), b)
  {
    SelectSound(s.payments, a);
    var row := s.payments[k];
    var r := Advance(ids, Advance(ids, s, WebhookRead(0, a, newId)), WebhookRead(1, b, newId + 1));
    assert r.webhooks == map[0 := Merged(row, a), 1 := Merged(row, b)] && r.payments == s.payments;
    assert MaySave(s.payments, row);
    SameIdsMaySave(s.payments, row, Filled(row, b));
    SameIdsSelect(s.payments, k, Filled(row, b), b);
  }

  /** The row is deleted, the first reader saves it back, and the last reader saves over that. */
  lemma StaleSaves(ids: UuidText, s: State, row: Payment, a: SuccessInput, b: SuccessInput, k: Uuid)
    requires k in s.payments && row.id == k && OnlyEmailEmpty(row) && MaySave(s.payments, row)
    requires a.email != "" && b.email != "" && a.email != b.email
    requires {0, 2} <= s.webhooks.Keys
    requires s.webhooks[0] == Merged(row, a) && s.webhooks[2] == Merged(Filled(row, b), b)
    ensures var t := Advance(ids, Advance(ids, s, DeletePayment(k)), WebhookSave(0));
            var u := Advance(ids, t, WebhookSave(2));
            && 2 in t.webhooks && t.webhooks[2] == Merged(Filled(row, b), b)
            && k in t.payments && k in u.payments
            && Harmless(Filled(row, b), t.payments[k], b)
            && t.payments[k].email == a.email && u.payments[k].email == b.email
  {
    var r := Advance(ids, s, DeletePayment(k));
    SameIdsMaySave(r.payments, row, Filled(row, a));
    var t := Advance(ids, r, WebhookSave(0));
    assert t.payments == r.payments[k := Filled(row, a)];
    SameIdsMaySave(t.payments, row, Filled(Filled(row, b), b));
    assert MaySave(t.payments, row);
  }

  /**
   * Why that asks for the row not to be deleted: a call that read the row before its deletion re-inserts
   * it, and the save of another one, harmless to the fields it read empty, replaces the email set there.
   */
  lemma DeletionDefeatsHarmless(
    ids: UuidText, s: State, a: SuccessInput, b: SuccessInput, newId: Uuid, k: Uuid)
    requires WellFormed(s.payments, s.next) && s.webhooks == map[] && s.next <= newId
    requires Select(s.payments, a) == Some(k) == Select(s.payments, b) && OnlyEmailEmpty(s.payments[k])
    requires a.email != "" && b.email != "" && a.email != b.email
    ensures var r := Advance(ids, AfterFill(ids, s, a, b, newId), DeletePayment(k));
            var t := Advance(ids, r, WebhookSave(0));
            var u := Advance(ids, t, WebhookSave(2));
            && 2 in t.webhooks && t.webhooks[2].Merged? && k in t.payments && k in u.payments
            && Harmless(t.webhooks[2].read, t.payments[k], t.webhooks[2].input)
            && t.payments[k].email == a.email && u.payments[k].email == b.email
  {
    SelectSound(s.payments, a);
    FillRun(ids, s, a, b, newId, k);
    FilledMaySave(s.payments, k, b);
    StaleSaves(ids, AfterFill(ids, s, a, b, newId), s.payments[k], a, b, k);
  }

  lemma FilledMaySave(rows: Payments, k: Uuid, input: SuccessInput)
    requires k in rows && rows[k].id == k && OnlyEmailEmpty(rows[k]) && MaySave(rows, rows[k])
    ensures MaySave(rows[k := Filled(rows[k], input)], rows[k])
  {
  }
}
