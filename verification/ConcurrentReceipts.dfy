// The receipt protocol with any number of handlers at once: the calls of ReceiptHandler and
// DedupeStore as separate steps (services/notification/internal/nats/worker.go, lines 185 to 237).
module ConcurrentReceipts {
  import opened ReceiptProtocol

  /** Where a handler holding a payment's key stands. */
  datatype Phase = Sending(key: string) | Releasing(key: string)

  /**
   * `keys` is Redis. `sent` lists the payments whose send succeeded, `stranded` those whose key was left
   * behind without a receipt, and `confirmed` those for which a handler returned without error.
   */
  datatype State = State(
    keys: set<string>, handlers: map<nat, Phase>, sent: seq<string>, stranded: set<string>,
    confirmed: set<string>)

  const INIT := State({}, map[], [], {}, {})

  datatype Step =
    | Mark(handler: nat, key: string, outcome: MarkOutcome)
    | SendSucceeds(handler: nat)
    | SendFails(handler: nat)
    | Release(handler: nat, release: ReleaseOutcome)
    | Crash(handler: nat)

  /** One step; a step that is not enabled has no effect. */
  function Apply(s: State, step: Step): State {
    match step
    case Mark(h, key, outcome) =>
      if h in s.handlers || outcome.MarkNotApplied? then s
      else if key in s.keys then
        if outcome.MarkReplyLost? then s else s.(confirmed := s.confirmed + {key})
      else if outcome.MarkReplyLost? then s.(keys := s.keys + {key}, stranded := s.stranded + {key})
      else s.(keys := s.keys + {key}, handlers := s.handlers[h := Sending(key)])
    case SendSucceeds(h) =>
      if h in s.handlers && s.handlers[h].Sending? then
        s.(handlers := s.handlers - {h}, sent := s.sent + [s.handlers[h].key],
           confirmed := s.confirmed + {s.handlers[h].key})
      else s
    case SendFails(h) =>
      if h in s.handlers && s.handlers[h].Sending? then
        s.(handlers := s.handlers[h := Releasing(s.handlers[h].key)])
      else s
    case Release(h, outcome) =>
      if h in s.handlers && s.handlers[h].Releasing? then
        var key := s.handlers[h].key;
        if outcome.ReleaseNotApplied? then s.(handlers := s.handlers - {h}, stranded := s.stranded + {key})
        else s.(handlers := s.handlers - {h}, keys := s.keys - {key})
      else s
    case Crash(h) =>
      if h in s.handlers then
        s.(handlers := s.handlers - {h}, stranded := s.stranded + {s.handlers[h].key})
      else s
  }

  function Run(s: State, steps: seq<Step>): State {
    if steps == [] then s else Apply(Run(s, steps[..|steps| - 1]), steps[|steps| - 1])
  }

  predicate Held(s: State, key: string) {
    exists h :: h in s.handlers && s.handlers[h].key == key
  }

  ghost predicate Distinct(s: seq<string>) {
    forall i, j :: 0 <= i < j < |s| ==> s[i] != s[j]
  }

  ghost predicate Inv(s: State) {
    // no two handlers hold the same payment
    && (forall g, h :: g in s.handlers && h in s.handlers && g != h ==> s.handlers[g].key != s.handlers[h].key)
    // no payment was sent twice
    && Distinct(s.sent)
    // a key is held, sent or stranded, and never two of them
    && (forall k :: k in s.keys <==> Held(s, k) || k in s.sent || k in s.stranded)
    && (forall k :: Held(s, k) ==> k !in s.sent && k !in s.stranded)
    && (forall k :: k in s.sent ==> k !in s.stranded)
  }

  /** Removing or re-phasing one handler leaves who holds the other keys alone. */
  lemma HeldByOthers(s: State, h: nat, key: string)
    requires Inv(s) && h in s.handlers
    ensures Held(s.(handlers := s.handlers - {h}), key) <==> Held(s, key) && key != s.handlers[h].key
  {
    var t := s.(handlers := s.handlers - {h});
    if Held(s, key) && key != s.handlers[h].key {
      var g :| g in s.handlers && s.handlers[g].key == key;
      assert g in t.handlers;
    }
  }

  lemma ApplyMark(s: State, h: nat, key: string, outcome: MarkOutcome)
    requires Inv(s)
    ensures Inv(Apply(s, Mark(h, key, outcome)))
  {
    var t := Apply(s, Mark(h, key, outcome));
    if h !in s.handlers && key !in s.keys && outcome.MarkAnswered? {
      assert t.handlers[h].key == key;
      forall k
        ensures Held(t, k) <==> Held(s, k) || k == key
      {
        if Held(s, k) {
          var g :| g in s.handlers && s.handlers[g].key == k;
          assert g in t.handlers && t.handlers[g].key == k;
        }
      }
    } else {
      assert forall k :: Held(t, k) <==> Held(s, k);
    }
  }

  lemma ApplyLeave(s: State, step: Step)
    requires Inv(s) && (step.SendSucceeds? || step.Release? || step.Crash?)
    ensures Inv(Apply(s, step))
  {
    var t := Apply(s, step);
    var h := step.handler;
    if t != s {
      forall k
        ensures Held(t, k) <==> Held(s, k) && k != s.handlers[h].key
      {
        HeldByOthers(s, h, k);
      }
      assert Held(s, s.handlers[h].key);
    }
  }

  lemma ApplySendFails(s: State, h: nat)
    requires Inv(s)
    ensures Inv(Apply(s, SendFails(h)))
  {
    var t := Apply(s, SendFails(h));
    forall k
      ensures Held(t, k) <==> Held(s, k)
    {
      if Held(s, k) {
        var g :| g in s.handlers && s.handlers[g].key == k;
        assert g in t.handlers && t.handlers[g].key == k;
      }
    }
  }

  lemma ApplyKeeps(s: State, step: Step)
    requires Inv(s)
    ensures Inv(Apply(s, step))
  {
    match step
    case Mark(h, key, outcome) => ApplyMark(s, h, key, outcome);
    case SendFails(h) => ApplySendFails(s, h);
    case _ => ApplyLeave(s, step);
  }

  lemma InitKeeps()
    ensures Inv(INIT)
  {
    assert forall k :: !Held(INIT, k);
  }

  lemma {:induction false} RunKeeps(s: State, steps: seq<Step>)
    requires Inv(s)
    ensures Inv(Run(s, steps))
  {
    if steps != [] {
      RunKeeps(s, steps[..|steps| - 1]);
      ApplyKeeps(Run(s, steps[..|steps| - 1]), steps[|steps| - 1]);
    }
  }

  /**
   * However handlers, redeliveries, failures and crashes interleave: at most one handler at a time is
   * between reserving and releasing a payment, at most one send per payment ever succeeds, and the key
   * is present exactly while a handler holds it, a receipt was sent, or it was left behind - one of the
   * three only.
   */
  lemma AtMostOneReceipt(steps: seq<Step>, key: string)
    ensures var s := Run(INIT, steps);
            && (forall g, h :: g in s.handlers && h in s.handlers && s.handlers[g].key == s.handlers[h].key ==> g == h)
            && (forall i, j :: 0 <= i < |s.sent| && 0 <= j < |s.sent| && s.sent[i] == s.sent[j] ==> i == j)
            && (key in s.keys <==> Held(s, key) || key in s.sent || key in s.stranded)
            && !(Held(s, key) && key in s.sent) && !(Held(s, key) && key in s.stranded)
            && !(key in s.sent && key in s.stranded)
  {
    InitKeeps();
    RunKeeps(INIT, steps);
  }

  /** The step finds the payment's key taken by a handler still sending or releasing, or left behind. */
  predicate Skips(s: State, step: Step, key: string) {
    && step.Mark? && step.key == key && step.outcome.MarkAnswered? && step.handler !in s.handlers
    && (Held(s, key) || key in s.stranded)
  }

  predicate SkippedAt(steps: seq<Step>, i: nat, key: string)
    requires i < |steps|
  {
    Skips(Run(INIT, steps[..i]), steps[i], key)
  }

  /** One step: a payment without a receipt becomes confirmed only by a handler that skips it. */
  lemma ApplyConfirms(s: State, step: Step, key: string)
    requires Inv(s)
    ensures s.sent <= Apply(s, step).sent
    ensures key !in Apply(s, step).sent ==>
              (key in Apply(s, step).confirmed <==> key in s.confirmed || Skips(s, step, key))
  {
    if step.SendSucceeds? && step.handler in s.handlers && s.handlers[step.handler].Sending? {
      assert Apply(s, step).sent[|s.sent|] == s.handlers[step.handler].key;
    }
  }

  /**
   * When a receipt is lost: after any run, some delivery of a payment without a receipt was confirmed if
   * and only if some handler asked for the key while another one held it, or after it was left behind.
   */
  lemma {:induction false} ConfirmedUnsentWasSkipped(steps: seq<Step>, key: string)
    requires key !in Run(INIT, steps).sent
    ensures key in Run(INIT, steps).confirmed <==> exists i: nat :: i < |steps| && SkippedAt(steps, i, key)
  {
    if steps != [] {
      var last := |steps| - 1;
      var before := steps[..last];
      InitKeeps();
      RunKeeps(INIT, before);
      ApplyConfirms(Run(INIT, before), steps[last], key);
      ConfirmedUnsentWasSkipped(before, key);
      if i: nat :| i < last && SkippedAt(before, i, key) {
        assert before[..i] == steps[..i] && SkippedAt(steps, i, key);
      }
      if i: nat :| i < |steps| && SkippedAt(steps, i, key) {
        assert i < last ==> before[..i] == steps[..i] && SkippedAt(before, i, key);
      }
      if Skips(Run(INIT, before), steps[last], key) {
        assert SkippedAt(steps, last, key);
      }
    }
  }

  /**
   * With two handlers at once a receipt can be lost: the second delivery is confirmed while the first
   * still sends, then that send fails. This is why the sequential loop matters.
   */
  lemma OverlapCanLoseReceipt(key: string)
    ensures var s := Run(INIT, [Mark(0, key, MarkAnswered), Mark(1, key, MarkAnswered), SendFails(0),
                                Release(0, ReleaseAnswered)]);
            key in s.confirmed && s.sent == [] && s.keys == {} && s.handlers == map[]
  {
    var steps := [Mark(0, key, MarkAnswered), Mark(1, key, MarkAnswered), SendFails(0), Release(0, ReleaseAnswered)];
    assert steps[..3] == [Mark(0, key, MarkAnswered), Mark(1, key, MarkAnswered), SendFails(0)];
    assert steps[..3][..2] == [Mark(0, key, MarkAnswered), Mark(1, key, MarkAnswered)];
    assert steps[..3][..2][..1] == [Mark(0, key, MarkAnswered)];
    assert steps[..3][..2][..1][..0] == [];
    var s1 := Apply(INIT, Mark(0, key, MarkAnswered));
    assert Run(INIT, steps[..3][..2][..1]) == s1;
    var s2 := Apply(s1, Mark(1, key, MarkAnswered));
    assert Run(INIT, steps[..3][..2]) == s2;
    assert Run(INIT, steps[..3]) == Apply(s2, SendFails(0));
  }

  // ---------- the handler is these steps without interruption ----------

  /** The calls one delivery makes, given the keys it finds. */
  function StepsOf(h: nat, keys: set<string>, d: Delivery): seq<Step> {
    if !Receiptable(d) then []
    else
      var mark := Mark(h, d.body.value.paymentId, d.mark);
      if !d.mark.MarkAnswered? || d.body.value.paymentId in keys then [mark]
      else if d.sendFails then [mark, SendFails(h), Release(h, d.release)]
      else [mark, SendSucceeds(h)]
  }

  lemma RunThree(s: State, a: Step, b: Step, c: Step)
    ensures Run(s, []) == s
    ensures Run(s, [a]) == Apply(s, a)
    ensures Run(s, [a, b]) == Apply(Apply(s, a), b)
    ensures Run(s, [a, b, c]) == Apply(Apply(Apply(s, a), b), c)
  {
    assert [a][..0] == [] && [a, b][..1] == [a] && [a, b, c][..2] == [a, b];
  }

  /**
   * Handling one delivery start to finish leaves the keys the handler's steps leave, sends when they
   * send, and confirms when they confirm; no handler stays behind.
   */
  lemma HandlerIsItsSteps(s: State, h: nat, d: Delivery, sent: seq<Delivery>)
    requires h !in s.handlers
    ensures var t := Run(s, StepsOf(h, s.keys, d));
            var after := Received(Box(s.keys, sent), d);
            && t.keys == after.keys
            && t.handlers == s.handlers
            && (t.sent == s.sent <==> after.sent == sent)
            && (t.sent != s.sent ==> t.sent == s.sent + [d.body.value.paymentId] && after.sent == sent + [d])
            && (Receiptable(d) && Handled(Box(s.keys, sent), d) ==>
                  t.confirmed == s.confirmed + {d.body.value.paymentId})
            && (!Handled(Box(s.keys, sent), d) ==> t.confirmed == s.confirmed)
  {
    if Receiptable(d) {
      var key := d.body.value.paymentId;
      var mark := Mark(h, key, d.mark);
      RunThree(s, mark, SendFails(h), Release(h, d.release));
      RunThree(s, mark, SendSucceeds(h), mark);
      assert s.handlers[h := Sending(key)] - {h} == s.handlers;
      assert s.handlers[h := Sending(key)][h := Releasing(key)] - {h} == s.handlers;
      assert key !in s.keys ==> s.keys + {key} - {key} == s.keys;
    }
  }
}
