/** The terms of a payment: what its initiation stores, and how they bind every later call of
    payments/application/handlers.py and payments/tasks.py in every run. */
module PaymentTerms {
  import opened Common
  import opened PaymentDomain
  import opened PaymentProtocol
  import opened PaymentRuns
  import PaymentWebhooks

  // ---------------------------------------------------------------- initiation

  /** A call goes through exactly when nothing stands against it, and then stores one pending payment with its
      own terms.  Otherwise no payment changes, and only a velocity block leaves an entry. */
  lemma InitiationStoresItsTerms(s: State, c: InitiateCall)
    requires FreshIds(s, c)
    ensures var (s', outcome) := InitiatePayment(s, c);
            && (outcome.Initiated? <==> GoesThrough(s.payments, c))
            && s'.webhooks == s.webhooks && s'.dispatched == s.dispatched
            && (if outcome.Initiated? then
                  && outcome == Initiated(c.reference) && s'.payments.Keys == s.payments.Keys + {c.reference}
                  && BearsTerms(s'.payments[c.reference], c) && s'.payments[c.reference].status == PENDING
                  && (forall r | r in s.payments :: s'.payments[r] == s.payments[r])
                  && s'.audit == s.audit + [AuditEntry(None, Initiate)]
                else
                  && s'.payments == s.payments
                  && s'.audit == s.audit + if outcome.VelocityLimit? then [AuditEntry(None, VelocityBlock)] else [])
  {
    var payments := InitiatePayment(s, c).0.payments;
    if InitiatePayment(s, c).1.Initiated? {
      assert !HasRowId(payments, c.entityId);
    }
  }

  /** Which objection is answered: the first in the order of the handler. */
  lemma RefusalsComeInOrder(s: State, c: InitiateCall)
    ensures var outcome := InitiatePayment(s, c).1;
            var known := exists r | r in s.payments :: s.payments[r].idempotencyKey == c.idempotencyKey;
            && (outcome.Existing? <==> known)
            && (outcome.VelocityLimit? <==> !known && c.velocity.Exceeded?)
            && (outcome.FlagDispatchFailed? <==> !known && c.velocity.Flagged?)
            && (outcome.FraudFlagged? <==> !known && c.velocity.Within? && c.suspicious)
            && (outcome.PolicyRefused? <==> !known && c.velocity.Within? && !c.suspicious && c.now > c.createdAt + 1800)
            && (outcome.GatewayFailed? <==> !known && c.velocity.Within? && !c.suspicious && c.now <= c.createdAt + 1800
                                            && c.providerReference.None?)
  {
  }

  // ---------------------------------------------------------------- terms are kept

  predicate SameTerms(a: Row, b: Row) {
    a.(status := b.status) == b
  }

  lemma StepKeepsTerms(s: State, call: Call, r: Id)
    requires r in s.payments
    ensures var s' := Step(s, call).0; r in s'.payments && SameTerms(s.payments[r], s'.payments[r])
  {
    if call.Expiry? && ScanResult(s, call.e.scanned, call.e.now) {
      ExpireFirstMeans(s, call.e.scanned, call.e.now,
                       if call.e.failsAt < |call.e.scanned| then call.e.failsAt else |call.e.scanned|);
    }
  }

  /** The run continues: what has been done stays done. */
  function After(before: seq<Call>, c: InitiateCall, after: seq<Call>): seq<Call> {
    before + [Initiation(c)] + after
  }

  ghost predicate IsInitiated(webhooks: seq<Webhook>, before: seq<Call>, c: InitiateCall) {
    Step(Run(Start(webhooks), before), Initiation(c)).1.Initiated?
  }

  lemma AfterNothing(webhooks: seq<Webhook>, before: seq<Call>, c: InitiateCall)
    ensures Run(Start(webhooks), After(before, c, [])) == Step(Run(Start(webhooks), before), Initiation(c)).0
  {
    assert After(before, c, [])[..|before|] == before;
    assert After(before, c, []) == before + [Initiation(c)];
  }

  lemma AfterOneMore(webhooks: seq<Webhook>, before: seq<Call>, c: InitiateCall, after: seq<Call>)
    requires after != []
    ensures Run(Start(webhooks), After(before, c, after))
         == Step(Run(Start(webhooks), After(before, c, after[..|after| - 1])), after[|after| - 1]).0
  {
    var all := After(before, c, after);
    assert all[..|all| - 1] == After(before, c, after[..|after| - 1]);
  }

  /** In every run a payment bears the terms of its initiation for ever. */
  lemma {:induction false} TermsAreKept(webhooks: seq<Webhook>, before: seq<Call>, c: InitiateCall, after: seq<Call>)
    requires IsInitiated(webhooks, before, c)
    ensures var s := Run(Start(webhooks), After(before, c, after));
            c.reference in s.payments && BearsTerms(s.payments[c.reference], c)
    decreases |after|
  {
    if after == [] {
      AfterNothing(webhooks, before, c);
      InitiationStoresItsTerms(Run(Start(webhooks), before), c);
    } else {
      TermsAreKept(webhooks, before, c, after[..|after| - 1]);
      AfterOneMore(webhooks, before, c, after);
      StepKeepsTerms(Run(Start(webhooks), After(before, c, after[..|after| - 1])), after[|after| - 1], c.reference);
    }
  }

  // ---------------------------------------------------------------- what a report does

  /** The provider reports this very payment, whatever it says about its success. */
  predicate IsAbout(v: Verification, c: InitiateCall) {
    v.Reported? && Some(v.providerReference) == c.providerReference && v.amountMinor == c.amountMinor && v.currency == c.currency
  }

  /** In every run, what a webhook about a payment does, by the terms of its initiation: a report of another
      reference, amount or currency is recorded as fraud; a true report confirms the payment if and only if it
      is still pending and at most 1800 seconds old; anything else is refused. */
  lemma {:induction false} ReportConfirmsExactlyWhen(webhooks: seq<Webhook>, before: seq<Call>, c: InitiateCall, after: seq<Call>, w: WebhookCall)
    requires IsInitiated(webhooks, before, c)
    requires w.txRef == c.providerReference && w.verification.Reported? && w.lockFree && w.fetches && w.commits
    requires !Recorded(Run(Start(webhooks), After(before, c, after)).webhooks, w.eventId)
    ensures var s := Run(Start(webhooks), After(before, c, after));
            var (s', outcome) := Step(s, Webhooks(w));
            && c.reference in s.payments && c.reference in s'.payments
            && outcome == Saved(if !IsAbout(w.verification, c) then FraudDetected
                                else if w.verification.verified && s.payments[c.reference].status == PENDING
                                        && w.now <= c.createdAt + 1800 then ProcessedSuccess
                                else RejectedPolicy)
            && s'.payments == (if outcome == Saved(ProcessedSuccess)
                               then s.payments[c.reference := s.payments[c.reference].(status := SUCCESS)] else s.payments)
            && s'.dispatched == s.dispatched + (match outcome.kind
                 case ProcessedSuccess => [PaymentCompleted(c.rowId)]
                 case FraudDetected => [FraudSignalEvent(c.rowId)]
                 case _ => [])
  {
    TermsAreKept(webhooks, before, c, after);
    RunKeepsInv(webhooks, After(before, c, after));
    var s := Run(Start(webhooks), After(before, c, after));
    var row := s.payments[c.reference];
    assert FindByProvider(s.payments, row.providerReference) == Some(c.reference);
    ConfirmSuccessMeans(row, ContextOf(row, w.verification), w.now);
  }

  // ---------------------------------------------------------------- no change without its cause

  /** A delivery or a retry that reports the payment as paid, within its time. */
  predicate IsTrueReport(call: Call, c: InitiateCall) {
    match call
    case Webhooks(w) => IsAbout(w.verification, c) && w.verification.verified && w.now <= c.createdAt + 1800
    case Retry(y) => IsAbout(y.verification, c) && y.verification.verified && y.now <= c.createdAt + 1800
    case _ => false
  }

  predicate IsLateSweep(call: Call, c: InitiateCall) {
    call.Expiry? && c.createdAt + 1800 < call.e.now && c.reference in call.e.scanned
  }

  /** Within 30 days, of which the last may be begun. */
  predicate IsTimelyRefund(call: Call, c: InitiateCall) {
    call.Refund? && call.r.reference == c.reference && call.r.now - c.createdAt < 31 * 24 * 60 * 60
  }

  lemma WebhookNeedsCause(s: State, w: WebhookCall, allowExisting: bool, c: InitiateCall)
    requires UniqueRows(s.payments) && c.reference in s.payments && BearsTerms(s.payments[c.reference], c)
    ensures var row, row' := s.payments[c.reference], ProcessWebhook(s, w, allowExisting).0.payments[c.reference];
            row'.status != row.status ==>
              row.status == PENDING && row'.status == SUCCESS && IsTrueReport(Webhooks(w), c)
  {
    if ProcessWebhook(s, w, allowExisting).0.payments != s.payments {
      var found := FindByProvider(s.payments, w.txRef.value).value;
      var row := s.payments[found];
      ConfirmSuccessMeans(row, ContextOf(row, w.verification), w.now);
    }
  }

  lemma SweepNeedsCause(s: State, e: ExpireCall, c: InitiateCall)
    requires ScanResult(s, e.scanned, e.now) && c.reference in s.payments && BearsTerms(s.payments[c.reference], c)
    ensures var s' := ExpireStale(s, e).0;
            && c.reference in s'.payments
            && (s'.payments[c.reference].status != s.payments[c.reference].status ==>
                  && s.payments[c.reference].status in {INITIATED, PENDING}
                  && s'.payments[c.reference].status == EXPIRED && IsLateSweep(Expiry(e), c))
  {
    SweepClosesTheStale(s, e);
    var n := if e.failsAt < |e.scanned| then e.failsAt else |e.scanned|;
    assert forall r | r in e.scanned[..n] :: r in e.scanned;
  }

  /** Each change of status has its own cause. */
  lemma StepNeedsCause(s: State, call: Call, c: InitiateCall)
    requires UniqueRows(s.payments) && c.reference in s.payments && BearsTerms(s.payments[c.reference], c)
    ensures var s' := Step(s, call).0;
            && c.reference in s'.payments
            && (var before, after := s.payments[c.reference].status, s'.payments[c.reference].status;
                before != after ==>
                  || (before == PENDING && after == SUCCESS && IsTrueReport(call, c))
                  || (before in {INITIATED, PENDING} && after == EXPIRED && IsLateSweep(call, c))
                  || (before == SUCCESS && after == REFUND_REQUESTED && IsTimelyRefund(call, c)))
  {
    match call
    case Initiation(_) =>
    case Webhooks(w) => WebhookNeedsCause(s, w, false, c);
    case Refund(r) =>
    case Expiry(e) => if ScanResult(s, e.scanned, e.now) { SweepNeedsCause(s, e, c); }
    case Retry(y) =>
      var found := LoadRetryEvent(s.webhooks, y.providerReference, y.unreadable);
      if found.Some? {
        WebhookNeedsCause(s, WebhookCall(found.value.eventId, found.value.txRef, y.lockFree, y.verification, y.fetches, y.now,
                                         y.commits), true, c);
      }
  }

  /** What has happened to a payment has been caused by one of these calls. */
  predicate IsCaused(status: Status, calls: seq<Call>, c: InitiateCall) {
    && status in {PENDING, SUCCESS, EXPIRED, REFUND_REQUESTED}
    && (status in {SUCCESS, REFUND_REQUESTED} ==> exists call | call in calls :: IsTrueReport(call, c))
    && (status == EXPIRED ==> exists call | call in calls :: IsLateSweep(call, c))
    && (status == REFUND_REQUESTED ==> exists call | call in calls :: IsTimelyRefund(call, c))
  }

  /** In every run: a payment is SUCCESS only if after its initiation the provider has reported it as paid, with
      its own reference, amount and currency and within its 1800 seconds; EXPIRED only if a sweep has found it
      later than that; and its refund is requested only if that was done within its 30 days. */
  lemma {:induction false} NothingWithoutCause(webhooks: seq<Webhook>, before: seq<Call>, c: InitiateCall, after: seq<Call>)
    requires IsInitiated(webhooks, before, c)
    ensures var s := Run(Start(webhooks), After(before, c, after));
            c.reference in s.payments && IsCaused(s.payments[c.reference].status, after, c)
    decreases |after|
  {
    if after == [] {
      AfterNothing(webhooks, before, c);
      InitiationStoresItsTerms(Run(Start(webhooks), before), c);
    } else {
      var earlier, call := after[..|after| - 1], after[|after| - 1];
      var s := Run(Start(webhooks), After(before, c, earlier));
      NothingWithoutCause(webhooks, before, c, earlier);
      TermsAreKept(webhooks, before, c, earlier);
      RunKeepsInv(webhooks, After(before, c, earlier));
      AfterOneMore(webhooks, before, c, after);
      StepNeedsCause(s, call, c);
      assert after == earlier + [call] && call in after;
    }
  }

  // ---------------------------------------------------------------- sweeps and refunds

  /** In every run a sweep finds a payment, and closes it when no commit fails, if and only if it is still pending
      more than 1800 seconds after its initiation. */
  lemma SweepClosesExactlyWhen(webhooks: seq<Webhook>, before: seq<Call>, c: InitiateCall, after: seq<Call>, e: ExpireCall)
    requires IsInitiated(webhooks, before, c)
    requires ScanResult(Run(Start(webhooks), After(before, c, after)), e.scanned, e.now)
    ensures var s := Run(Start(webhooks), After(before, c, after));
            var (s', outcome) := Step(s, Expiry(e));
            && c.reference in s.payments && c.reference in s'.payments
            && (c.reference in e.scanned <==> s.payments[c.reference].status == PENDING && c.createdAt + 1800 < e.now)
            && (outcome.Swept? ==>
                  s'.payments[c.reference].status ==
                  if c.reference in e.scanned then EXPIRED else s.payments[c.reference].status)
  {
    TermsAreKept(webhooks, before, c, after);
    NothingWithoutCause(webhooks, before, c, after);
    SweepClosesTheStale(Run(Start(webhooks), After(before, c, after)), e);
    assert e.scanned[..|e.scanned|] == e.scanned;
  }

  /** In every run a refund is accepted if and only if the payment is SUCCESS and less than 31 days old, and then
      only its status changes. */
  lemma RefundIsAcceptedExactlyWhen(webhooks: seq<Webhook>, before: seq<Call>, c: InitiateCall, after: seq<Call>, x: RefundCall)
    requires IsInitiated(webhooks, before, c) && x.reference == c.reference
    ensures var s := Run(Start(webhooks), After(before, c, after));
            var (s', outcome) := Step(s, Refund(x));
            && c.reference in s.payments
            && (outcome == RefundAccepted <==>
                  s.payments[c.reference].status == SUCCESS && x.now - c.createdAt < 31 * 24 * 60 * 60 && x.commits)
            && s'.payments == (if outcome == RefundAccepted
                               then s.payments[c.reference := s.payments[c.reference].(status := REFUND_REQUESTED)]
                               else s.payments)
  {
    TermsAreKept(webhooks, before, c, after);
  }
}
