/** The payment handlers of payments/application/handlers.py and the retry task of payments/tasks.py as they run:
    they change the tables, the log and the locks step by step, inside transactions that commit or roll back. */
module PaymentHandlers {
  import opened Common
  import opened PaymentDomain
  import opened PaymentProtocol
  import PaymentRuns

  // ---------------------------------------------------------------- what the look-ups find

  lemma SavedRowIsLinked(payments: map<Id, Row>, r: Id, row: Row)
    ensures Linked(payments[r := row], row.rowId) == Some(row.rowId)
  {
    assert payments[r := row][r].rowId == row.rowId;
  }

  /** Saving PROCESSING first leaves no trace: only the last save of a transaction counts. */
  lemma {:induction false} LastSaveCounts(ws: seq<Webhook>, eventId: Id, first: WebhookKind, last: WebhookKind, txRef: Option<Id>)
    ensures SaveEvent(SaveEvent(ws, eventId, first, txRef), eventId, last, txRef) == SaveEvent(ws, eventId, last, txRef)
  {
    if ws == [] {
      assert SaveEvent(ws, eventId, first, txRef)[1..] == [];
    } else if ws[0].eventId == eventId {
      assert SaveEvent(ws, eventId, first, txRef)[1..] == ws[1..];
    } else {
      LastSaveCounts(ws[1..], eventId, first, last, txRef);
      assert SaveEvent(ws, eventId, first, txRef)[1..] == SaveEvent(ws[1..], eventId, first, txRef);
    }
  }

  // ---------------------------------------------------------------- the handlers

  class PaymentCommandHandlers {
    var payments: map<Id, Row>
    var webhooks: seq<Webhook>
    var audit: seq<AuditEntry>
    var dispatched: seq<Event>
    var locks: set<Id>

    function Store(): State
      reads this
    {
      State(payments, webhooks, audit, dispatched)
    }

    /** The unique columns of the payments table. */
    ghost predicate Valid()
      reads this
    {
      PaymentRuns.UniqueRows(payments)
    }

    constructor (webhooks: seq<Webhook>)
      ensures Valid() && Store() == Start(webhooks) && locks == {}
    {
      this.webhooks := webhooks;
      payments, audit, dispatched, locks := map[], [], [], {};
    }

    /** The end of `transaction.atomic`: the events go out after a commit, a failed commit restores the tables. */
    method EndTransaction(before: State, commits: bool, pending: seq<Event>)
      modifies this`payments, this`webhooks, this`audit, this`dispatched
      ensures Store() == if commits then old(Store()).(dispatched := old(dispatched) + pending)
                         else before.(dispatched := old(dispatched))
    {
      if commits {
        dispatched := dispatched + pending;
      } else {
        payments, webhooks, audit := before.payments, before.webhooks, before.audit;
      }
    }

    /** A transaction that only saves the webhook record, with at most an entry about no payment. */
    method RecordOutcome(w: WebhookCall, kind: WebhookKind, entries: seq<AuditEntry>) returns (outcome: Outcome)
      modifies this`payments, this`webhooks, this`audit, this`dispatched
      ensures (Store(), outcome) == Committed(old(Store()), w, kind, entries, [])
    {
      var before := Store();
      audit := audit + entries;
      webhooks := SaveEvent(webhooks, w.eventId, kind, w.txRef);
      EndTransaction(before, w.commits, []);
      outcome := if w.commits then Saved(kind) else CommitFailed;
    }

    /** Stage 6, under the lock of the reference and in one transaction: save PROCESSING, act on the policy's
        decision, save the final status. */
    method ApplyPolicy(w: WebhookCall, r: Id) returns (outcome: Outcome)
      requires Valid() && r in payments && w.verification.Reported?
      requires w.txRef.Some? && w.txRef.value in locks
      modifies this`payments, this`webhooks, this`audit, this`dispatched
      ensures Valid()
      ensures (Store(), outcome) == Confirm(old(Store()), w, r)
    {
      var payment := new Payment(payments[r]);
      var row := payments[r];
      SavedRowIsLinked(payments, r, row);
      assert payments[r := row] == payments;
      ConfirmSuccessMeans(row, ContextOf(row, w.verification), w.now);
      var policy := EvaluateConfirmSuccess(row, ContextOf(row, w.verification), w.now);
      var before := Store();
      webhooks := SaveEvent(webhooks, w.eventId, Processing, w.txRef);
      if policy.fraudSignal {
        audit := audit + [AuditEntry(Linked(payments, row.rowId), FraudSignal)];
        LastSaveCounts(before.webhooks, w.eventId, Processing, FraudDetected, w.txRef);
        webhooks := SaveEvent(webhooks, w.eventId, FraudDetected, w.txRef);
        EndTransaction(before, w.commits, [FraudSignalEvent(row.rowId)]);
        outcome := if w.commits then Saved(FraudDetected) else CommitFailed;
      } else if policy.allowed {
        var valid := payment.TransitionTo(SUCCESS);
        payments := payments[r := payment.ToRow()];
        PaymentRuns.MovedKeepsUnique(before.payments, r, SUCCESS);
        SavedRowIsLinked(before.payments, r, row.(status := SUCCESS));
        audit := audit + [AuditEntry(Linked(payments, row.rowId), Success)];
        LastSaveCounts(before.webhooks, w.eventId, Processing, ProcessedSuccess, w.txRef);
        webhooks := SaveEvent(webhooks, w.eventId, ProcessedSuccess, w.txRef);
        EndTransaction(before, valid && w.commits, [PaymentCompleted(row.rowId)]);
        outcome := if !valid then InvalidTransition else if w.commits then Saved(ProcessedSuccess) else CommitFailed;
      } else {
        audit := audit + [AuditEntry(Linked(payments, row.rowId), WebhookRejected)];
        LastSaveCounts(before.webhooks, w.eventId, Processing, RejectedPolicy, w.txRef);
        webhooks := SaveEvent(webhooks, w.eventId, RejectedPolicy, w.txRef);
        EndTransaction(before, w.commits, []);
        outcome := if w.commits then Saved(RejectedPolicy) else CommitFailed;
      }
    }

    /** `_process_webhook`: whatever happens, the locks are afterwards as they were before. */
    method ProcessWebhook(eventId: Id, txRef: Option<Id>, verification: Verification, fetches: bool, now: int,
                          commits: bool, allowExisting: bool)
      returns (outcome: Outcome)
      requires Valid()
      modifies this
      ensures Valid() && locks == old(locks)
      ensures var lockFree := txRef.Some? && txRef.value !in old(locks);
              (Store(), outcome) == PaymentProtocol.ProcessWebhook(
                old(Store()), WebhookCall(eventId, txRef, lockFree, verification, fetches, now, commits), allowExisting)
    {
      var w := WebhookCall(eventId, txRef, txRef.Some? && txRef.value !in locks, verification, fetches, now, commits);
      if !allowExisting && Recorded(webhooks, eventId) {
        return Ignored;
      }
      if txRef.None? {
        outcome := RecordOutcome(w, RejectedMissingRef, []);
        return;
      }
      var reference := txRef.value;
      if reference in locks {
        outcome := RecordOutcome(w, LockFailedRetry, []);
        return;
      }
      locks := locks + {reference};
      if verification.Unavailable? {
        outcome := RecordOutcome(w, VerifyFailedRetry, []);
      } else if !fetches {
        outcome := FetchFailed;
      } else if r :| r in payments && payments[r].providerReference == reference {
        outcome := ApplyPolicy(w, r);
      } else {
        outcome := RecordOutcome(w, RejectedUnknown, [AuditEntry(None, UnknownPayment)]);
      }
      locks := locks - {reference};
    }

    /** `_load_retry_event`: newest first. */
    method FindRetryEvent(providerReference: Id, unreadable: set<Id>) returns (found: Option<Webhook>)
      ensures found == LoadRetryEvent(webhooks, providerReference, unreadable)
      ensures found.Some? ==> found.value.txRef == Some(providerReference)
    {
      var i := |webhooks|;
      assert webhooks[..i] == webhooks;
      while i > 0
        invariant 0 <= i <= |webhooks|
        invariant LoadRetryEvent(webhooks, providerReference, unreadable)
               == LoadRetryEvent(webhooks[..i], providerReference, unreadable)
      {
        i := i - 1;
        assert webhooks[..i + 1][..i] == webhooks[..i];
        if IsCandidate(webhooks[i], providerReference, unreadable) {
          return Some(webhooks[i]);
        }
      }
      found := None;
    }

    /** `process_webhook_retry` */
    method ProcessWebhookRetry(providerReference: Id, unreadable: set<Id>, verification: Verification, fetches: bool,
                               now: int, commits: bool)
      returns (outcome: Outcome)
      requires Valid()
      modifies this
      ensures Valid() && locks == old(locks)
      ensures (Store(), outcome) == ProcessRetry(old(Store()),
                RetryCall(providerReference, unreadable, providerReference !in old(locks), verification, fetches, now, commits))
    {
      var found := FindRetryEvent(providerReference, unreadable);
      if found.None? {
        return MissingEvent;
      }
      if IsTerminal(found.value.status) {
        return TerminalEvent;
      }
      outcome := ProcessWebhook(found.value.eventId, found.value.txRef, verification, fetches, now, commits, true);
    }

    /** `expire_stale_payments`: one transaction for each payment of the scan, counting those expired. */
    method ExpireStalePayments(scanned: seq<Id>, now: int, failsAt: nat) returns (outcome: Outcome)
      requires Valid() && ScanResult(Store(), scanned, now)
      modifies this`payments, this`webhooks, this`audit, this`dispatched
      ensures Valid()
      ensures (Store(), outcome) == ExpireStale(old(Store()), ExpireCall(scanned, now, failsAt))
    {
      ghost var start := Store();
      var rows := payments;
      var count := 0;
      for i := 0 to |scanned|
        invariant Valid() && count == i <= failsAt
        invariant Store() == ExpireFirst(start, scanned, i)
      {
        PaymentRuns.ExpireFirstMeans(start, scanned, now, i);
        assert scanned[i] in scanned;
        var payment := new Payment(rows[scanned[i]]);
        if ExpireAllowed(payment.row, now) {
          var before := Store();
          var valid := payment.TransitionTo(EXPIRED);
          assert before.payments[scanned[i]] == payment.row;
          PaymentRuns.MovedKeepsUnique(payments, scanned[i], EXPIRED);
          SavedRowIsLinked(payments, scanned[i], payment.row.(status := EXPIRED));
          payments := payments[scanned[i] := payment.ToRow()];
          audit := audit + [AuditEntry(Linked(payments, payment.row.rowId), Expire)];
          EndTransaction(before, valid && i != failsAt, [PaymentExpiredEvent(payment.row.rowId)]);
          if !valid {
            return InvalidTransition;
          }
          if i == failsAt {
            return CommitFailed;
          }
          count := count + 1;
        }
      }
      outcome := Swept(count);
    }

    /** `request_refund` */
    method RequestRefund(reference: Id, now: int, commits: bool) returns (outcome: Outcome)
      requires Valid()
      modifies this`payments, this`webhooks, this`audit, this`dispatched
      ensures Valid()
      ensures (Store(), outcome) == PaymentProtocol.RequestRefund(old(Store()), RefundCall(reference, now, commits))
    {
      if reference !in payments {
        return NotFound;
      }
      var payment := new Payment(payments[reference]);
      if payment.status != SUCCESS {
        return NotRefundable;
      }
      if Days(now - payment.row.createdAt) > REFUND_WINDOW_DAYS {
        return WindowClosed;
      }
      var before := Store();
      var valid := payment.TransitionTo(REFUND_REQUESTED);
      PaymentRuns.MovedKeepsUnique(payments, reference, REFUND_REQUESTED);
      SavedRowIsLinked(payments, reference, payment.row.(status := REFUND_REQUESTED));
      payments := payments[reference := payment.ToRow()];
      audit := audit + [AuditEntry(Linked(payments, payment.row.rowId), RefundRequested)];
      assert dispatched + [] == dispatched;
      EndTransaction(before, valid && commits, []);
      outcome := if !valid then InvalidTransition else if commits then RefundAccepted else CommitFailed;
    }

    /** `initiate_payment`: the payment becomes PENDING in memory before it is saved for the first time. */
    method InitiatePayment(c: InitiateCall) returns (outcome: Outcome)
      requires Valid() && FreshIds(Store(), c)
      modifies this`payments, this`webhooks, this`audit, this`dispatched
      ensures Valid()
      ensures (Store(), outcome) == PaymentProtocol.InitiatePayment(old(Store()), c)
      // Nothing is stored but the payment of a call that goes through, and that with the terms of the call.
      ensures outcome.Initiated? <==> GoesThrough(old(payments), c)
      ensures outcome.Initiated? ==>
                && outcome.reference == c.reference && c.reference in payments
                && BearsTerms(payments[c.reference], c) && payments[c.reference].status == PENDING
                && payments == old(payments)[c.reference := payments[c.reference]]
      ensures !outcome.Initiated? ==> payments == old(payments)
    {
      if r :| r in payments && payments[r].idempotencyKey == c.idempotencyKey {
        return Existing(r);
      }
      if c.velocity.Exceeded? {
        audit := audit + [AuditEntry(None, VelocityBlock)];
        return VelocityLimit;
      }
      if c.velocity.Flagged? {
        return FlagDispatchFailed;
      }
      if c.suspicious {
        return FraudFlagged;
      }
      if !InitiateAllowed(INITIATED, c.createdAt + EXPIRY_SECONDS, c.now) {
        return PolicyRefused;
      }
      if c.providerReference.None? {
        return GatewayFailed;
      }
      var payment := new Payment(NewRow(c, INITIATED));
      var valid := payment.TransitionTo(PENDING);
      if !valid {
        return InvalidTransition;
      }
      var before := Store();
      var unique := forall r | r in payments :: payments[r].providerReference != c.providerReference.value;
      payments := payments[c.reference := payment.ToRow()];
      audit := audit + [AuditEntry(Linked(payments, c.entityId), Initiate)];
      assert dispatched + [] == dispatched;
      EndTransaction(before, unique && c.commits, []);
      outcome := if !unique then IntegrityError else if c.commits then Initiated(c.reference) else CommitFailed;
    }
  }
}
