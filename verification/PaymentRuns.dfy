/** What every run of payment calls keeps. */
module PaymentRuns {
  import opened Common
  import opened PaymentDomain
  import opened PaymentProtocol

  // ---------------------------------------------------------------- reading the audit log

  function After(action: AuditAction, status: Status): Status {
    match action
    case Initiate => PENDING
    case Success => SUCCESS
    case Expire => EXPIRED
    case RefundRequested => REFUND_REQUESTED
    case _ => status
  }

  /** The status that the entries of one payment lead to. */
  function Fold(audit: seq<AuditEntry>, id: Id, start: Status): Status {
    if audit == [] then start
    else
      var last := audit[|audit| - 1];
      var before := Fold(audit[..|audit| - 1], id, start);
      if last.payment == Some(id) then After(last.action, before) else before
  }

  /** Every entry of the payment that changes the status makes an allowed transition. */
  predicate Legal(audit: seq<AuditEntry>, id: Id, start: Status) {
    audit == [] ||
    (var last := audit[|audit| - 1];
     var before := Fold(audit[..|audit| - 1], id, start);
     && Legal(audit[..|audit| - 1], id, start)
     && (last.payment == Some(id) ==>
           After(last.action, before) == before || After(last.action, before) in AllowedTransitions(before)))
  }

  function Successes(audit: seq<AuditEntry>, id: Id): nat {
    if audit == [] then 0
    else Successes(audit[..|audit| - 1], id) + if audit[|audit| - 1] == AuditEntry(Some(id), Success) then 1 else 0
  }

  function Completions(events: seq<Event>, id: Id): nat {
    if events == [] then 0
    else Completions(events[..|events| - 1], id) + if events[|events| - 1] == PaymentCompleted(id) then 1 else 0
  }

  lemma AppendEntry(audit: seq<AuditEntry>, e: AuditEntry, id: Id, start: Status)
    ensures Fold(audit + [e], id, start) ==
            if e.payment == Some(id) then After(e.action, Fold(audit, id, start)) else Fold(audit, id, start)
    ensures Legal(audit + [e], id, start) <==>
              && Legal(audit, id, start)
              && (e.payment == Some(id) ==>
                    var before := Fold(audit, id, start);
                    After(e.action, before) == before || After(e.action, before) in AllowedTransitions(before))
    ensures Successes(audit + [e], id) == Successes(audit, id) + if e == AuditEntry(Some(id), Success) then 1 else 0
  {
    assert (audit + [e])[..|audit|] == audit;
  }

  lemma {:induction false} NothingAbout(audit: seq<AuditEntry>, id: Id, start: Status)
    requires forall e | e in audit :: e.payment != Some(id)
    ensures Fold(audit, id, start) == start && Legal(audit, id, start) && Successes(audit, id) == 0
    decreases |audit|
  {
    if audit != [] {
      NothingAbout(audit[..|audit| - 1], id, start);
      assert audit[|audit| - 1] in audit;
    }
  }

  lemma {:induction false} NoEventAbout(events: seq<Event>, id: Id)
    requires forall e | e in events :: e.payment != id
    ensures Completions(events, id) == 0
    decreases |events|
  {
    if events != [] {
      NoEventAbout(events[..|events| - 1], id);
      assert events[|events| - 1] in events;
    }
  }

  // ---------------------------------------------------------------- the invariant

  ghost predicate UniqueRows(payments: map<Id, Row>) {
    && (forall a, b | a in payments && b in payments && payments[a].rowId == payments[b].rowId :: a == b)
    && (forall a, b | a in payments && b in payments && payments[a].idempotencyKey == payments[b].idempotencyKey :: a == b)
    && (forall a, b | a in payments && b in payments && payments[a].providerReference == payments[b].providerReference :: a == b)
  }

  /** How often a payment with this status has been completed. */
  function Completed(status: Status): nat {
    if status == SUCCESS || status == REFUND_REQUESTED then 1 else 0
  }

  /** The audit log and the dispatched events tell the story of this row. */
  predicate Told(audit: seq<AuditEntry>, events: seq<Event>, row: Row) {
    && Fold(audit, row.rowId, PENDING) == row.status
    && Legal(audit, row.rowId, PENDING)
    && row.status in {PENDING, SUCCESS, EXPIRED, REFUND_REQUESTED}
    && Successes(audit, row.rowId) == Completions(events, row.rowId)
       == Completed(row.status)
  }

  /** Entries and events are about existing rows, and no INITIATE entry is linked to one. */
  ghost predicate Links(s: State) {
    && (forall e | e in s.audit && e.payment.Some? :: HasRowId(s.payments, e.payment.value))
    && (forall e | e in s.dispatched :: HasRowId(s.payments, e.payment))
    && (forall e | e in s.audit && e.action == Initiate :: e.payment.None?)
  }

  ghost predicate Inv(s: State) {
    UniqueRows(s.payments) && Links(s) && forall r | r in s.payments :: Told(s.audit, s.dispatched, s.payments[r])
  }

  /** The state after an entry about `row`, a status for it, and perhaps an event. */
  ghost function Moved(s: State, reference: Id, status: Status, action: AuditAction, events: seq<Event>): State
    requires reference in s.payments
  {
    var row := s.payments[reference];
    State(s.payments[reference := row.(status := status)], s.webhooks, s.audit + [AuditEntry(Some(row.rowId), action)],
          s.dispatched + events)
  }

  lemma SameRowIds(payments: map<Id, Row>, reference: Id, status: Status, id: Id)
    requires reference in payments
    ensures HasRowId(payments[reference := payments[reference].(status := status)], id) <==> HasRowId(payments, id)
  {
    var after := payments[reference := payments[reference].(status := status)];
    if r :| r in payments && payments[r].rowId == id {
      assert r in after && after[r].rowId == id;
    }
    if r :| r in after && after[r].rowId == id {
      assert r in payments && payments[r].rowId == id;
    }
  }

  lemma MovedKeepsLinks(s: State, reference: Id, status: Status, action: AuditAction, events: seq<Event>)
    requires Links(s) && reference in s.payments && action != Initiate
    requires forall e | e in events :: e.payment == s.payments[reference].rowId
    ensures Links(Moved(s, reference, status, action, events))
  {
    var s' := Moved(s, reference, status, action, events);
    assert HasRowId(s.payments, s.payments[reference].rowId);
    forall id: Id
      ensures HasRowId(s'.payments, id) <==> HasRowId(s.payments, id)
    {
      SameRowIds(s.payments, reference, status, id);
    }
  }

  /** An entry that fits the row: it says the row's new status, reached along an allowed transition, and a
      completion is dispatched exactly when it says SUCCESS. */
  predicate Fits(row: Row, status: Status, action: AuditAction, events: seq<Event>) {
    && status == After(action, row.status)
    && (status == row.status || status in AllowedTransitions(row.status))
    && (action == Success ==> row.status == PENDING && events == [PaymentCompleted(row.rowId)])
    && (action != Success ==> |events| <= 1 && forall e | e in events :: !e.PaymentCompleted?)
    && (forall e | e in events :: e.payment == row.rowId)
  }

  lemma AppendEvents(events: seq<Event>, more: seq<Event>, id: Id)
    requires |more| <= 1
    ensures Completions(events + more, id) == Completions(events, id) + if more == [PaymentCompleted(id)] then 1 else 0
  {
    if more == [] {
      assert events + more == events;
    } else {
      assert more == [more[0]];
    }
  }

  lemma FitsMeans(row: Row, status: Status, action: AuditAction, more: seq<Event>)
    requires Fits(row, status, action, more) && action != Initiate
    requires row.status in {PENDING, SUCCESS, EXPIRED, REFUND_REQUESTED}
    ensures status in {PENDING, SUCCESS, EXPIRED, REFUND_REQUESTED} && |more| <= 1
    ensures more == [PaymentCompleted(row.rowId)] <==> action == Success
    ensures Completed(status) == if action == Success then 1 else Completed(row.status)
    ensures action == Success ==> row.status == PENDING
  {
    if more != [] {
      assert more[0] in more;
    }
  }

  lemma MovedRowIsTold(audit: seq<AuditEntry>, events: seq<Event>, row: Row, status: Status, action: AuditAction,
                       more: seq<Event>)
    requires Told(audit, events, row) && Fits(row, status, action, more) && action != Initiate
    ensures Told(audit + [AuditEntry(Some(row.rowId), action)], events + more, row.(status := status))
  {
    FitsMeans(row, status, action, more);
    AppendEntry(audit, AuditEntry(Some(row.rowId), action), row.rowId, PENDING);
    AppendEvents(events, more, row.rowId);
  }

  lemma OtherRowIsTold(audit: seq<AuditEntry>, events: seq<Event>, row: Row, id: Id, action: AuditAction, more: seq<Event>)
    requires Told(audit, events, row) && row.rowId != id
    requires |more| <= 1 && forall e | e in more :: e.payment == id
    ensures Told(audit + [AuditEntry(Some(id), action)], events + more, row)
  {
    AppendEntry(audit, AuditEntry(Some(id), action), row.rowId, PENDING);
    AppendEvents(events, more, row.rowId);
    if more != [] {
      assert more[0] in more;
    }
  }

  lemma MovedKeepsUnique(payments: map<Id, Row>, reference: Id, status: Status)
    requires UniqueRows(payments) && reference in payments
    ensures UniqueRows(payments[reference := payments[reference].(status := status)])
  {
  }

  /** One row moves along an allowed transition, or stays, with the entry that says so. */
  lemma MovedKeepsInv(s: State, reference: Id, status: Status, action: AuditAction, events: seq<Event>)
    requires Inv(s) && reference in s.payments && action != Initiate
    requires Fits(s.payments[reference], status, action, events)
    ensures Inv(Moved(s, reference, status, action, events))
  {
    var s' := Moved(s, reference, status, action, events);
    MovedKeepsLinks(s, reference, status, action, events);
    MovedKeepsUnique(s.payments, reference, status);
    forall r | r in s'.payments
      ensures Told(s'.audit, s'.dispatched, s'.payments[r])
    {
      if r == reference {
        MovedRowIsTold(s.audit, s.dispatched, s.payments[reference], status, action, events);
      } else {
        OtherRowIsTold(s.audit, s.dispatched, s.payments[r], s.payments[reference].rowId, action, events);
      }
    }
  }

  lemma UnlinkedEntryKeepsInv(s: State, action: AuditAction)
    requires Inv(s)
    ensures Inv(s.(audit := s.audit + [AuditEntry(None, action)]))
  {
    var s' := s.(audit := s.audit + [AuditEntry(None, action)]);
    forall r | r in s'.payments
      ensures Told(s'.audit, s'.dispatched, s'.payments[r])
    {
      assert Told(s.audit, s.dispatched, s.payments[r]);
      AppendEntry(s.audit, AuditEntry(None, action), s.payments[r].rowId, PENDING);
    }
  }

  lemma NewRowKeepsInv(s: State, c: InitiateCall)
    requires Inv(s) && FreshIds(s, c) && c.providerReference.Some?
    requires FindByKey(s.payments, c.idempotencyKey).None? && !ProviderTaken(s.payments, c.providerReference.value)
    ensures var payments := s.payments[c.reference := NewRow(c, PENDING)];
            && Linked(payments, c.entityId) == None
            && Inv(s.(payments := payments, audit := s.audit + [AuditEntry(None, Initiate)]))
  {
    var payments := s.payments[c.reference := NewRow(c, PENDING)];
    UnlinkedEntryKeepsInv(s, Initiate);
    var t := s.(audit := s.audit + [AuditEntry(None, Initiate)]);
    assert !HasRowId(payments, c.entityId);
    NothingAbout(t.audit, c.rowId, PENDING);
    NoEventAbout(t.dispatched, c.rowId);
    forall id: Id | HasRowId(s.payments, id)
      ensures HasRowId(payments, id)
    {
      var r :| r in s.payments && s.payments[r].rowId == id;
      assert r in payments && payments[r].rowId == id;
    }
    assert Links(t.(payments := payments));
    assert UniqueRows(payments);
  }

  // ---------------------------------------------------------------- every call keeps it

  lemma InitiateKeepsInv(s: State, c: InitiateCall)
    requires Inv(s) && FreshIds(s, c)
    ensures Inv(InitiatePayment(s, c).0) && InitiatePayment(s, c).1 != InvalidTransition
  {
    var (s', outcome) := InitiatePayment(s, c);
    if outcome == VelocityLimit {
      UnlinkedEntryKeepsInv(s, VelocityBlock);
    } else if outcome.Initiated? {
      NewRowKeepsInv(s, c);
    }
  }

  /** The invariant does not speak of webhook records. */
  lemma InvIgnoresWebhooks(s: State, webhooks: seq<Webhook>)
    requires Inv(s)
    ensures Inv(s.(webhooks := webhooks))
  {
  }

  lemma ConfirmKeepsInv(s: State, w: WebhookCall, reference: Id)
    requires Inv(s) && reference in s.payments && w.verification.Reported?
    ensures Inv(Confirm(s, w, reference).0) && Confirm(s, w, reference).1 != InvalidTransition
  {
    var row := s.payments[reference];
    var context := ContextOf(row, w.verification);
    var (s', outcome) := Confirm(s, w, reference);
    ConfirmSuccessMeans(row, context, w.now);
    assert s.payments[reference := row.(status := row.status)] == s.payments;
    if outcome == Saved(FraudDetected) {
      MovedKeepsInv(s, reference, row.status, FraudSignal, [FraudSignalEvent(row.rowId)]);
      InvIgnoresWebhooks(Moved(s, reference, row.status, FraudSignal, [FraudSignalEvent(row.rowId)]), s'.webhooks);
    } else if outcome == Saved(ProcessedSuccess) {
      MovedKeepsInv(s, reference, SUCCESS, Success, [PaymentCompleted(row.rowId)]);
      InvIgnoresWebhooks(Moved(s, reference, SUCCESS, Success, [PaymentCompleted(row.rowId)]), s'.webhooks);
    } else if outcome == Saved(RejectedPolicy) {
      MovedKeepsInv(s, reference, row.status, WebhookRejected, []);
      InvIgnoresWebhooks(Moved(s, reference, row.status, WebhookRejected, []), s'.webhooks);
    }
  }

  lemma RecordKeepsInv(s: State, w: WebhookCall, kind: WebhookKind)
    requires Inv(s)
    ensures Inv(Committed(s, w, kind, [], []).0)
    ensures Inv(Committed(s, w, kind, [AuditEntry(None, UnknownPayment)], []).0)
  {
    assert s.audit + [] == s.audit && s.dispatched + [] == s.dispatched;
    var webhooks := SaveEvent(s.webhooks, w.eventId, kind, w.txRef);
    InvIgnoresWebhooks(s, webhooks);
    UnlinkedEntryKeepsInv(s.(webhooks := webhooks), UnknownPayment);
  }

  lemma WebhookKeepsInv(s: State, w: WebhookCall, allowExisting: bool)
    requires Inv(s)
    ensures Inv(ProcessWebhook(s, w, allowExisting).0) && ProcessWebhook(s, w, allowExisting).1 != InvalidTransition
  {
    if !allowExisting && Recorded(s.webhooks, w.eventId) {
    } else if w.txRef.None? {
      RecordKeepsInv(s, w, RejectedMissingRef);
    } else if !w.lockFree {
      RecordKeepsInv(s, w, LockFailedRetry);
    } else if w.verification.Unavailable? {
      RecordKeepsInv(s, w, VerifyFailedRetry);
    } else if w.fetches {
      var found := FindByProvider(s.payments, w.txRef.value);
      if found.Some? {
        ConfirmKeepsInv(s, w, found.value);
      } else {
        RecordKeepsInv(s, w, RejectedUnknown);
      }
    }
  }

  lemma RefundKeepsInv(s: State, r: RefundCall)
    requires Inv(s)
    ensures Inv(RequestRefund(s, r).0) && RequestRefund(s, r).1 != InvalidTransition
  {
    if RequestRefund(s, r).1 == RefundAccepted {
      MovedKeepsInv(s, r.reference, REFUND_REQUESTED, RefundRequested, []);
      assert s.dispatched + [] == s.dispatched;
    }
  }

  lemma ExpireOneKeepsInv(s: State, reference: Id)
    requires Inv(s) && reference in s.payments && EXPIRED in AllowedTransitions(s.payments[reference].status)
    ensures Inv(ExpireOne(s, reference))
  {
    MovedKeepsInv(s, reference, EXPIRED, Expire, [PaymentExpiredEvent(s.payments[reference].rowId)]);
  }

  /** What a sweep writes to the audit log and dispatches for the rows of these payments. */
  function ExpiryEntries(payments: map<Id, Row>, swept: seq<Id>): seq<AuditEntry>
    requires forall i | 0 <= i < |swept| :: swept[i] in payments
  {
    seq(|swept|, i requires 0 <= i < |swept| => AuditEntry(Some(payments[swept[i]].rowId), Expire))
  }

  function ExpiryEvents(payments: map<Id, Row>, swept: seq<Id>): seq<Event>
    requires forall i | 0 <= i < |swept| :: swept[i] in payments
  {
    seq(|swept|, i requires 0 <= i < |swept| => PaymentExpiredEvent(payments[swept[i]].rowId))
  }

  /** The sweep expires the first n scanned payments and leaves the rest as they were. */
  lemma {:induction false} ExpireFirstMeans(s: State, scanned: seq<Id>, now: int, n: nat)
    requires ScanResult(s, scanned, now) && n <= |scanned|
    ensures var s' := ExpireFirst(s, scanned, n);
            && s'.payments.Keys == s.payments.Keys && s'.webhooks == s.webhooks
            && forall r | r in s.payments :: s'.payments[r] ==
                 if r in scanned[..n] then s.payments[r].(status := EXPIRED) else s.payments[r]
    decreases n
  {
    if n > 0 {
      ExpireFirstMeans(s, scanned, now, n - 1);
      assert scanned[n - 1] in scanned;
      assert scanned[..n] == scanned[..n - 1] + [scanned[n - 1]];
    }
  }

  lemma ScannedAreStored(s: State, scanned: seq<Id>, now: int)
    requires ScanResult(s, scanned, now)
    ensures forall i | 0 <= i < |scanned| :: scanned[i] in s.payments
  {
    forall i | 0 <= i < |scanned|
      ensures scanned[i] in s.payments
    {
      assert scanned[i] in scanned;
    }
  }

  /** The n-th expiry writes its row's entry and event. */
  lemma NextExpiryTells(s: State, scanned: seq<Id>, now: int, n: nat)
    requires ScanResult(s, scanned, now) && 0 < n <= |scanned|
    ensures scanned[n - 1] in s.payments
    ensures var before, after := ExpireFirst(s, scanned, n - 1), ExpireFirst(s, scanned, n);
            var id := s.payments[scanned[n - 1]].rowId;
            && after.audit == before.audit + [AuditEntry(Some(id), Expire)]
            && after.dispatched == before.dispatched + [PaymentExpiredEvent(id)]
  {
    ScannedAreStored(s, scanned, now);
    ExpireFirstMeans(s, scanned, now, n - 1);
  }

  lemma {:induction false} ExpireFirstTells(s: State, scanned: seq<Id>, now: int, n: nat)
    requires ScanResult(s, scanned, now) && n <= |scanned|
    ensures forall i | 0 <= i < |scanned| :: scanned[i] in s.payments
    ensures var s' := ExpireFirst(s, scanned, n);
            && s'.audit == s.audit + ExpiryEntries(s.payments, scanned[..n])
            && s'.dispatched == s.dispatched + ExpiryEvents(s.payments, scanned[..n])
    decreases n
  {
    ScannedAreStored(s, scanned, now);
    if n > 0 {
      ExpireFirstTells(s, scanned, now, n - 1);
      NextExpiryTells(s, scanned, now, n);
    }
  }

  lemma {:induction false} ExpireFirstKeepsInv(s: State, scanned: seq<Id>, now: int, n: nat)
    requires Inv(s) && ScanResult(s, scanned, now) && n <= |scanned|
    ensures Inv(ExpireFirst(s, scanned, n))
    decreases n
  {
    if n > 0 {
      ExpireFirstKeepsInv(s, scanned, now, n - 1);
      ExpireFirstMeans(s, scanned, now, n - 1);
      var r := scanned[n - 1];
      assert r in scanned && r !in scanned[..n - 1];
      ExpireOneKeepsInv(ExpireFirst(s, scanned, n - 1), r);
    }
  }

  lemma StepKeepsInv(s: State, c: Call)
    requires Inv(s)
    ensures Inv(Step(s, c).0) && Step(s, c).1 != InvalidTransition
  {
    match c
    case Initiation(i) => if FreshIds(s, i) { InitiateKeepsInv(s, i); }
    case Webhooks(w) => WebhookKeepsInv(s, w, false);
    case Refund(r) => RefundKeepsInv(s, r);
    case Expiry(e) =>
      if ScanResult(s, e.scanned, e.now) {
        ExpireFirstKeepsInv(s, e.scanned, e.now, if e.failsAt < |e.scanned| then e.failsAt else |e.scanned|);
      }
    case Retry(y) =>
      var found := LoadRetryEvent(s.webhooks, y.providerReference, y.unreadable);
      if found.Some? {
        WebhookKeepsInv(s, WebhookCall(found.value.eventId, found.value.txRef, y.lockFree, y.verification, y.fetches, y.now,
                                       y.commits), true);
      }
  }

  lemma {:induction false} RunKeepsInv(webhooks: seq<Webhook>, calls: seq<Call>)
    ensures Inv(Run(Start(webhooks), calls))
    decreases |calls|
  {
    if calls != [] {
      RunKeepsInv(webhooks, calls[..|calls| - 1]);
      StepKeepsInv(Run(Start(webhooks), calls[..|calls| - 1]), calls[|calls| - 1]);
    }
  }

  // ---------------------------------------------------------------- the theorems

  /** In every run: a stored payment's status is what its audit entries say, starting from PENDING and along
      allowed transitions only; it has at most one SUCCESS entry, exactly as many as PaymentCompleted
      dispatches; and the next call, whatever it is, raises no InvalidTransitionError. */
  lemma AuditTellsTheStatus(webhooks: seq<Webhook>, calls: seq<Call>, reference: Id, next: Call)
    requires reference in Run(Start(webhooks), calls).payments
    ensures var s := Run(Start(webhooks), calls);
            var row := s.payments[reference];
            && Fold(s.audit, row.rowId, PENDING) == row.status && Legal(s.audit, row.rowId, PENDING)
            && Successes(s.audit, row.rowId) == Completions(s.dispatched, row.rowId) <= 1
    ensures Step(Run(Start(webhooks), calls), next).1 != InvalidTransition
  {
    RunKeepsInv(webhooks, calls);
    StepKeepsInv(Run(Start(webhooks), calls), next);
  }

  lemma {:induction false} FoldStartMatters(audit: seq<AuditEntry>, id: Id, start: Status)
    requires forall e | e in audit && e.action == Initiate :: e.payment.None?
    ensures Fold(audit, id, start) == start || Fold(audit, id, start) == Fold(audit, id, PENDING)
    ensures Fold(audit, id, PENDING) == PENDING ==> Fold(audit, id, start) == start
    decreases |audit|
  {
    if audit != [] {
      FoldStartMatters(audit[..|audit| - 1], id, start);
      assert audit[|audit| - 1] in audit;
    }
  }

  /** The INITIATE entry names the entity's id, which is not the id of the row, so it is linked to no payment:
      read from INITIATED, the linked entries give the stored status exactly when it is no longer PENDING. */
  lemma InitiationIsNotInTheTrail(webhooks: seq<Webhook>, calls: seq<Call>, reference: Id)
    requires reference in Run(Start(webhooks), calls).payments
    ensures var s := Run(Start(webhooks), calls);
            var row := s.payments[reference];
            Fold(s.audit, row.rowId, INITIATED) == row.status <==> row.status != PENDING
  {
    RunKeepsInv(webhooks, calls);
    var s := Run(Start(webhooks), calls);
    var row := s.payments[reference];
    assert Told(s.audit, s.dispatched, row);
    FoldStartMatters(s.audit, row.rowId, INITIATED);
    FoldIsNeverInitiated(s.audit, row.rowId);
  }

  lemma {:induction false} FoldIsNeverInitiated(audit: seq<AuditEntry>, id: Id)
    requires forall e | e in audit && e.action == Initiate :: e.payment.None?
    ensures Fold(audit, id, INITIATED) == INITIATED ==> Fold(audit, id, PENDING) == PENDING
    decreases |audit|
  {
    if audit != [] {
      FoldIsNeverInitiated(audit[..|audit| - 1], id);
      assert audit[|audit| - 1] in audit;
    }
  }

  /** In every run each idempotency key owns at most one payment, and initiating with a key that owns one
      answers with that payment and changes nothing. */
  lemma {:induction false} KeysOwnOnePayment(webhooks: seq<Webhook>, calls: seq<Call>, reference: Id, c: InitiateCall)
    requires var s := Run(Start(webhooks), calls);
             reference in s.payments && s.payments[reference].idempotencyKey == c.idempotencyKey
    ensures var s := Run(Start(webhooks), calls);
            && InitiatePayment(s, c) == (s, Existing(reference))
            && forall other | other in s.payments && s.payments[other].idempotencyKey == c.idempotencyKey :: other == reference
  {
    RunKeepsInv(webhooks, calls);
  }

  // ---------------------------------------------------------------- two checks that do not do what they are for

  /** The handler hands the policy the payment's own environment, so the environment check never objects. */
  lemma EnvironmentNeverObjects(row: Row, v: Verification, now: int)
    requires v.Reported?
    ensures EnvironmentMismatch !in ConfirmSuccess(row, ContextOf(row, v), now).reasons
  {
    ObjectionIff(row, ContextOf(row, v), now, EnvironmentMismatch);
  }

  /** A flagged velocity check is meant not to block: the call goes on as if nothing had been flagged exactly
      when its key already owns a payment, and otherwise ends in the dispatcher's error, changing nothing. */
  lemma FlagBlocksExactlyNewKeys(s: State, c: InitiateCall)
    requires c.velocity.Flagged?
    ensures InitiatePayment(s, c) == InitiatePayment(s, c.(velocity := Within))
            <==> exists r | r in s.payments :: s.payments[r].idempotencyKey == c.idempotencyKey
    ensures InitiatePayment(s, c).0 == s
    ensures InitiatePayment(s, c).1.Existing? || InitiatePayment(s, c).1.FlagDispatchFailed?
  {
  }

  /** The payments not yet paid whose time is over. */
  function Overdue(payments: map<Id, Row>, now: int): set<Id> {
    set r | r in payments && payments[r].status in {INITIATED, PENDING} && payments[r].expiresAt < now
  }

  lemma ScannedAreOverdue(s: State, scanned: seq<Id>, now: int)
    requires ScanResult(s, scanned, now)
    ensures forall r :: r in scanned <==> r in Overdue(s.payments, now)
    ensures Overdue(s.payments, now) == set r | r in scanned
  {
    forall r
      ensures r in scanned <==> r in Overdue(s.payments, now)
    {
    }
  }

  /** A sweep expires exactly the overdue payments in the order of its scan, up to the first commit that fails,
      with one entry and one event for each, touches nothing else, and leaves exactly the rest for the next sweep
      at the same moment.  When no commit fails it counts each of them once and leaves none. */
  lemma SweepClosesTheStale(s: State, e: ExpireCall)
    requires ScanResult(s, e.scanned, e.now)
    ensures forall r :: r in e.scanned <==> r in Overdue(s.payments, e.now)
    ensures var (s', outcome) := ExpireStale(s, e);
            var stale := |Overdue(s.payments, e.now)|;
            var n := if e.failsAt < |e.scanned| then e.failsAt else |e.scanned|;
            && stale == |e.scanned| && s'.payments.Keys == s.payments.Keys && s'.webhooks == s.webhooks
            && outcome == (if n < stale then CommitFailed else Swept(stale))
            && (forall r | r in s.payments :: s'.payments[r] ==
                  if r in e.scanned[..n] then s.payments[r].(status := EXPIRED) else s.payments[r])
            && (forall i | 0 <= i < |e.scanned| :: e.scanned[i] in s.payments)
            && s'.audit == s.audit + ExpiryEntries(s.payments, e.scanned[..n])
            && s'.dispatched == s.dispatched + ExpiryEvents(s.payments, e.scanned[..n])
            && ScanResult(s', e.scanned[n..], e.now)
  {
    var n := if e.failsAt < |e.scanned| then e.failsAt else |e.scanned|;
    ExpireFirstMeans(s, e.scanned, e.now, n);
    ExpireFirstTells(s, e.scanned, e.now, n);
    ScannedAreOverdue(s, e.scanned, e.now);
    DistinctCount(e.scanned);
  }

  lemma {:induction false} DistinctCount(xs: seq<Id>)
    requires forall i, j | 0 <= i < j < |xs| :: xs[i] != xs[j]
    ensures |set x | x in xs| == |xs|
  {
    if xs != [] {
      var first := xs[..|xs| - 1];
      DistinctCount(first);
      assert (set x | x in xs) == (set x | x in first) + {xs[|xs| - 1]};
    }
  }
}
