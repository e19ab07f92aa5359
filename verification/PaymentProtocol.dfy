/** The payment protocol of payments/application/handlers.py and payments/tasks.py as a state machine whose
    steps are whole handler calls, and what holds over every run of calls.

    The stored state is that of payments/infrastructure/repositories.py, audit_logger.py and the after-commit
    dispatches.  Everything a call learns from outside (the provider, the clock, fresh identifiers, whether
    the lock is free and whether the commit succeeds) is part of the call. */
module PaymentProtocol {
  import opened Common
  import opened PaymentDomain

  // ---------------------------------------------------------------- stored state

  datatype WebhookKind =
    | Processing | ProcessedSuccess | RejectedUnknown | RejectedPolicy | FraudDetected
    | LockFailedRetry | VerifyFailedRetry | RejectedMissingRef

  /** The text of a stored status.  The handlers write the upper-case names; the values of the
      WebhookEvent.Status enumeration, which the retry task selects by, are the lower-case names. */
  datatype StatusText = UpperCase(kind: WebhookKind) | LowerCase(kind: WebhookKind)

  /** `txRef` is the payload's transaction reference, none when it is missing or empty. */
  datatype Webhook = Webhook(eventId: Id, status: StatusText, txRef: Option<Id>)

  datatype AuditAction =
    | Initiate | Success | Expire | RefundRequested | FraudSignal | WebhookRejected | UnknownPayment | VelocityBlock

  /** `payment` is the row the logger links the entry to: the row whose id the event names, if there is one. */
  datatype AuditEntry = AuditEntry(payment: Option<Id>, action: AuditAction)

  datatype Event = PaymentCompleted(payment: Id) | PaymentExpiredEvent(payment: Id) | FraudSignalEvent(payment: Id)

  /** Payments by reference; webhook records in the order of creation; the audit log; the events whose dispatch
      was attempted after a commit.  One that raises is logged and not attempted again. */
  datatype State = State(payments: map<Id, Row>, webhooks: seq<Webhook>, audit: seq<AuditEntry>, dispatched: seq<Event>)

  predicate Recorded(ws: seq<Webhook>, eventId: Id) {
    exists w | w in ws :: w.eventId == eventId
  }

  /** `save_event`: update or create by event id. */
  function SaveEvent(ws: seq<Webhook>, eventId: Id, kind: WebhookKind, txRef: Option<Id>): seq<Webhook> {
    if ws == [] then [Webhook(eventId, UpperCase(kind), txRef)]
    else if ws[0].eventId == eventId then [Webhook(eventId, UpperCase(kind), txRef)] + ws[1..]
    else [ws[0]] + SaveEvent(ws[1..], eventId, kind, txRef)
  }

  predicate HasRowId(payments: map<Id, Row>, id: Id) {
    exists r | r in payments :: payments[r].rowId == id
  }

  function Linked(payments: map<Id, Row>, id: Id): Option<Id> {
    if HasRowId(payments, id) then Some(id) else None
  }

  // ---------------------------------------------------------------- calls

  datatype Velocity = Within | Exceeded | Flagged

  datatype Verification = Unavailable | Reported(verified: bool, providerReference: Id, amountMinor: int, currency: Id)

  /** The three fresh identifiers are the reference, the entity's id and the id of the new table row. */
  datatype InitiateCall = InitiateCall(
    idempotencyKey: Id, userId: Id, amountMinor: int, currency: Id, environment: Environment,
    velocity: Velocity, suspicious: bool, providerReference: Option<Id>,
    reference: Id, entityId: Id, rowId: Id, createdAt: int, now: int, commits: bool)

  /** `fetches` is false when looking the payment up raises. */
  datatype WebhookCall = WebhookCall(
    eventId: Id, txRef: Option<Id>, lockFree: bool, verification: Verification, fetches: bool, now: int, commits: bool)

  datatype RefundCall = RefundCall(reference: Id, now: int, commits: bool)

  /** `failsAt` is the position whose commit fails, if there is one. */
  datatype ExpireCall = ExpireCall(scanned: seq<Id>, now: int, failsAt: nat)

  /** A retry handles the event it finds with the given circumstances; `unreadable` payloads are skipped. */
  datatype RetryCall = RetryCall(providerReference: Id, unreadable: set<Id>, lockFree: bool, verification: Verification,
                                 fetches: bool, now: int, commits: bool)

  datatype Call =
    | Initiation(i: InitiateCall) | Webhooks(w: WebhookCall) | Refund(r: RefundCall)
    | Expiry(e: ExpireCall) | Retry(y: RetryCall)

  datatype Outcome =
    | Initiated(reference: Id) | Existing(reference: Id) | VelocityLimit | FlagDispatchFailed | FraudFlagged
    | PolicyRefused | GatewayFailed | IntegrityError
    | Ignored | Saved(kind: WebhookKind)
    | RefundAccepted | NotFound | NotRefundable | WindowClosed
    | Swept(count: nat)
    | MissingEvent | TerminalEvent
    | FetchFailed | CommitFailed | InvalidTransition

  // ---------------------------------------------------------------- initiate

  /** Identifiers made for the call are not in use. */
  predicate FreshIds(s: State, c: InitiateCall) {
    c.reference !in s.payments && !HasRowId(s.payments, c.rowId) && !HasRowId(s.payments, c.entityId)
    && c.entityId != c.rowId
  }

  ghost function FindByKey(payments: map<Id, Row>, key: Id): Option<Id> {
    if r :| r in payments && payments[r].idempotencyKey == key then Some(r) else None
  }

  function NewRow(c: InitiateCall, status: Status): Row
    requires c.providerReference.Some?
  {
    Row(c.rowId, c.userId, c.amountMinor, c.currency, c.environment, status, c.providerReference.value,
        c.idempotencyKey, c.createdAt, c.createdAt + EXPIRY_SECONDS)
  }

  /** A row with the terms of this call: its own user, amount, currency, environment, key and provider
      reference, and half an hour to be paid. */
  predicate BearsTerms(row: Row, c: InitiateCall) {
    && row.rowId == c.rowId && row.userId == c.userId && row.amountMinor == c.amountMinor && row.currency == c.currency
    && row.environment == c.environment && row.idempotencyKey == c.idempotencyKey
    && c.providerReference == Some(row.providerReference)
    && row.createdAt == c.createdAt && row.expiresAt == c.createdAt + 1800
  }

  /** What the call must meet to go through. */
  ghost predicate GoesThrough(payments: map<Id, Row>, c: InitiateCall) {
    && (forall r | r in payments :: payments[r].idempotencyKey != c.idempotencyKey)
    && c.velocity.Within? && !c.suspicious && c.now <= c.createdAt + 1800
    && c.providerReference.Some?
    && (forall r | r in payments :: payments[r].providerReference != c.providerReference.value)
    && c.commits
  }

  ghost predicate ProviderTaken(payments: map<Id, Row>, ref: Id) {
    exists r | r in payments :: payments[r].providerReference == ref
  }

  ghost function InitiatePayment(s: State, c: InitiateCall): (State, Outcome) {
    var existing := FindByKey(s.payments, c.idempotencyKey);
    if existing.Some? then (s, Existing(existing.value))
    else if c.velocity.Exceeded? then (s.(audit := s.audit + [AuditEntry(None, VelocityBlock)]), VelocityLimit)
    else if c.velocity.Flagged? then (s, FlagDispatchFailed)
    else if c.suspicious then (s, FraudFlagged)
    else if !InitiateAllowed(INITIATED, c.createdAt + EXPIRY_SECONDS, c.now) then (s, PolicyRefused)
    else if c.providerReference.None? then (s, GatewayFailed)
    else if PENDING !in AllowedTransitions(INITIATED) then (s, InvalidTransition)
    else if ProviderTaken(s.payments, c.providerReference.value) then (s, IntegrityError)
    else if !c.commits then (s, CommitFailed)
    else
      var payments := s.payments[c.reference := NewRow(c, PENDING)];
      (s.(payments := payments, audit := s.audit + [AuditEntry(Linked(payments, c.entityId), Initiate)]), Initiated(c.reference))
  }

  // ---------------------------------------------------------------- webhooks

  ghost function FindByProvider(payments: map<Id, Row>, ref: Id): Option<Id> {
    if r :| r in payments && payments[r].providerReference == ref then Some(r) else None
  }

  /** A committed transaction that saves the record, adds the entries and dispatches after commit. */
  ghost function Committed(s: State, w: WebhookCall, kind: WebhookKind, entries: seq<AuditEntry>,
                          events: seq<Event>): (State, Outcome)
  {
    if !w.commits then (s, CommitFailed)
    else (s.(webhooks := SaveEvent(s.webhooks, w.eventId, kind, w.txRef), audit := s.audit + entries,
             dispatched := s.dispatched + events), Saved(kind))
  }

  function ContextOf(row: Row, v: Verification): Context
    requires v.Reported?
  {
    Context(v.verified, v.providerReference, v.amountMinor, v.currency, row.environment)
  }

  /** Stage 6: the policy decides about the payment found. */
  ghost function Confirm(s: State, w: WebhookCall, reference: Id): (State, Outcome)
    requires reference in s.payments && w.verification.Reported?
  {
    var row := s.payments[reference];
    var policy := ConfirmSuccess(row, ContextOf(row, w.verification), w.now);
    if policy.fraudSignal then
      Committed(s, w, FraudDetected, [AuditEntry(Some(row.rowId), FraudSignal)], [FraudSignalEvent(row.rowId)])
    else if policy.allowed then
      if SUCCESS !in AllowedTransitions(row.status) then (s, InvalidTransition)
      else if !w.commits then (s, CommitFailed)
      else Committed(s.(payments := s.payments[reference := row.(status := SUCCESS)]), w, ProcessedSuccess,
                     [AuditEntry(Some(row.rowId), Success)], [PaymentCompleted(row.rowId)])
    else
      Committed(s, w, RejectedPolicy, [AuditEntry(Some(row.rowId), WebhookRejected)], [])
  }

  ghost function ProcessWebhook(s: State, w: WebhookCall, allowExisting: bool): (State, Outcome) {
    if !allowExisting && Recorded(s.webhooks, w.eventId) then (s, Ignored)
    else if w.txRef.None? then Committed(s, w, RejectedMissingRef, [], [])
    else if !w.lockFree then Committed(s, w, LockFailedRetry, [], [])
    else if w.verification.Unavailable? then Committed(s, w, VerifyFailedRetry, [], [])
    else if !w.fetches then (s, FetchFailed)
    else
      var found := FindByProvider(s.payments, w.txRef.value);
      if found.None? then Committed(s, w, RejectedUnknown, [AuditEntry(None, UnknownPayment)], [])
      else Confirm(s, w, found.value)
  }

  // ---------------------------------------------------------------- retry

  predicate IsRetryable(status: StatusText) {
    status in {LowerCase(Processing), LowerCase(LockFailedRetry), LowerCase(VerifyFailedRetry)}
  }

  predicate IsTerminal(status: StatusText) {
    status in {LowerCase(ProcessedSuccess), LowerCase(RejectedUnknown), LowerCase(RejectedPolicy),
               LowerCase(FraudDetected), LowerCase(RejectedMissingRef)}
  }

  predicate IsCandidate(w: Webhook, providerReference: Id, unreadable: set<Id>) {
    (IsRetryable(w.status) || IsTerminal(w.status)) && w.eventId !in unreadable && w.txRef == Some(providerReference)
  }

  /** `_load_retry_event`: the newest candidate. */
  function LoadRetryEvent(ws: seq<Webhook>, providerReference: Id, unreadable: set<Id>): Option<Webhook> {
    if ws == [] then None
    else if IsCandidate(ws[|ws| - 1], providerReference, unreadable) then Some(ws[|ws| - 1])
    else LoadRetryEvent(ws[..|ws| - 1], providerReference, unreadable)
  }

  ghost function ProcessRetry(s: State, y: RetryCall): (State, Outcome) {
    var found := LoadRetryEvent(s.webhooks, y.providerReference, y.unreadable);
    if found.None? then (s, MissingEvent)
    else if IsTerminal(found.value.status) then (s, TerminalEvent)
    else
      ProcessWebhook(s, WebhookCall(found.value.eventId, found.value.txRef, y.lockFree, y.verification, y.fetches, y.now,
                                    y.commits), true)
  }

  // ---------------------------------------------------------------- refund and expiry

  const REFUND_WINDOW_DAYS := 30

  /** `timedelta.days` */
  function Days(seconds: int): int {
    seconds / 86400
  }

  ghost function RequestRefund(s: State, r: RefundCall): (State, Outcome) {
    if r.reference !in s.payments then (s, NotFound)
    else
      var row := s.payments[r.reference];
      if row.status != SUCCESS then (s, NotRefundable)
      else if Days(r.now - row.createdAt) > REFUND_WINDOW_DAYS then (s, WindowClosed)
      else if REFUND_REQUESTED !in AllowedTransitions(row.status) then (s, InvalidTransition)
      else if !r.commits then (s, CommitFailed)
      else (s.(payments := s.payments[r.reference := row.(status := REFUND_REQUESTED)],
               audit := s.audit + [AuditEntry(Some(row.rowId), RefundRequested)]), RefundAccepted)
  }

  /** What the scanner may return: expired open payments, each once. */
  ghost predicate ScanResult(s: State, scanned: seq<Id>, now: int) {
    && (forall i, j | 0 <= i < j < |scanned| :: scanned[i] != scanned[j])
    && (forall r :: r in scanned <==> r in s.payments && ExpireAllowed(s.payments[r], now))
  }

  ghost function ExpireOne(s: State, reference: Id): State
    requires reference in s.payments
  {
    var row := s.payments[reference];
    State(s.payments[reference := row.(status := EXPIRED)], s.webhooks,
          s.audit + [AuditEntry(Some(row.rowId), Expire)], s.dispatched + [PaymentExpiredEvent(row.rowId)])
  }

  /** The first n payments of the sweep, each in its own transaction. */
  ghost function ExpireFirst(s: State, scanned: seq<Id>, n: nat): State
    requires n <= |scanned|
  {
    if n == 0 then s
    else
      var before := ExpireFirst(s, scanned, n - 1);
      if scanned[n - 1] in before.payments then ExpireOne(before, scanned[n - 1]) else before
  }

  /** The sweep stops at the first commit that fails; the payments before it stay expired. */
  ghost function ExpireStale(s: State, e: ExpireCall): (State, Outcome) {
    if e.failsAt < |e.scanned| then (ExpireFirst(s, e.scanned, e.failsAt), CommitFailed)
    else (ExpireFirst(s, e.scanned, |e.scanned|), Swept(|e.scanned|))
  }

  // ---------------------------------------------------------------- runs

  /** A call that cannot happen (identifiers already in use, a scan that is not one) changes nothing. */
  ghost function Step(s: State, c: Call): (State, Outcome) {
    match c
    case Initiation(i) => if FreshIds(s, i) then InitiatePayment(s, i) else (s, Ignored)
    case Webhooks(w) => ProcessWebhook(s, w, false)
    case Refund(r) => RequestRefund(s, r)
    case Expiry(e) => if ScanResult(s, e.scanned, e.now) then ExpireStale(s, e) else (s, Ignored)
    case Retry(y) => ProcessRetry(s, y)
  }

  ghost function Run(s: State, calls: seq<Call>): State {
    if calls == [] then s else Step(Run(s, calls[..|calls| - 1]), calls[|calls| - 1]).0
  }

  /** No payments yet; the webhook table may hold records from elsewhere. */
  ghost function Start(webhooks: seq<Webhook>): State {
    State(map[], webhooks, [], [])
  }
}
