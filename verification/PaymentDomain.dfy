/** The payment entity and policy of payments/domain/entities.py and payments/domain/policy.py. */
module PaymentDomain {
  import opened Common

  /** References, keys, users and row identifiers. */
  type Id = int

  datatype Status = INITIATED | PENDING | SUCCESS | FAILED | CANCELLED | EXPIRED | REFUND_REQUESTED | REFUNDED
  datatype Environment = Test | Live

  /** A stored payment.  Times are in seconds.  `rowId` is the table's own key: saving does not write the
      entity's id, so the table gives a new row an id of its own. */
  datatype Row = Row(
    rowId: Id, userId: Id, amountMinor: int, currency: Id, environment: Environment, status: Status,
    providerReference: Id, idempotencyKey: Id, createdAt: int, expiresAt: int)

  const EXPIRY_SECONDS := 1800

  /** `_allowed_transitions` */
  function AllowedTransitions(status: Status): set<Status> {
    match status
    case INITIATED => {PENDING, CANCELLED, EXPIRED}
    case PENDING => {SUCCESS, FAILED, CANCELLED, EXPIRED}
    case SUCCESS => {REFUND_REQUESTED}
    case REFUND_REQUESTED => {REFUNDED, SUCCESS}
    case _ => {}
  }

  /** How far along a payment is on its way through, if it is on the way. */
  function Stage(status: Status): nat {
    match status
    case INITIATED => 1
    case PENDING => 2
    case SUCCESS => 3
    case REFUND_REQUESTED => 4
    case REFUNDED => 5
    case _ => 0
  }

  /** A payment moves one stage on, or goes back from a requested refund to SUCCESS, or ends: cancelled or expired
      before it was paid, failed while pending. */
  lemma TransitionExactlyWhen(from: Status, to: Status)
    ensures to in AllowedTransitions(from) <==>
              || (Stage(from) > 0 && Stage(to) == Stage(from) + 1)
              || (from == REFUND_REQUESTED && to == SUCCESS)
              || (Stage(from) in {1, 2} && to in {CANCELLED, EXPIRED})
              || (from == PENDING && to == FAILED)
  {
    match from {
      case INITIATED =>
      case PENDING =>
      case SUCCESS =>
      case REFUND_REQUESTED =>
      case _ =>
    }
  }

  predicate IsPath(statuses: seq<Status>) {
    forall i | 0 <= i < |statuses| - 1 :: statuses[i + 1] in AllowedTransitions(statuses[i])
  }

  /** On every path a payment that has ended stays so, and one that is to be refunded has been paid before. */
  lemma {:induction false} PathsAreSound(statuses: seq<Status>, i: nat)
    requires IsPath(statuses) && i < |statuses|
    ensures statuses[i] in {FAILED, CANCELLED, EXPIRED, REFUNDED} ==> i == |statuses| - 1
    ensures statuses[0] in {INITIATED, PENDING} && statuses[i] in {SUCCESS, REFUND_REQUESTED, REFUNDED} ==>
              SUCCESS in statuses[..i + 1]
    decreases i
  {
    if i + 1 < |statuses| {
      TransitionExactlyWhen(statuses[i], statuses[i + 1]);
    }
    if i > 0 {
      PathsAreSound(statuses, i - 1);
      TransitionExactlyWhen(statuses[i - 1], statuses[i]);
      assert statuses[..i + 1] == statuses[..i] + [statuses[i]];
    }
  }

  predicate IsExpired(expiresAt: int, now: int) {
    expiresAt < now
  }

  /** A payment in memory. */
  class Payment {
    const row: Row
    var status: Status

    /** `_to_domain`, or a new entity. */
    constructor (row: Row)
      ensures this.row == row && status == row.status
    {
      this.row, this.status := row, row.status;
    }

    /** False stands for the raised InvalidTransitionError. */
    method TransitionTo(newStatus: Status) returns (valid: bool)
      modifies this
      ensures valid <==> newStatus in AllowedTransitions(old(status))
      ensures status == if valid then newStatus else old(status)
    {
      valid := newStatus in AllowedTransitions(status);
      if valid {
        status := newStatus;
      }
    }

    function ToRow(): Row
      reads this
    {
      row.(status := status)
    }
  }

  // ---------------------------------------------------------------- policy

  /** What the provider says about a transaction, and the environment the handler passes along. */
  datatype Context = Context(verified: bool, providerReference: Id, amountMinor: int, currency: Id, environment: Environment)

  datatype Reason =
    | NotPending | NotVerified | ReferenceMismatch | AmountMismatch | CurrencyMismatch | PaymentExpired
    | EnvironmentMismatch

  datatype PolicyResult = PolicyResult(allowed: bool, reasons: seq<Reason>, fraudSignal: bool)

  predicate Objects(row: Row, c: Context, now: int, reason: Reason) {
    match reason
    case NotPending => row.status != PENDING
    case NotVerified => !c.verified
    case ReferenceMismatch => c.providerReference != row.providerReference
    case AmountMismatch => c.amountMinor != row.amountMinor
    case CurrencyMismatch => c.currency != row.currency
    case PaymentExpired => IsExpired(row.expiresAt, now)
    case EnvironmentMismatch => row.environment != c.environment
  }

  predicate IsFraud(reason: Reason) {
    reason == ReferenceMismatch || reason == AmountMismatch || reason == CurrencyMismatch
  }

  const REASONS: seq<Reason> :=
    [NotPending, NotVerified, ReferenceMismatch, AmountMismatch, CurrencyMismatch, PaymentExpired, EnvironmentMismatch]

  /** The objections among the first n, in order. */
  ghost function Objections(row: Row, c: Context, now: int, n: nat): seq<Reason>
    requires n <= |REASONS|
  {
    if n == 0 then []
    else Objections(row, c, now, n - 1) + if Objects(row, c, now, REASONS[n - 1]) then [REASONS[n - 1]] else []
  }

  ghost function ConfirmSuccess(row: Row, c: Context, now: int): PolicyResult {
    var reasons := Objections(row, c, now, |REASONS|);
    PolicyResult(reasons == [], reasons, exists r | r in reasons :: IsFraud(r))
  }

  lemma {:induction false} ObjectionsAre(row: Row, c: Context, now: int, n: nat)
    requires n <= |REASONS|
    ensures forall r :: r in Objections(row, c, now, n) <==> r in REASONS[..n] && Objects(row, c, now, r)
  {
    if n > 0 {
      ObjectionsAre(row, c, now, n - 1);
      assert REASONS[..n] == REASONS[..n - 1] + [REASONS[n - 1]];
    }
  }

  function Position(r: Reason): nat {
    match r
    case NotPending => 0
    case NotVerified => 1
    case ReferenceMismatch => 2
    case AmountMismatch => 3
    case CurrencyMismatch => 4
    case PaymentExpired => 5
    case EnvironmentMismatch => 6
  }

  lemma ObjectionIff(row: Row, c: Context, now: int, r: Reason)
    ensures r in ConfirmSuccess(row, c, now).reasons <==> Objects(row, c, now, r)
  {
    ObjectionsAre(row, c, now, |REASONS|);
    assert REASONS[Position(r)] == r;
    assert REASONS[..|REASONS|] == REASONS;
  }

  /** A confirmation is allowed exactly when the payment is pending, its time is not past and the provider
      confirms this very payment; it signals fraud exactly when reference, amount or currency differ. */
  lemma ConfirmSuccessMeans(row: Row, c: Context, now: int)
    ensures ConfirmSuccess(row, c, now).allowed <==>
              && row.status == PENDING && now <= row.expiresAt
              && c == Context(true, row.providerReference, row.amountMinor, row.currency, row.environment)
    ensures ConfirmSuccess(row, c, now).fraudSignal <==>
              || c.providerReference != row.providerReference || c.amountMinor != row.amountMinor || c.currency != row.currency
  {
    ObjectionIff(row, c, now, NotPending);
    ObjectionIff(row, c, now, NotVerified);
    ObjectionIff(row, c, now, ReferenceMismatch);
    ObjectionIff(row, c, now, AmountMismatch);
    ObjectionIff(row, c, now, CurrencyMismatch);
    ObjectionIff(row, c, now, PaymentExpired);
    ObjectionIff(row, c, now, EnvironmentMismatch);
    var reasons := ConfirmSuccess(row, c, now).reasons;
    if reasons != [] {
      assert reasons[0] in reasons;
      ObjectionIff(row, c, now, reasons[0]);
    }
  }

  /** `_evaluate_confirm_success`: gathers the objections one by one. */
  method EvaluateConfirmSuccess(row: Row, c: Context, now: int) returns (result: PolicyResult)
    ensures result == ConfirmSuccess(row, c, now)
  {
    var fraud := false;
    var reasons: seq<Reason> := [];
    if row.status != PENDING { reasons := reasons + [NotPending]; }
    assert reasons == Objections(row, c, now, 1);
    if !c.verified { reasons := reasons + [NotVerified]; }
    assert reasons == Objections(row, c, now, 2);
    if c.providerReference != row.providerReference {
      reasons := reasons + [ReferenceMismatch];
      fraud := true;
    }
    assert reasons == Objections(row, c, now, 3);
    if c.amountMinor != row.amountMinor {
      reasons := reasons + [AmountMismatch];
      fraud := true;
    }
    assert reasons == Objections(row, c, now, 4);
    if c.currency != row.currency {
      reasons := reasons + [CurrencyMismatch];
      fraud := true;
    }
    assert reasons == Objections(row, c, now, 5);
    if IsExpired(row.expiresAt, now) { reasons := reasons + [PaymentExpired]; }
    assert reasons == Objections(row, c, now, 6);
    if row.environment != c.environment { reasons := reasons + [EnvironmentMismatch]; }
    assert reasons == Objections(row, c, now, 7);
    ConfirmSuccessMeans(row, c, now);
    result := PolicyResult(reasons == [], reasons, fraud);
  }

  predicate InitiateAllowed(status: Status, expiresAt: int, now: int) {
    status == INITIATED && !IsExpired(expiresAt, now)
  }

  predicate ExpireAllowed(row: Row, now: int) {
    (row.status == INITIATED || row.status == PENDING) && IsExpired(row.expiresAt, now)
  }
}
