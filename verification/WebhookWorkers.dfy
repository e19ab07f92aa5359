/** Webhook workers of payments/application/handlers.py interleaved step by step on shared references.

    Each delivery is handled by a worker that checks for its record, takes the lock of its reference, verifies,
    fetches the payment, commits and releases.  Expiry sweeps and refund requests run beside them: they take no
    lock, read a payment and later save what they read with another status.  The lock is a key in a cache; it
    does not say who set it, and whoever releases deletes it. */
module WebhookWorkers {
  import opened Common
  import opened PaymentDomain
  import opened PaymentProtocol

  datatype Phase =
    | Fresh | Checked | LockFailed
    | Holding | Verified(v: Verification) | Fetched(found: Option<Row>, v: Verification) | Leaving
    | Finished

  /** `now` is the time of its command, which is fixed before the first step. */
  datatype Worker = Worker(eventId: Id, reference: Id, now: int, phase: Phase)

  /** A sweep or a refund request about one payment: nothing read yet, the row it read and its new status, or
      past its one save, which may have failed or never been tried. */
  datatype Outsider = Waiting(reference: Id) | Read(reference: Id, row: Row, target: Status) | Done(reference: Id)

  /** An audit entry that comes with a new status, and the status of the row that its writer had read. */
  datatype Change = Change(reference: Id, seen: Status, status: Status)

  /** Payments by provider reference, record statuses by event, the committed SUCCESS entries (each with its
      PaymentCompleted), all entries that come with a status, the locks with the worker that set each, and the
      programs of everyone. */
  datatype System = System(
    payments: map<Id, Row>, records: map<Id, WebhookKind>, successes: seq<Id>, trail: seq<Change>,
    locks: map<Id, Id>, workers: map<Id, Worker>, outsiders: map<Id, Outsider>)

  datatype Action =
    | Check(w: Id) | Acquire(w: Id) | RecordLockFailure(w: Id, commits: bool)
    | Verify(w: Id, v: Verification) | Fetch(w: Id, fetches: bool) | Commit(w: Id, commits: bool) | Release(w: Id)
    | ReadToExpire(o: Id, now: int) | ReadToRefund(o: Id) | Save(o: Id, commits: bool)
    | LeaseExpires(reference: Id)

  function Turn(s: System, w: Id, phase: Phase): System
    requires w in s.workers
  {
    s.(workers := s.workers[w := s.workers[w].(phase := phase)])
  }

  /** Stage 6 and the earlier exits that save only a record, as one transaction. */
  ghost function CommitTo(s: System, w: Id): System
    requires w in s.workers && (s.workers[w].phase.Verified? || s.workers[w].phase.Fetched?)
  {
    var Worker(eventId, reference, now, phase) := s.workers[w];
    if phase.v.Unavailable? then s.(records := s.records[eventId := VerifyFailedRetry])
    else if phase.Verified? then s
    else if phase.found.None? then s.(records := s.records[eventId := RejectedUnknown])
    else
      var row := phase.found.value;
      var policy := ConfirmSuccess(row, ContextOf(row, phase.v), now);
      if policy.fraudSignal then s.(records := s.records[eventId := FraudDetected])
      else if policy.allowed then
        s.(payments := s.payments[reference := row.(status := SUCCESS)], successes := s.successes + [reference],
           trail := s.trail + [Change(reference, row.status, SUCCESS)], records := s.records[eventId := ProcessedSuccess])
      else s.(records := s.records[eventId := RejectedPolicy])
  }

  ghost function WorkerStep(s: System, a: Action): System
    requires IsWorkers(a)
  {
    if a.w !in s.workers then s
    else
      var Worker(eventId, reference, _, phase) := s.workers[a.w];
      match a
      case Check(w) =>
        if phase != Fresh then s else Turn(s, w, if eventId in s.records then Finished else Checked)
      case Acquire(w) =>
        if phase != Checked then s
        else if reference in s.locks then Turn(s, w, LockFailed)
        else Turn(s, w, Holding).(locks := s.locks[reference := w])
      case RecordLockFailure(w, commits) =>
        if phase != LockFailed then s
        else Turn(if commits then s.(records := s.records[eventId := LockFailedRetry]) else s, w, Finished)
      case Verify(w, v) =>
        if phase != Holding then s else Turn(s, w, Verified(v))
      case Fetch(w, fetches) =>
        if !phase.Verified? || phase.v.Unavailable? then s
        else if !fetches then Turn(s, w, Leaving)
        else Turn(s, w, Fetched(if reference in s.payments then Some(s.payments[reference]) else None, phase.v))
      case Commit(w, commits) =>
        if !phase.Fetched? && !(phase.Verified? && phase.v.Unavailable?) then s
        else Turn(if commits then CommitTo(s, w) else s, w, Leaving)
      case Release(w) =>
        if phase != Leaving then s else Turn(s, w, Finished).(locks := s.locks - {reference})
  }

  function OutsiderStep(s: System, a: Action): System
    requires a.ReadToExpire? || a.ReadToRefund? || a.Save?
  {
    if a.o !in s.outsiders then s
    else
      var outsider := s.outsiders[a.o];
      var reference := outsider.reference;
      if a.Save? then
        if !outsider.Read? then s
        else
          var done := s.(outsiders := s.outsiders[a.o := Done(reference)]);
          if !a.commits then done
          else done.(payments := s.payments[reference := outsider.row.(status := outsider.target)],
                     trail := s.trail + [Change(reference, outsider.row.status, outsider.target)])
      else if !outsider.Waiting? || reference !in s.payments then s
      else
        var row := s.payments[reference];
        if a.ReadToExpire? && ExpireAllowed(row, a.now) then
          s.(outsiders := s.outsiders[a.o := Read(reference, row, EXPIRED)])
        else if a.ReadToRefund? && row.status == SUCCESS then
          s.(outsiders := s.outsiders[a.o := Read(reference, row, REFUND_REQUESTED)])
        else s
  }

  ghost function Step(s: System, a: Action): System {
    if a.LeaseExpires? then s.(locks := s.locks - {a.reference})
    else if a.ReadToExpire? || a.ReadToRefund? || a.Save? then OutsiderStep(s, a)
    else WorkerStep(s, a)
  }

  ghost function Run(s: System, actions: seq<Action>): System
    decreases |actions|
  {
    if actions == [] then s else Run(Step(s, actions[0]), actions[1..])
  }

  /** Nobody has begun and no lock is set; the tables hold anything.  Deliveries begin with the check for
      their record; the retry task's workers skip it. */
  ghost predicate Start(s: System) {
    && s.successes == [] && s.trail == [] && s.locks == map[]
    && (forall w | w in s.workers :: s.workers[w].phase == Fresh || s.workers[w].phase == Checked)
    && (forall o | o in s.outsiders :: s.outsiders[o].Waiting?)
  }

  // ---------------------------------------------------------------- invariant

  predicate Inside(worker: Worker) {
    worker.phase.Holding? || worker.phase.Verified? || worker.phase.Fetched? || worker.phase.Leaving?
  }

  predicate Holds(workers: map<Id, Worker>, locks: map<Id, Id>, w: Id)
    requires w in workers
  {
    workers[w].reference in locks && locks[workers[w].reference] == w
  }

  predicate SetFor(workers: map<Id, Worker>, locks: map<Id, Id>, r: Id)
    requires r in locks
  {
    locks[r] in workers && workers[locks[r]].reference == r && Inside(workers[locks[r]])
  }

  /** A lock is set exactly while the worker that set it is inside. */
  ghost predicate LocksMatch(workers: map<Id, Worker>, locks: map<Id, Id>) {
    && (forall r | r in locks :: SetFor(workers, locks, r))
    && (forall w | w in workers && Inside(workers[w]) :: Holds(workers, locks, w))
  }

  function Count(successes: seq<Id>, reference: Id): nat {
    if successes == [] then 0
    else Count(successes[..|successes| - 1], reference) + if successes[|successes| - 1] == reference then 1 else 0
  }

  lemma CountAppend(successes: seq<Id>, added: Id, reference: Id)
    ensures Count(successes + [added], reference) == Count(successes, reference) + if added == reference then 1 else 0
  {
    assert (successes + [added])[..|successes|] == successes;
  }

  /** At the start the payment was PENDING: only then may it be confirmed. */
  predicate Open(payments: map<Id, Row>, reference: Id) {
    reference in payments && payments[reference].status == PENDING
  }

  predicate SawPending(worker: Worker) {
    worker.phase.Fetched? && worker.phase.found.Some? && worker.phase.found.value.status == PENDING
  }

  ghost predicate OnceOnly(s0: map<Id, Row>, s: System, reference: Id) {
    && Count(s.successes, reference) <= (if Open(s0, reference) then 1 else 0)
    && (Open(s.payments, reference) ==> Open(s0, reference) && Count(s.successes, reference) == 0)
  }

  ghost predicate Inv(s0: map<Id, Row>, s: System) {
    && LocksMatch(s.workers, s.locks)
    && (forall r :: OnceOnly(s0, s, r))
    && (forall w | w in s.workers && SawPending(s.workers[w]) ::
          Open(s0, s.workers[w].reference) && Count(s.successes, s.workers[w].reference) == 0)
    && (forall o | o in s.outsiders && s.outsiders[o].Read? :: s.outsiders[o].target != PENDING)
  }

  // ---------------------------------------------------------------- every step keeps it

  predicate IsWorkers(a: Action) {
    !a.ReadToExpire? && !a.ReadToRefund? && !a.Save? && !a.LeaseExpires?
  }

  /** How a worker may move: it enters with the free lock, stays on its side, or leaves deleting the lock. */
  predicate Moves(s: System, s': System, w: Id)
    requires w in s.workers && w in s'.workers
  {
    var reference := s.workers[w].reference;
    && s'.workers == s.workers[w := s.workers[w].(phase := s'.workers[w].phase)]
    && s'.locks == (if Inside(s.workers[w]) == Inside(s'.workers[w]) then s.locks
                    else if Inside(s'.workers[w]) then s.locks[reference := w]
                    else s.locks - {reference})
    && (Inside(s'.workers[w]) && !Inside(s.workers[w]) ==> reference !in s.locks)
  }

  lemma WorkerCommitMoves(s: System, a: Action)
    requires a.Commit? && a.w in s.workers
    ensures a.w in WorkerStep(s, a).workers && Moves(s, WorkerStep(s, a), a.w)
  {
    assert s.workers == s.workers[a.w := s.workers[a.w]];
    if s.workers[a.w].phase.Verified? || s.workers[a.w].phase.Fetched? {
      CommitConfirmsPending(s, a.w);
    }
  }

  lemma WorkerMoves(s: System, a: Action)
    requires IsWorkers(a) && a.w in s.workers
    ensures a.w in WorkerStep(s, a).workers && Moves(s, WorkerStep(s, a), a.w)
  {
    if a.Commit? {
      WorkerCommitMoves(s, a);
    } else {
      assert s.workers == s.workers[a.w := s.workers[a.w]];
    }
  }

  lemma MovesKeepLocks(s: System, s': System, w: Id)
    requires LocksMatch(s.workers, s.locks) && w in s.workers && w in s'.workers && Moves(s, s', w)
    ensures LocksMatch(s'.workers, s'.locks)
  {
    if Inside(s.workers[w]) {
      assert Holds(s.workers, s.locks, w);
    }
    forall r | r in s'.locks
      ensures SetFor(s'.workers, s'.locks, r)
    {
      if r in s.locks {
        assert SetFor(s.workers, s.locks, r);
      }
    }
    forall v | v in s'.workers && Inside(s'.workers[v])
      ensures Holds(s'.workers, s'.locks, v)
    {
      if v != w {
        assert Holds(s.workers, s.locks, v);
      }
    }
  }

  lemma WorkerKeepsLocks(s: System, a: Action)
    requires LocksMatch(s.workers, s.locks) && IsWorkers(a)
    ensures LocksMatch(WorkerStep(s, a).workers, WorkerStep(s, a).locks)
  {
    if a.w in s.workers {
      WorkerMoves(s, a);
      MovesKeepLocks(s, WorkerStep(s, a), a.w);
    }
  }

  lemma CommitConfirmsPending(s: System, w: Id)
    requires w in s.workers && (s.workers[w].phase.Verified? || s.workers[w].phase.Fetched?)
    ensures var s' := CommitTo(s, w);
            && s'.locks == s.locks && s'.workers == s.workers && s'.outsiders == s.outsiders
            && (|| (s'.payments == s.payments && s'.successes == s.successes && s'.trail == s.trail)
                || (&& SawPending(s.workers[w]) && s'.successes == s.successes + [s.workers[w].reference]
                    && s'.trail == s.trail + [Change(s.workers[w].reference, PENDING, SUCCESS)]
                    && s'.payments == s.payments[s.workers[w].reference := s.workers[w].phase.found.value.(status := SUCCESS)]))
  {
    var phase := s.workers[w].phase;
    if phase.Fetched? && phase.found.Some? && phase.v.Reported? {
      ConfirmSuccessMeans(phase.found.value, ContextOf(phase.found.value, phase.v), s.workers[w].now);
    }
  }

  lemma CommitKeepsOnce(s0: map<Id, Row>, s: System, w: Id, r: Id)
    requires OnceOnly(s0, s, r) && w in s.workers
    requires SawPending(s.workers[w]) ==> Open(s0, s.workers[w].reference) && Count(s.successes, s.workers[w].reference) == 0
    requires w in s.workers && (s.workers[w].phase.Verified? || s.workers[w].phase.Fetched?)
    ensures OnceOnly(s0, CommitTo(s, w), r)
  {
    CommitConfirmsPending(s, w);
    CountAppend(s.successes, s.workers[w].reference, r);
  }

  lemma {:induction false} CommitKeepsInv(s0: map<Id, Row>, s: System, w: Id, commits: bool)
    requires Inv(s0, s)
    ensures Inv(s0, WorkerStep(s, Commit(w, commits)))
  {
    WorkerKeepsLocks(s, Commit(w, commits));
    var s' := WorkerStep(s, Commit(w, commits));
    if s' != s && commits {
      forall r
        ensures OnceOnly(s0, s', r)
      {
        assert OnceOnly(s0, s, r);
        CommitKeepsOnce(s0, s, w, r);
      }
      CommitConfirmsPending(s, w);
      forall v | v in s'.workers && SawPending(s'.workers[v])
        ensures Open(s0, s'.workers[v].reference) && Count(s'.successes, s'.workers[v].reference) == 0
      {
        assert v != w && s'.workers[v] == s.workers[v];
        assert Holds(s.workers, s.locks, v) && Holds(s.workers, s.locks, w);
        CountAppend(s.successes, s.workers[w].reference, s.workers[v].reference);
      }
    } else {
      assert forall r :: OnceOnly(s0, s, r) ==> OnceOnly(s0, s', r);
    }
  }

  lemma OnlyCommitsChangeTables(s: System, a: Action)
    requires IsWorkers(a) && !a.Commit?
    ensures var s' := WorkerStep(s, a);
            && s'.payments == s.payments && s'.successes == s.successes && s'.outsiders == s.outsiders
            && s'.trail == s.trail
  {
  }

  /** Only a fetch shows a worker a pending payment, and then the payment is pending. */
  lemma FetchedWhatIsStored(s: System, a: Action)
    requires IsWorkers(a) && !a.Commit? && a.w in s.workers
    ensures var s' := WorkerStep(s, a);
            && a.w in s'.workers
            && (SawPending(s'.workers[a.w]) ==> SawPending(s.workers[a.w]) || Open(s.payments, s.workers[a.w].reference))
  {
  }

  lemma {:induction false} OtherWorkerStepKeepsInv(s0: map<Id, Row>, s: System, a: Action)
    requires Inv(s0, s) && IsWorkers(a) && !a.Commit?
    ensures Inv(s0, WorkerStep(s, a))
  {
    if a.w in s.workers {
      WorkerKeepsLocks(s, a);
      WorkerMoves(s, a);
      FetchedWhatIsStored(s, a);
      OnlyCommitsChangeTables(s, a);
      var s' := WorkerStep(s, a);
      assert forall r :: OnceOnly(s0, s, r) ==> OnceOnly(s0, s', r);
      assert OnceOnly(s0, s, s.workers[a.w].reference);
    }
  }

  lemma OutsiderStepKeepsInv(s0: map<Id, Row>, s: System, a: Action)
    requires Inv(s0, s) && (a.ReadToExpire? || a.ReadToRefund? || a.Save?)
    ensures Inv(s0, OutsiderStep(s, a))
  {
    var s' := OutsiderStep(s, a);
    forall r
      ensures OnceOnly(s0, s', r)
    {
      assert OnceOnly(s0, s, r);
    }
  }

  lemma StepKeepsInv(s0: map<Id, Row>, s: System, a: Action)
    requires Inv(s0, s) && !a.LeaseExpires?
    ensures Inv(s0, Step(s, a))
  {
    if a.ReadToExpire? || a.ReadToRefund? || a.Save? {
      OutsiderStepKeepsInv(s0, s, a);
    } else if a.Commit? {
      CommitKeepsInv(s0, s, a.w, a.commits);
    } else {
      OtherWorkerStepKeepsInv(s0, s, a);
    }
  }

  lemma {:induction false} RunKeepsInv(s0: map<Id, Row>, s: System, actions: seq<Action>)
    requires Inv(s0, s) && forall a | a in actions :: !a.LeaseExpires?
    ensures Inv(s0, Run(s, actions))
    decreases |actions|
  {
    if actions != [] {
      assert actions[0] in actions;
      StepKeepsInv(s0, s, actions[0]);
      assert forall a | a in actions[1..] :: a in actions;
      RunKeepsInv(s0, Step(s, actions[0]), actions[1..]);
    }
  }

  // ---------------------------------------------------------------- while no lease runs out

  /** Two workers inside for the same reference are one worker. */
  lemma MutualExclusion(s: System, actions: seq<Action>, v: Id, w: Id)
    requires Start(s) && forall a | a in actions :: !a.LeaseExpires?
    requires var t := Run(s, actions);
             && v in t.workers && w in t.workers && Inside(t.workers[v]) && Inside(t.workers[w])
             && t.workers[v].reference == t.workers[w].reference
    ensures v == w
  {
    RunKeepsInv(s.payments, s, actions);
    var t := Run(s, actions);
    assert Holds(t.workers, t.locks, v) && Holds(t.workers, t.locks, w);
  }

  /** However workers, sweeps and refund requests interleave, a payment is confirmed at most once, and never
      when it was not PENDING at the start. */
  lemma AtMostOneSuccess(s: System, actions: seq<Action>, reference: Id)
    requires Start(s) && forall a | a in actions :: !a.LeaseExpires?
    ensures Count(Run(s, actions).successes, reference) <= if Open(s.payments, reference) then 1 else 0
  {
    RunKeepsInv(s.payments, s, actions);
    assert OnceOnly(s.payments, Run(s, actions), reference);
  }

  predicate IsInsideFor(s: System, w: Id, reference: Id) {
    w in s.workers && Inside(s.workers[w]) && s.workers[w].reference == reference
  }

  /** A lock is set exactly while a worker is inside for it.  So none is left when all have finished, and a
      worker that failed to acquire one cannot have freed another's. */
  lemma LockedExactlyWhileInside(s: System, actions: seq<Action>, reference: Id)
    requires Start(s) && forall a | a in actions :: !a.LeaseExpires?
    ensures var t := Run(s, actions);
            reference in t.locks <==> exists w :: IsInsideFor(t, w, reference)
  {
    RunKeepsInv(s.payments, s, actions);
    var t := Run(s, actions);
    if reference in t.locks {
      assert SetFor(t.workers, t.locks, reference);
      assert IsInsideFor(t, t.locks[reference], reference);
    }
    if w :| IsInsideFor(t, w, reference) {
      assert Holds(t.workers, t.locks, w);
    }
  }

  lemma VerifyGoesOn(s: System, w: Id, v: Verification)
    requires w in s.workers && Inside(s.workers[w])
    ensures var t := Step(s, Verify(w, v));
            && t.locks == s.locks && w in t.workers && t.workers[w].reference == s.workers[w].reference
            && Inside(t.workers[w]) && t.workers[w].phase != Holding
  {
  }

  lemma FetchGoesOn(s: System, w: Id, fetches: bool)
    requires w in s.workers && Inside(s.workers[w]) && s.workers[w].phase != Holding
    ensures var t := Step(s, Fetch(w, fetches));
            && t.locks == s.locks && w in t.workers && t.workers[w].reference == s.workers[w].reference
            && Inside(t.workers[w]) && t.workers[w].phase != Holding
            && (t.workers[w].phase.Verified? ==> t.workers[w].phase.v.Unavailable?)
  {
  }

  lemma CommitGoesOn(s: System, w: Id, commits: bool)
    requires w in s.workers && Inside(s.workers[w]) && s.workers[w].phase != Holding
    requires s.workers[w].phase.Verified? ==> s.workers[w].phase.v.Unavailable?
    ensures var t := Step(s, Commit(w, commits));
            t.locks == s.locks && w in t.workers && t.workers[w] == s.workers[w].(phase := Leaving)
  {
    if s.workers[w].phase != Leaving {
      CommitConfirmsPending(s, w);
    }
  }

  /** From every phase inside, the worker's own remaining steps free the lock, whatever the provider answers,
      whether or not the look-up raises, whatever the policy says and whether or not the commit succeeds. */
  lemma {:induction false} EveryExitReleases(s: System, w: Id, v: Verification, fetches: bool, commits: bool)
    requires w in s.workers && Inside(s.workers[w])
    ensures var t := Run(s, [Verify(w, v), Fetch(w, fetches), Commit(w, commits), Release(w)]);
            && w in t.workers && t.workers[w].phase == Finished && t.locks == s.locks - {s.workers[w].reference}
  {
    var a := Step(s, Verify(w, v));
    var b := Step(a, Fetch(w, fetches));
    var c := Step(b, Commit(w, commits));
    VerifyGoesOn(s, w, v);
    FetchGoesOn(a, w, fetches);
    CommitGoesOn(b, w, commits);
    RunFour(s, Verify(w, v), Fetch(w, fetches), Commit(w, commits), Release(w));
  }

  lemma RunFour(s: System, a: Action, b: Action, c: Action, d: Action)
    ensures Run(s, [a, b, c, d]) == Step(Step(Step(Step(s, a), b), c), d)
  {
    assert [a, b, c, d][1..] == [b, c, d] && [b, c, d][1..] == [c, d] && [c, d][1..] == [d];
    assert Run(s, [a, b, c, d]) == Run(Step(s, a), [b, c, d]);
    assert Run(Step(s, a), [b, c, d]) == Run(Step(Step(s, a), b), [c, d]);
    assert Run(Step(Step(s, a), b), [c, d]) == Run(Step(Step(Step(s, a), b), c), [d]);
    var t := Step(Step(Step(s, a), b), c);
    assert [d][1..] == [];
    assert Run(t, [d]) == Run(Step(t, d), []);
  }

  /** While only webhook workers write, a confirmed payment stays SUCCESS. */
  lemma {:induction false} SuccessStays(s: System, actions: seq<Action>, reference: Id)
    requires forall a | a in actions :: !a.Save?
    requires reference in s.payments && s.payments[reference].status == SUCCESS
    ensures reference in Run(s, actions).payments && Run(s, actions).payments[reference].status == SUCCESS
    decreases |actions|
  {
    if actions != [] {
      var a := actions[0];
      assert a in actions;
      if a.Commit? && a.w in s.workers && (s.workers[a.w].phase.Verified? || s.workers[a.w].phase.Fetched?) {
        CommitConfirmsPending(s, a.w);
      }
      assert forall b | b in actions[1..] :: b in actions;
      SuccessStays(Step(s, a), actions[1..], reference);
    }
  }

  // ---------------------------------------------------------------- what goes wrong otherwise

  /** The answer that confirms this row. */
  function Confirmation(row: Row): Verification {
    Reported(true, row.providerReference, row.amountMinor, row.currency)
  }

  /** One worker's way to its commit, undisturbed. */
  function Way(w: Id, v: Verification): seq<Action> {
    [Acquire(w), Verify(w, v), Fetch(w, true), Commit(w, true)]
  }

  lemma ToTheFetch(s: System, w: Id, v: Verification)
    requires w in s.workers && s.workers[w].phase == Checked && v.Reported?
    requires s.workers[w].reference !in s.locks && s.workers[w].reference in s.payments
    ensures var r := s.workers[w].reference;
            Step(Step(Step(s, Acquire(w)), Verify(w, v)), Fetch(w, true))
            == Turn(s, w, Fetched(Some(s.payments[r]), v)).(locks := s.locks[r := w])
  {
    var r := s.workers[w].reference;
    var a := Step(s, Acquire(w));
    assert a == Turn(s, w, Holding).(locks := s.locks[r := w]);
    var b := Step(a, Verify(w, v));
    assert b.workers == s.workers[w := s.workers[w].(phase := Verified(v))];
    var c := Step(b, Fetch(w, true));
    assert c.workers == s.workers[w := s.workers[w].(phase := Fetched(Some(s.payments[r]), v))];
  }

  /** A worker alone with a free lock confirms the payment if it is pending and unexpired; if it is SUCCESS
      already, the worker records a refusal. */
  lemma Pass(s: System, w: Id)
    requires w in s.workers && s.workers[w].phase == Checked
    requires s.workers[w].reference !in s.locks && s.workers[w].reference in s.payments
    ensures var r := s.workers[w].reference;
            var row := s.payments[r];
            var t := Run(s, Way(w, Confirmation(row)));
            var left := Turn(s, w, Leaving).(locks := s.locks[r := w]);
            && (row.status == PENDING && !IsExpired(row.expiresAt, s.workers[w].now) ==>
                  t == left.(successes := s.successes + [r], trail := s.trail + [Change(r, PENDING, SUCCESS)],
                             payments := s.payments[r := row.(status := SUCCESS)],
                             records := s.records[s.workers[w].eventId := ProcessedSuccess]))
            && (row.status == SUCCESS ==> t == left.(records := s.records[s.workers[w].eventId := RejectedPolicy]))
  {
    var r := s.workers[w].reference;
    var row := s.payments[r];
    var v := Confirmation(row);
    RunFour(s, Acquire(w), Verify(w, v), Fetch(w, true), Commit(w, true));
    ToTheFetch(s, w, v);
    var c := Turn(s, w, Fetched(Some(row), v)).(locks := s.locks[r := w]);
    ConfirmSuccessMeans(row, ContextOf(row, v), s.workers[w].now);
    assert Turn(CommitTo(c, w), w, Leaving).workers == s.workers[w := s.workers[w].(phase := Leaving)];
  }

  /** A worker with a pending payment in hand, the confirming answer and time left confirms it. */
  lemma ReadyCommitCounts(s: System, w: Id)
    requires w in s.workers && s.workers[w].phase.Fetched? && s.workers[w].phase.found.Some?
    requires var row := s.workers[w].phase.found.value;
             s.workers[w].phase.v == Confirmation(row) && row.status == PENDING && !IsExpired(row.expiresAt, s.workers[w].now)
    ensures Step(s, Commit(w, true)).successes == s.successes + [s.workers[w].reference]
  {
    var row := s.workers[w].phase.found.value;
    ConfirmSuccessMeans(row, ContextOf(row, Confirmation(row)), s.workers[w].now);
  }

  /** If the lease runs out while a worker is between its fetch and its commit, a second worker may confirm
      the same payment and so may the first. */
  lemma ExpiredLeaseConfirmsTwice(s: System, slow: Id, fast: Id)
    requires slow in s.workers && fast in s.workers && slow != fast && s.workers[fast].phase == Checked
    requires var r := s.workers[fast].reference;
             && s.workers[slow].reference == r && Open(s.payments, r)
             && !IsExpired(s.payments[r].expiresAt, s.workers[slow].now)
             && !IsExpired(s.payments[r].expiresAt, s.workers[fast].now)
             && s.workers[slow].phase == Fetched(Some(s.payments[r]), Confirmation(s.payments[r]))
    ensures var r := s.workers[fast].reference;
            var t := Run(Step(s, LeaseExpires(r)), Way(fast, Confirmation(s.payments[r])));
            Count(Step(t, Commit(slow, true)).successes, r) == Count(s.successes, r) + 2
  {
    var r := s.workers[fast].reference;
    var row := s.payments[r];
    Pass(Step(s, LeaseExpires(r)), fast);
    var t := Run(Step(s, LeaseExpires(r)), Way(fast, Confirmation(row)));
    assert t.workers[slow] == s.workers[slow] && t.successes == s.successes + [r];
    ReadyCommitCounts(t, slow);
    CountAppend(s.successes, r, r);
    CountAppend(t.successes, r, r);
  }

  /** After its lease ran out, a worker's release frees the lock that another worker now holds. */
  lemma LateReleaseFreesAnother(s: System, slow: Id, fast: Id)
    requires slow in s.workers && fast in s.workers && slow != fast && s.workers[fast].phase == Checked
    requires s.workers[slow].phase == Leaving && s.workers[slow].reference == s.workers[fast].reference
    ensures var r := s.workers[fast].reference;
            var t := Step(Step(Step(s, LeaseExpires(r)), Acquire(fast)), Release(slow));
            IsInsideFor(t, fast, r) && r !in t.locks
  {
  }

  /** A sweep that read the payment before it was confirmed saves EXPIRED over the SUCCESS. */
  lemma SweepOverwritesSuccess(s: System, w: Id, o: Id, later: int)
    requires w in s.workers && o in s.outsiders && s.workers[w].phase == Checked
    requires var r := s.workers[w].reference;
             && r !in s.locks && s.outsiders[o] == Waiting(r) && Open(s.payments, r)
             && !IsExpired(s.payments[r].expiresAt, s.workers[w].now) && IsExpired(s.payments[r].expiresAt, later)
    ensures var r := s.workers[w].reference;
            var t := Run(Step(s, ReadToExpire(o, later)), Way(w, Confirmation(s.payments[r])));
            var t' := Step(t, Save(o, true));
            && r in t.payments && t.payments[r].status == SUCCESS && t'.payments[r].status == EXPIRED
            && Count(t'.successes, r) == Count(s.successes, r) + 1
  {
    var r := s.workers[w].reference;
    var t := Step(s, ReadToExpire(o, later));
    assert t == s.(outsiders := s.outsiders[o := Read(r, s.payments[r], EXPIRED)]);
    Pass(t, w);
    CountAppend(s.successes, r, r);
  }

  /** Two deliveries of one event that both passed the check before either was recorded: the second one finds
      the payment confirmed, is refused by the policy, and overwrites the PROCESSED_SUCCESS record. */
  lemma ConcurrentRedeliveryRewritesTheRecord(s: System, v: Id, w: Id)
    requires v in s.workers && w in s.workers && v != w && s.workers[v].phase == s.workers[w].phase == Checked
    requires s.workers[v].eventId == s.workers[w].eventId && s.workers[v].reference == s.workers[w].reference
    requires var r := s.workers[v].reference;
             r !in s.locks && Open(s.payments, r) && !IsExpired(s.payments[r].expiresAt, s.workers[v].now)
    ensures var r := s.workers[v].reference;
            var event := s.workers[v].eventId;
            var t := Run(s, Way(v, Confirmation(s.payments[r])));
            var t' := Run(Step(t, Release(v)), Way(w, Confirmation(s.payments[r])));
            && event in t.records && t.records[event] == ProcessedSuccess
            && event in t'.records && t'.records[event] == RejectedPolicy && t'.successes == s.successes + [r]
  {
    var r := s.workers[v].reference;
    var row := s.payments[r];
    Pass(s, v);
    var t := Step(Run(s, Way(v, Confirmation(row))), Release(v));
    assert t.workers[w] == s.workers[w] && r !in t.locks && t.payments[r] == row.(status := SUCCESS);
    assert Confirmation(t.payments[r]) == Confirmation(row);
    Pass(t, w);
  }
}
