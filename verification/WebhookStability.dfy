/** What stays as it is while webhook workers, sweeps and refund requests interleave, and exactly when.

    Every statement here is about all continuations of a state, lease expiries included unless it says
    otherwise; the failing halves are runs, given from every start that allows them. */
module WebhookStability {
  import opened Common
  import opened PaymentDomain
  import opened PaymentProtocol
  import opened W = WebhookWorkers

  lemma {:induction false} RunConcat(s: System, a: seq<Action>, b: seq<Action>)
    ensures W.Run(s, a + b) == W.Run(W.Run(s, a), b)
    decreases |a|
  {
    if a == [] {
      assert a + b == b;
    } else {
      assert (a + b)[0] == a[0] && (a + b)[1..] == a[1..] + b;
      RunConcat(W.Step(s, a[0]), a[1..], b);
    }
  }

  lemma RunOne(s: System, a: Action)
    ensures W.Run(s, [a]) == W.Step(s, a)
  {
    assert [a][1..] == [];
    assert W.Run(s, [a]) == W.Run(W.Step(s, a), []);
  }

  // ---------------------------------------------------------------- a confirmed payment

  predicate NotExpired(s: System, r: Id) {
    r in s.payments && s.payments[r].status != EXPIRED
  }

  predicate HasReadToExpire(s: System, o: Id, r: Id) {
    o in s.outsiders && s.outsiders[o].Read? && s.outsiders[o].reference == r && s.outsiders[o].target == EXPIRED
  }

  /** Sweeps save EXPIRED and refund requests REFUND_REQUESTED. */
  predicate TargetsOk(s: System) {
    forall o | o in s.outsiders && s.outsiders[o].Read? :: s.outsiders[o].target in {EXPIRED, REFUND_REQUESTED}
  }

  predicate Confirmed(s: System, r: Id) {
    && r in s.payments && s.payments[r].status in {SUCCESS, REFUND_REQUESTED}
    && forall o | o in s.outsiders && s.outsiders[o].Read? && s.outsiders[o].reference == r ::
         s.outsiders[o].target == REFUND_REQUESTED
  }

  lemma StepKeepsConfirmed(s: System, a: Action, r: Id)
    requires Confirmed(s, r)
    ensures Confirmed(W.Step(s, a), r)
  {
    if IsWorkers(a) {
      if a.Commit? {
        if a.w in s.workers && (s.workers[a.w].phase.Verified? || s.workers[a.w].phase.Fetched?) {
          CommitConfirmsPending(s, a.w);
        }
      } else {
        OnlyCommitsChangeTables(s, a);
      }
    }
  }

  lemma {:induction false} RunKeepsConfirmed(s: System, actions: seq<Action>, r: Id)
    requires Confirmed(s, r)
    ensures Confirmed(W.Run(s, actions), r)
    decreases |actions|
  {
    if actions != [] {
      StepKeepsConfirmed(s, actions[0], r);
      RunKeepsConfirmed(W.Step(s, actions[0]), actions[1..], r);
    }
  }

  lemma {:induction false} RunKeepsTargets(s: System, actions: seq<Action>)
    requires TargetsOk(s)
    ensures TargetsOk(W.Run(s, actions))
    decreases |actions|
  {
    if actions != [] {
      var a := actions[0];
      if IsWorkers(a) {
        if a.Commit? {
          if a.w in s.workers && (s.workers[a.w].phase.Verified? || s.workers[a.w].phase.Fetched?) {
            CommitConfirmsPending(s, a.w);
          }
        } else {
          OnlyCommitsChangeTables(s, a);
        }
      }
      RunKeepsTargets(W.Step(s, a), actions[1..]);
    }
  }

  /** A confirmed payment is never shown as EXPIRED, in whatever continuation, if and only if no sweep has read
      it and not yet saved: a sweep that reads it later finds nothing to expire, and none saves twice. */
  lemma ExpiresExactlyWhenASweepHasRead(s: System, r: Id)
    requires TargetsOk(s) && r in s.payments && s.payments[r].status == SUCCESS
    ensures (forall actions :: NotExpired(W.Run(s, actions), r)) <==> !exists o :: HasReadToExpire(s, o, r)
  {
    if o :| HasReadToExpire(s, o, r) {
      RunOne(s, Save(o, true));
      assert !NotExpired(W.Run(s, [Save(o, true)]), r);
    } else {
      forall o | o in s.outsiders && s.outsiders[o].Read? && s.outsiders[o].reference == r
        ensures s.outsiders[o].target == REFUND_REQUESTED
      {
        assert !HasReadToExpire(s, o, r);
      }
      forall actions
        ensures NotExpired(W.Run(s, actions), r)
      {
        RunKeepsConfirmed(s, actions, r);
      }
    }
  }

  /** In particular for every payment that some run from a start has confirmed. */
  lemma ReachedConfirmationExpiresExactlyWhen(start: System, before: seq<Action>, r: Id)
    requires W.Start(start)
    requires var s := W.Run(start, before); r in s.payments && s.payments[r].status == SUCCESS
    ensures var s := W.Run(start, before);
            (forall actions :: NotExpired(W.Run(s, actions), r)) <==> !exists o :: HasReadToExpire(s, o, r)
  {
    RunKeepsTargets(start, before);
    ExpiresExactlyWhenASweepHasRead(W.Run(start, before), r);
  }

  // ---------------------------------------------------------------- one confirmation or two

  /** The worker has fetched the payment as PENDING, with the answer that confirms it and time left. */
  predicate ReadyToConfirm(s: System, w: Id, r: Id) {
    && w in s.workers && s.workers[w].reference == r && SawPending(s.workers[w])
    && s.workers[w].phase.v == Confirmation(s.workers[w].phase.found.value)
    && !IsExpired(s.workers[w].phase.found.value.expiresAt, s.workers[w].now)
  }

  ghost predicate Closed(s: System, r: Id) {
    TargetsOk(s) && !Open(s.payments, r) && forall w :: !ReadyToConfirm(s, w, r)
  }

  lemma CommitOfOthers(s: System, w: Id, r: Id)
    requires w in s.workers && (s.workers[w].phase.Verified? || s.workers[w].phase.Fetched?)
    requires !ReadyToConfirm(s, w, r)
    ensures Count(CommitTo(s, w).successes, r) == Count(s.successes, r)
    ensures Open(CommitTo(s, w).payments, r) ==> Open(s.payments, r)
  {
    var phase := s.workers[w].phase;
    CommitConfirmsPending(s, w);
    CountAppend(s.successes, s.workers[w].reference, r);
    if phase.Fetched? && phase.found.Some? && phase.v.Reported? {
      ConfirmSuccessMeans(phase.found.value, ContextOf(phase.found.value, phase.v), s.workers[w].now);
    }
  }

  lemma WorkerKeepsClosed(s: System, a: Action, r: Id)
    requires Closed(s, r) && IsWorkers(a)
    ensures Closed(W.Step(s, a), r) && Count(W.Step(s, a).successes, r) == Count(s.successes, r)
  {
    var s' := W.Step(s, a);
    if a.w in s.workers {
      WorkerMoves(s, a);
      if a.Commit? {
        assert !ReadyToConfirm(s, a.w, r);
        if s.workers[a.w].phase.Verified? || s.workers[a.w].phase.Fetched? {
          CommitOfOthers(s, a.w, r);
          CommitConfirmsPending(s, a.w);
        }
      } else {
        OnlyCommitsChangeTables(s, a);
        FetchedWhatIsStored(s, a);
      }
      forall w
        ensures !ReadyToConfirm(s', w, r)
      {
        assert !ReadyToConfirm(s, w, r);
      }
    }
  }

  lemma {:induction false} RunKeepsClosed(s: System, actions: seq<Action>, r: Id)
    requires Closed(s, r)
    ensures Closed(W.Run(s, actions), r) && Count(W.Run(s, actions).successes, r) == Count(s.successes, r)
    decreases |actions|
  {
    if actions != [] {
      var a := actions[0];
      if IsWorkers(a) {
        WorkerKeepsClosed(s, a, r);
      } else {
        forall w
          ensures !ReadyToConfirm(W.Step(s, a), w, r)
        {
          assert !ReadyToConfirm(s, w, r);
        }
      }
      RunKeepsClosed(W.Step(s, a), actions[1..], r);
    }
  }

  lemma ReadyConfirms(s: System, w: Id, r: Id)
    requires ReadyToConfirm(s, w, r)
    ensures exists actions :: Count(W.Run(s, actions).successes, r) > Count(s.successes, r)
  {
    var row := s.workers[w].phase.found.value;
    ConfirmSuccessMeans(row, ContextOf(row, Confirmation(row)), s.workers[w].now);
    var commit := Commit(w, true);
    RunOne(s, commit);
    CountAppend(s.successes, r, r);
    assert Count(W.Run(s, [commit]).successes, r) > Count(s.successes, r);
  }

  /** A payment that is no longer pending may be confirmed (once more) in some continuation, lease expiries
      included, if and only if a worker has already fetched it as PENDING with the confirming answer and its own
      command's time is not past the payment's. */
  lemma ConfirmedAgainExactlyWhenFetchedBefore(s: System, r: Id)
    requires TargetsOk(s) && !Open(s.payments, r)
    ensures (exists actions :: Count(W.Run(s, actions).successes, r) > Count(s.successes, r))
            <==> exists w :: ReadyToConfirm(s, w, r)
  {
    if w :| ReadyToConfirm(s, w, r) {
      ReadyConfirms(s, w, r);
    } else {
      forall actions
        ensures Count(W.Run(s, actions).successes, r) == Count(s.successes, r)
      {
        RunKeepsClosed(s, actions, r);
      }
    }
  }

  // ---------------------------------------------------------------- the record of an event

  /** No worker of the event is on its way to a save: each still has the check before it, or is past its save. */
  predicate Settled(s: System, e: Id) {
    && e in s.records
    && forall w | w in s.workers && s.workers[w].eventId == e ::
         s.workers[w].phase.Fresh? || s.workers[w].phase.Leaving? || s.workers[w].phase.Finished?
  }

  predicate HasRecord(s: System, e: Id, kind: WebhookKind) {
    e in s.records && s.records[e] == kind
  }

  lemma CommitSavesOwnRecord(s: System, w: Id, e: Id)
    requires w in s.workers && (s.workers[w].phase.Verified? || s.workers[w].phase.Fetched?)
    requires s.workers[w].eventId != e && e in s.records
    ensures HasRecord(CommitTo(s, w), e, s.records[e])
  {
  }

  lemma StepKeepsSettled(s: System, a: Action, e: Id)
    requires Settled(s, e)
    ensures Settled(W.Step(s, a), e) && W.Step(s, a).records[e] == s.records[e]
  {
    if IsWorkers(a) && a.w in s.workers {
      if a.Commit? && (s.workers[a.w].phase.Verified? || s.workers[a.w].phase.Fetched?) {
        CommitSavesOwnRecord(s, a.w, e);
        CommitConfirmsPending(s, a.w);
      }
    }
  }

  lemma {:induction false} RunKeepsSettled(s: System, actions: seq<Action>, e: Id)
    requires Settled(s, e)
    ensures Settled(W.Run(s, actions), e) && W.Run(s, actions).records[e] == s.records[e]
    decreases |actions|
  {
    if actions != [] {
      StepKeepsSettled(s, actions[0], e);
      RunKeepsSettled(W.Step(s, actions[0]), actions[1..], e);
    }
  }

  /** Some continuation replaces the PROCESSED_SUCCESS record of the event. */
  ghost predicate Replaceable(s: System, e: Id) {
    exists actions :: Replaced(s, actions, e)
  }

  ghost predicate Replaced(s: System, actions: seq<Action>, e: Id) {
    e in W.Run(s, actions).records && W.Run(s, actions).records[e] != ProcessedSuccess
  }

  lemma ReplaceableAfter(s: System, a: Action, e: Id)
    requires Replaceable(W.Step(s, a), e)
    ensures Replaceable(s, e)
  {
    var rest :| Replaced(W.Step(s, a), rest, e);
    assert ([a] + rest)[1..] == rest;
    assert W.Run(s, [a] + rest) == W.Run(W.Step(s, a), rest);
    assert Replaced(s, [a] + rest, e);
  }

  lemma ReplaceableNow(s: System, e: Id)
    requires e in s.records && s.records[e] != ProcessedSuccess
    ensures Replaceable(s, e)
  {
    assert W.Run(s, []) == s;
    assert Replaced(s, [], e);
  }

  /** A worker that is not about to confirm saves another record. */
  lemma CommitReplaces(s: System, w: Id)
    requires w in s.workers
    requires s.workers[w].phase.Fetched? || (s.workers[w].phase.Verified? && s.workers[w].phase.v.Unavailable?)
    requires !ReadyToConfirm(s, w, s.workers[w].reference)
    ensures Replaceable(s, s.workers[w].eventId)
  {
    var phase := s.workers[w].phase;
    if phase.Fetched? && phase.found.Some? && phase.v.Reported? {
      ConfirmSuccessMeans(phase.found.value, ContextOf(phase.found.value, phase.v), s.workers[w].now);
    }
    ReplaceableNow(W.Step(s, Commit(w, true)), s.workers[w].eventId);
    ReplaceableAfter(s, Commit(w, true), s.workers[w].eventId);
  }

  lemma VerifiedReplaces(s: System, w: Id)
    requires w in s.workers && s.workers[w].phase.Verified?
    requires s.workers[w].phase.v.Unavailable? || !Open(s.payments, s.workers[w].reference)
    ensures Replaceable(s, s.workers[w].eventId)
  {
    if s.workers[w].phase.v.Unavailable? {
      CommitReplaces(s, w);
    } else {
      CommitReplaces(W.Step(s, Fetch(w, true)), w);
      ReplaceableAfter(s, Fetch(w, true), s.workers[w].eventId);
    }
  }

  lemma HoldingReplaces(s: System, w: Id)
    requires w in s.workers && s.workers[w].phase.Holding?
    ensures Replaceable(s, s.workers[w].eventId)
  {
    VerifiedReplaces(W.Step(s, Verify(w, Unavailable)), w);
    ReplaceableAfter(s, Verify(w, Unavailable), s.workers[w].eventId);
  }

  lemma LockFailedReplaces(s: System, w: Id)
    requires w in s.workers && s.workers[w].phase.LockFailed?
    ensures Replaceable(s, s.workers[w].eventId)
  {
    ReplaceableNow(W.Step(s, RecordLockFailure(w, true)), s.workers[w].eventId);
    ReplaceableAfter(s, RecordLockFailure(w, true), s.workers[w].eventId);
  }

  lemma CheckedReplaces(s: System, w: Id)
    requires w in s.workers && s.workers[w].phase.Checked?
    ensures Replaceable(s, s.workers[w].eventId)
  {
    if s.workers[w].reference in s.locks {
      LockFailedReplaces(W.Step(s, Acquire(w)), w);
    } else {
      HoldingReplaces(W.Step(s, Acquire(w)), w);
    }
    ReplaceableAfter(s, Acquire(w), s.workers[w].eventId);
  }

  /** The record of a settled event never changes, whatever happens. */
  lemma SettledRecordNeverChanges(s: System, e: Id, actions: seq<Action>)
    requires Settled(s, e)
    ensures HasRecord(W.Run(s, actions), e, s.records[e])
  {
    RunKeepsSettled(s, actions, e);
  }

  /** Each worker of the event has its check before it, is past its save, or will save PROCESSED_SUCCESS too. */
  predicate SuccessIsSafe(s: System, e: Id) {
    && HasRecord(s, e, ProcessedSuccess)
    && forall w | w in s.workers && s.workers[w].eventId == e :: WillNotReplace(s, w)
  }

  predicate WillNotReplace(s: System, w: Id)
    requires w in s.workers
  {
    || s.workers[w].phase.Fresh? || s.workers[w].phase.Leaving? || s.workers[w].phase.Finished?
    || ReadyToConfirm(s, w, s.workers[w].reference)
  }

  lemma ReadyCommitRecords(s: System, w: Id)
    requires w in s.workers && ReadyToConfirm(s, w, s.workers[w].reference)
    ensures HasRecord(CommitTo(s, w), s.workers[w].eventId, ProcessedSuccess)
  {
    var row := s.workers[w].phase.found.value;
    ConfirmSuccessMeans(row, ContextOf(row, Confirmation(row)), s.workers[w].now);
  }

  lemma CommitKeepsSuccessSafe(s: System, w: Id, commits: bool, e: Id)
    requires SuccessIsSafe(s, e) && w in s.workers
    ensures SuccessIsSafe(W.Step(s, Commit(w, commits)), e)
  {
    var s' := W.Step(s, Commit(w, commits));
    if s.workers[w].phase.Verified? || s.workers[w].phase.Fetched? {
      if s.workers[w].eventId == e {
        assert WillNotReplace(s, w);
        ReadyCommitRecords(s, w);
      } else {
        CommitSavesOwnRecord(s, w, e);
      }
      CommitConfirmsPending(s, w);
    }
    forall v | v in s'.workers && s'.workers[v].eventId == e
      ensures WillNotReplace(s', v)
    {
      assert WillNotReplace(s, v);
    }
  }

  lemma StepKeepsProgram(s: System, a: Action, w: Id)
    ensures var s' := W.Step(s, a);
            && (w in s'.workers <==> w in s.workers)
            && (w in s.workers ==> s'.workers[w] == s.workers[w].(phase := s'.workers[w].phase))
  {
    if IsWorkers(a) && a.w in s.workers {
      WorkerMoves(s, a);
    }
  }

  lemma OtherStepKeepsRecord(s: System, a: Action, e: Id)
    requires SuccessIsSafe(s, e) && !a.Commit?
    ensures HasRecord(W.Step(s, a), e, ProcessedSuccess)
  {
    if a.RecordLockFailure? && a.w in s.workers && s.workers[a.w].eventId == e {
      assert WillNotReplace(s, a.w);
    }
  }

  lemma OtherStepKeepsWorker(s: System, a: Action, v: Id)
    requires !a.Commit? && v in s.workers && WillNotReplace(s, v) && s.workers[v].eventId in s.records
    ensures v in W.Step(s, a).workers && WillNotReplace(W.Step(s, a), v)
  {
    if IsWorkers(a) && a.w != v {
      if a.w in s.workers {
        WorkerMoves(s, a);
      }
    }
  }

  lemma OtherStepKeepsSuccessSafe(s: System, a: Action, e: Id)
    requires SuccessIsSafe(s, e) && !a.Commit?
    ensures SuccessIsSafe(W.Step(s, a), e)
  {
    OtherStepKeepsRecord(s, a, e);
    var s' := W.Step(s, a);
    forall v | v in s'.workers && s'.workers[v].eventId == e
      ensures WillNotReplace(s', v)
    {
      StepKeepsProgram(s, a, v);
      OtherStepKeepsWorker(s, a, v);
    }
  }

  lemma {:induction false} RunKeepsSuccessSafe(s: System, actions: seq<Action>, e: Id)
    requires SuccessIsSafe(s, e)
    ensures SuccessIsSafe(W.Run(s, actions), e)
    decreases |actions|
  {
    if actions != [] {
      var a := actions[0];
      if a.Commit? && a.w in s.workers {
        CommitKeepsSuccessSafe(s, a.w, a.commits, e);
      } else if !a.Commit? {
        OtherStepKeepsSuccessSafe(s, a, e);
      }
      RunKeepsSuccessSafe(W.Step(s, a), actions[1..], e);
    }
  }

  /** Where PROCESSED_SUCCESS is recorded, the payment is no longer pending; workers of one event have one
      reference. */
  predicate RecordedIsClosed(s: System, e: Id) {
    HasRecord(s, e, ProcessedSuccess) ==>
      forall w | w in s.workers && s.workers[w].eventId == e :: !Open(s.payments, s.workers[w].reference)
  }

  /** A PROCESSED_SUCCESS record of a payment that is no longer pending stays in every continuation if and only
      if each worker of its event has its check before it, is past its save, or has fetched the payment as
      PENDING with the confirming answer and time left. */
  lemma SuccessRecordStaysExactlyWhenSafe(s: System, e: Id)
    requires HasRecord(s, e, ProcessedSuccess) && RecordedIsClosed(s, e)
    ensures (forall actions :: HasRecord(W.Run(s, actions), e, ProcessedSuccess)) <==> SuccessIsSafe(s, e)
  {
    if SuccessIsSafe(s, e) {
      forall actions
        ensures HasRecord(W.Run(s, actions), e, ProcessedSuccess)
      {
        RunKeepsSuccessSafe(s, actions, e);
      }
    } else {
      var w :| w in s.workers && s.workers[w].eventId == e && !WillNotReplace(s, w);
      match s.workers[w].phase {
        case Checked => CheckedReplaces(s, w);
        case LockFailed => LockFailedReplaces(s, w);
        case Holding => HoldingReplaces(s, w);
        case Verified(_) => VerifiedReplaces(s, w);
        case Fetched(_, _) => CommitReplaces(s, w);
        case _ =>
      }
      var actions :| Replaced(s, actions, e);
      assert !HasRecord(W.Run(s, actions), e, ProcessedSuccess);
    }
  }

  predicate OneReference(s: System, e: Id) {
    forall v, w | v in s.workers && w in s.workers && s.workers[v].eventId == s.workers[w].eventId == e ::
      s.workers[v].reference == s.workers[w].reference
  }

  lemma NobodyReopens(s: System, a: Action, r: Id)
    requires TargetsOk(s)
    ensures Open(W.Step(s, a).payments, r) ==> Open(s.payments, r)
  {
    if IsWorkers(a) {
      if !a.Commit? {
        OnlyCommitsChangeTables(s, a);
      } else if a.w in s.workers && (s.workers[a.w].phase.Verified? || s.workers[a.w].phase.Fetched?) {
        CommitConfirmsPending(s, a.w);
      }
    }
  }

  lemma SuccessRecordMeansClosed(s: System, w: Id, e: Id)
    requires w in s.workers && (s.workers[w].phase.Verified? || s.workers[w].phase.Fetched?)
    requires HasRecord(CommitTo(s, w), e, ProcessedSuccess) && !HasRecord(s, e, ProcessedSuccess)
    ensures s.workers[w].eventId == e && !Open(CommitTo(s, w).payments, s.workers[w].reference)
  {
  }

  lemma OnlyCommitsRecordSuccess(s: System, a: Action, e: Id)
    requires HasRecord(W.Step(s, a), e, ProcessedSuccess) && !HasRecord(s, e, ProcessedSuccess)
    ensures a.Commit? && a.w in s.workers && (s.workers[a.w].phase.Verified? || s.workers[a.w].phase.Fetched?)
    ensures HasRecord(CommitTo(s, a.w), e, ProcessedSuccess) && W.Step(s, a).payments == CommitTo(s, a.w).payments
  {
  }

  lemma StepKeepsOneReference(s: System, a: Action, e: Id)
    requires OneReference(s, e)
    ensures OneReference(W.Step(s, a), e)
  {
    var s' := W.Step(s, a);
    forall v, w | v in s'.workers && w in s'.workers && s'.workers[v].eventId == s'.workers[w].eventId == e
      ensures s'.workers[v].reference == s'.workers[w].reference
    {
      StepKeepsProgram(s, a, v);
      StepKeepsProgram(s, a, w);
    }
  }

  lemma StepKeepsRecordedClosed(s: System, a: Action, e: Id)
    requires TargetsOk(s) && OneReference(s, e) && RecordedIsClosed(s, e)
    ensures OneReference(W.Step(s, a), e) && RecordedIsClosed(W.Step(s, a), e)
  {
    StepKeepsOneReference(s, a, e);
    var s' := W.Step(s, a);
    if HasRecord(s', e, ProcessedSuccess) {
      if !HasRecord(s, e, ProcessedSuccess) {
        OnlyCommitsRecordSuccess(s, a, e);
        SuccessRecordMeansClosed(s, a.w, e);
      }
      forall w | w in s'.workers && s'.workers[w].eventId == e
        ensures !Open(s'.payments, s'.workers[w].reference)
      {
        StepKeepsProgram(s, a, w);
        NobodyReopens(s, a, s'.workers[w].reference);
      }
    }
  }

  lemma {:induction false} RunKeepsRecordedClosed(s: System, actions: seq<Action>, e: Id)
    requires TargetsOk(s) && OneReference(s, e) && RecordedIsClosed(s, e)
    ensures RecordedIsClosed(W.Run(s, actions), e)
    decreases |actions|
  {
    if actions != [] {
      StepKeepsRecordedClosed(s, actions[0], e);
      RunOne(s, actions[0]);
      RunKeepsTargets(s, [actions[0]]);
      RunKeepsRecordedClosed(W.Step(s, actions[0]), actions[1..], e);
    }
  }

  /** In particular after every run from a start whose workers of the event have one reference, and whose
      tables do not record PROCESSED_SUCCESS for a payment that is still pending. */
  lemma ReachedSuccessRecordStaysExactlyWhenSafe(start: System, before: seq<Action>, e: Id)
    requires W.Start(start) && OneReference(start, e) && RecordedIsClosed(start, e)
    requires HasRecord(W.Run(start, before), e, ProcessedSuccess)
    ensures var s := W.Run(start, before);
            (forall actions :: HasRecord(W.Run(s, actions), e, ProcessedSuccess)) <==> SuccessIsSafe(s, e)
  {
    RunKeepsRecordedClosed(start, before, e);
    SuccessRecordStaysExactlyWhenSafe(W.Run(start, before), e);
  }

  // ---------------------------------------------------------------- the trail of statuses

  /** The status that the entries of one payment lead to. */
  function Told(trail: seq<Change>, r: Id, start: Status): Status {
    if trail == [] then start
    else if trail[|trail| - 1].reference == r then trail[|trail| - 1].status
    else Told(trail[..|trail| - 1], r, start)
  }

  lemma ToldAppend(trail: seq<Change>, c: Change, r: Id, start: Status)
    ensures Told(trail + [c], r, start) == if c.reference == r then c.status else Told(trail, r, start)
  {
    assert (trail + [c])[..|trail|] == trail;
  }

  ghost predicate Tells(s0: map<Id, Row>, s: System) {
    forall r | r in s0 :: r in s.payments && s.payments[r].status == Told(s.trail, r, s0[r].status)
  }

  /** What a step may do to payments and trail: nothing, or one entry with the row that it tells. */
  predicate Writes(s: System, s': System, c: Change) {
    && s'.trail == s.trail + [c] && c.reference in s'.payments && s'.payments[c.reference].status == c.status
    && s'.payments == s.payments[c.reference := s'.payments[c.reference]]
  }

  function ChangeOf(s: System, a: Action): Change {
    if a.Save? && a.o in s.outsiders && s.outsiders[a.o].Read? then
      Change(s.outsiders[a.o].reference, s.outsiders[a.o].row.status, s.outsiders[a.o].target)
    else if a.Commit? && a.w in s.workers then Change(s.workers[a.w].reference, PENDING, SUCCESS)
    else Change(0, PENDING, PENDING)
  }

  lemma {:induction false} WorkerStepWrites(s: System, a: Action)
    requires IsWorkers(a)
    ensures var s' := WorkerStep(s, a);
            && s'.outsiders == s.outsiders
            && ((s'.payments == s.payments && s'.trail == s.trail)
                || (a.Commit? && a.w in s.workers && SawPending(s.workers[a.w]) && Writes(s, s', ChangeOf(s, a))))
  {
    if a.Commit? {
      if a.w in s.workers && (s.workers[a.w].phase.Verified? || s.workers[a.w].phase.Fetched?) {
        CommitConfirmsPending(s, a.w);
      }
    } else {
      OnlyCommitsChangeTables(s, a);
    }
  }

  lemma StepWrites(s: System, a: Action)
    ensures var s' := W.Step(s, a);
            (s'.payments == s.payments && s'.trail == s.trail) || Writes(s, s', ChangeOf(s, a))
  {
    if IsWorkers(a) {
      WorkerStepWrites(s, a);
    }
  }

  lemma StepTells(s0: map<Id, Row>, s: System, a: Action)
    requires Tells(s0, s)
    ensures Tells(s0, W.Step(s, a))
  {
    StepWrites(s, a);
    var s' := W.Step(s, a);
    if s'.trail != s.trail {
      forall r | r in s0
        ensures r in s'.payments && s'.payments[r].status == Told(s'.trail, r, s0[r].status)
      {
        ToldAppend(s.trail, ChangeOf(s, a), r, s0[r].status);
      }
    }
  }

  lemma {:induction false} RunTells(s0: map<Id, Row>, s: System, actions: seq<Action>)
    requires Tells(s0, s)
    ensures Tells(s0, W.Run(s, actions))
    decreases |actions|
  {
    if actions != [] {
      StepTells(s0, s, actions[0]);
      RunTells(s0, W.Step(s, actions[0]), actions[1..]);
    }
  }

  /** In every interleaving, lease expiries included, a payment's entries tell its stored status: entry and
      row are saved in one transaction. */
  lemma TrailTellsTheStatus(start: System, actions: seq<Action>, r: Id)
    requires W.Start(start) && r in start.payments
    ensures var s := W.Run(start, actions);
            r in s.payments && s.payments[r].status == Told(s.trail, r, start.payments[r].status)
  {
    RunTells(start.payments, start, actions);
  }

  // ---------------------------------------------------------------- when the trail is a legal one

  predicate OutsiderOk(s: System, outsider: Outsider) {
    outsider.Read? ==>
      && outsider.reference in s.payments
      && (var stored := s.payments[outsider.reference].status;
          || (&& outsider.target == EXPIRED && outsider.row.status in {INITIATED, PENDING}
              && (stored in {INITIATED, PENDING} ==> stored == outsider.row.status))
          || (outsider.target == REFUND_REQUESTED && outsider.row.status == SUCCESS))
  }

  /** Until a pending payment is confirmed, it can only expire, and nobody asks for its refund. */
  ghost predicate Unconfirmed(s0: map<Id, Row>, s: System, r: Id) {
    Open(s0, r) && Count(s.successes, r) == 0 ==>
      && r in s.payments && s.payments[r].status in {PENDING, EXPIRED}
      && forall o | o in s.outsiders && s.outsiders[o].Read? && s.outsiders[o].reference == r ::
           s.outsiders[o].target == EXPIRED
  }

  ghost predicate Orderly(s0: map<Id, Row>, s: System) {
    && W.Inv(s0, s)
    && (forall r :: Unconfirmed(s0, s, r))
    && (forall o | o in s.outsiders :: OutsiderOk(s, s.outsiders[o]))
  }

  lemma CommitKeepsUnconfirmed(s0: map<Id, Row>, s: System, w: Id, r: Id)
    requires Unconfirmed(s0, s, r)
    requires w in s.workers && (s.workers[w].phase.Verified? || s.workers[w].phase.Fetched?)
    ensures Unconfirmed(s0, CommitTo(s, w), r)
  {
    CommitConfirmsPending(s, w);
    CountAppend(s.successes, s.workers[w].reference, r);
  }

  lemma WorkerKeepsOrderly(s0: map<Id, Row>, s: System, a: Action)
    requires Orderly(s0, s) && IsWorkers(a)
    ensures Orderly(s0, W.Step(s, a))
  {
    W.StepKeepsInv(s0, s, a);
    var s' := W.Step(s, a);
    WorkerStepWrites(s, a);
    forall r
      ensures Unconfirmed(s0, s', r)
    {
      assert Unconfirmed(s0, s, r);
      if a.Commit? {
        if a.w in s.workers && (s.workers[a.w].phase.Verified? || s.workers[a.w].phase.Fetched?) {
          CommitKeepsUnconfirmed(s0, s, a.w, r);
        }
      } else {
        OnlyCommitsChangeTables(s, a);
      }
    }
    forall o | o in s'.outsiders
      ensures OutsiderOk(s', s'.outsiders[o])
    {
      assert OutsiderOk(s, s.outsiders[o]);
    }
  }

  lemma OutsiderKeepsOrderly(s0: map<Id, Row>, s: System, a: Action)
    requires Orderly(s0, s) && (a.ReadToExpire? || a.ReadToRefund? || a.Save?)
    ensures Orderly(s0, W.Step(s, a))
  {
    W.StepKeepsInv(s0, s, a);
    var s' := W.Step(s, a);
    if a.o in s.outsiders {
      assert OutsiderOk(s, s.outsiders[a.o]);
    }
    forall r
      ensures Unconfirmed(s0, s', r)
    {
      assert Unconfirmed(s0, s, r);
    }
    forall o | o in s'.outsiders
      ensures OutsiderOk(s', s'.outsiders[o])
    {
      assert OutsiderOk(s, s.outsiders[o]);
    }
  }

  lemma {:induction false} RunKeepsOrderly(s0: map<Id, Row>, s: System, actions: seq<Action>)
    requires Orderly(s0, s) && forall a | a in actions :: !a.LeaseExpires?
    ensures Orderly(s0, W.Run(s, actions))
    decreases |actions|
  {
    if actions != [] {
      var a := actions[0];
      assert a in actions;
      if IsWorkers(a) {
        WorkerKeepsOrderly(s0, s, a);
      } else {
        OutsiderKeepsOrderly(s0, s, a);
      }
      assert forall b | b in actions[1..] :: b in actions;
      RunKeepsOrderly(s0, W.Step(s, a), actions[1..]);
    }
  }

  lemma NextChangeIsLegalExactlyWhenCurrent(s0: map<Id, Row>, s: System, a: Action)
    requires Orderly(s0, s) && !a.LeaseExpires? && W.Step(s, a).trail != s.trail
    ensures var c := ChangeOf(s, a);
            && W.Step(s, a).trail == s.trail + [c] && c.reference in s.payments
            && (c.status in AllowedTransitions(s.payments[c.reference].status)
                <==> s.payments[c.reference].status == c.seen)
            && (c.status == SUCCESS ==> s.payments[c.reference].status in {PENDING, EXPIRED})
  {
    if IsWorkers(a) {
      WorkerStepWrites(s, a);
      assert Unconfirmed(s0, s, s.workers[a.w].reference);
    } else {
      StepWrites(s, a);
      assert OutsiderOk(s, s.outsiders[a.o]);
    }
  }

  /** While no lease runs out, the next entry makes an allowed transition of the stored status if and only if
      its writer saved over the status it had read.  A confirmation can only miss this by an expiry. */
  lemma LegalExactlyWhenCurrent(start: System, before: seq<Action>, a: Action)
    requires W.Start(start) && !a.LeaseExpires? && forall b | b in before :: !b.LeaseExpires?
    ensures var s := W.Run(start, before);
            var c := ChangeOf(s, a);
            W.Step(s, a).trail != s.trail ==>
              && W.Step(s, a).trail == s.trail + [c] && c.reference in s.payments
              && (c.status in AllowedTransitions(s.payments[c.reference].status)
                  <==> s.payments[c.reference].status == c.seen)
              && (c.status == SUCCESS ==> s.payments[c.reference].status in {PENDING, EXPIRED})
  {
    RunKeepsOrderly(start.payments, start, before);
    var s := W.Run(start, before);
    if W.Step(s, a).trail != s.trail {
      NextChangeIsLegalExactlyWhenCurrent(start.payments, s, a);
    }
  }
}
