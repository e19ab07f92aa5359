/** A webhook worker that is not disturbed does what the handler call of the protocol does: the interleaving
    model and the whole-call model of payments/application/handlers.py agree. */
module WebhookRefinement {
  import opened Common
  import opened PaymentDomain
  import opened PaymentProtocol
  import PaymentRuns
  import PaymentWebhooks
  import opened W = WebhookWorkers

  // ---------------------------------------------------------------- one store, seen by both models

  ghost predicate SamePayments(payments: map<Id, Row>, byProvider: map<Id, Row>) {
    && (forall r | r in payments :: payments[r].providerReference in byProvider
                                    && byProvider[payments[r].providerReference] == payments[r])
    && (forall p | p in byProvider :: FindByProvider(payments, p).Some?)
  }

  ghost predicate SameRecord(webhooks: seq<Webhook>, records: map<Id, WebhookKind>, i: nat)
    requires i < |webhooks|
  {
    webhooks[i].eventId in records && (webhooks[i].status.UpperCase? ==> records[webhooks[i].eventId] == webhooks[i].status.kind)
  }

  ghost predicate SameRecords(webhooks: seq<Webhook>, records: map<Id, WebhookKind>) {
    && (forall i | 0 <= i < |webhooks| :: SameRecord(webhooks, records, i))
    && (forall e | e in records :: Recorded(webhooks, e))
  }

  /** Both tables hold the same payments, by their provider references, and the same records. */
  ghost predicate Agree(s: State, t: System) {
    && PaymentRuns.UniqueRows(s.payments) && PaymentWebhooks.UniqueIds(s.webhooks)
    && SamePayments(s.payments, t.payments) && SameRecords(s.webhooks, t.records)
  }

  lemma FoundIsThatRow(s: State, t: System, p: Id)
    requires SamePayments(s.payments, t.payments)
    ensures var found := FindByProvider(s.payments, p);
            && (found.Some? <==> p in t.payments)
            && (found.Some? ==> found.value in s.payments && s.payments[found.value] == t.payments[p]
                                && t.payments[p].providerReference == p)
  {
  }

  lemma RecordedIsThere(s: State, t: System, e: Id)
    requires SameRecords(s.webhooks, t.records)
    ensures Recorded(s.webhooks, e) <==> e in t.records
  {
    if w :| w in s.webhooks && w.eventId == e {
      var i :| 0 <= i < |s.webhooks| && s.webhooks[i] == w;
      assert SameRecord(s.webhooks, t.records, i);
    }
  }

  lemma SaveKeepsSameRecords(ws: seq<Webhook>, records: map<Id, WebhookKind>, e: Id, kind: WebhookKind, txRef: Option<Id>)
    requires PaymentWebhooks.UniqueIds(ws) && SameRecords(ws, records)
    ensures PaymentWebhooks.UniqueIds(SaveEvent(ws, e, kind, txRef))
    ensures SameRecords(SaveEvent(ws, e, kind, txRef), records[e := kind])
  {
    PaymentWebhooks.SaveEventMeans(ws, e, kind, txRef);
    var ws', records' := SaveEvent(ws, e, kind, txRef), records[e := kind];
    forall i | 0 <= i < |ws'|
      ensures SameRecord(ws', records', i)
    {
      if i < |ws| {
        assert SameRecord(ws, records, i);
      }
    }
    forall x | x in records'
      ensures Recorded(ws', x)
    {
      if x != e {
        var w :| w in ws && w.eventId == x;
        var i :| 0 <= i < |ws| && ws[i] == w;
        assert ws'[i] == w && ws'[i] in ws';
      }
    }
  }

  lemma MoveKeepsSamePayments(payments: map<Id, Row>, byProvider: map<Id, Row>, r: Id, status: Status)
    requires PaymentRuns.UniqueRows(payments) && SamePayments(payments, byProvider) && r in payments
    ensures var row := payments[r].(status := status);
            SamePayments(payments[r := row], byProvider[row.providerReference := row])
  {
    var row := payments[r].(status := status);
    var payments', byProvider' := payments[r := row], byProvider[row.providerReference := row];
    forall p | p in byProvider'
      ensures FindByProvider(payments', p).Some?
    {
      if p == row.providerReference {
        assert r in payments' && payments'[r].providerReference == p;
      } else {
        var q := FindByProvider(payments, p).value;
        assert q in payments' && payments'[q].providerReference == p;
      }
    }
  }

  // ---------------------------------------------------------------- one worker, undisturbed

  /** What the worker has in hand at its commit. */
  function AtCommit(t: System, w: Id, v: Verification): Phase
    requires w in t.workers
  {
    var r := t.workers[w].reference;
    if v.Unavailable? then Verified(v)
    else Fetched(if r in t.payments then Some(t.payments[r]) else None, v)
  }

  /** Whether the worker gets as far as a commit. */
  predicate Reaches(v: Verification, fetches: bool) {
    v.Unavailable? || fetches
  }

  /** The tables and locks after the worker has come to its end. */
  ghost predicate Ends(t: System, t': System, w: Id, tables: System)
    requires w in t.workers
  {
    && t'.payments == tables.payments && t'.records == tables.records && t'.successes == tables.successes
    && t'.locks == t.locks && t'.workers == t.workers[w := t.workers[w].(phase := Finished)]
  }

  lemma ToTheCommit(t: System, w: Id, v: Verification, fetches: bool)
    requires w in t.workers && t.workers[w].phase == Checked && t.workers[w].reference !in t.locks
    ensures W.Step(W.Step(W.Step(t, Acquire(w)), Verify(w, v)), Fetch(w, fetches))
            == Turn(t, w, if Reaches(v, fetches) then AtCommit(t, w, v) else Leaving)
                 .(locks := t.locks[t.workers[w].reference := w])
  {
    var r := t.workers[w].reference;
    var a := W.Step(t, Acquire(w));
    assert a == Turn(t, w, Holding).(locks := t.locks[r := w]);
    var b := W.Step(a, Verify(w, v));
    assert b == Turn(t, w, Verified(v)).(locks := t.locks[r := w]);
    var c := W.Step(b, Fetch(w, fetches));
    var phase := if Reaches(v, fetches) then AtCommit(t, w, v) else Leaving;
    assert c.workers == t.workers[w := t.workers[w].(phase := phase)];
  }

  lemma UndisturbedPass(t: System, w: Id, v: Verification, fetches: bool, commits: bool)
    requires w in t.workers && t.workers[w].phase == Checked && t.workers[w].reference !in t.locks
    ensures var entered := W.Step(t, Acquire(w));
            var t' := W.Step(W.Run(entered, [Verify(w, v), Fetch(w, fetches), Commit(w, commits)]), Release(w));
            var tables := if commits && Reaches(v, fetches) then CommitTo(Turn(t, w, AtCommit(t, w, v)), w) else t;
            Ends(t, t', w, tables)
  {
    var entered := W.Step(t, Acquire(w));
    RunThree(entered, Verify(w, v), Fetch(w, fetches), Commit(w, commits));
    ToTheCommit(t, w, v, fetches);
    var c := W.Step(W.Step(entered, Verify(w, v)), Fetch(w, fetches));
    if Reaches(v, fetches) {
      CommitEnds(t, c, w, v, fetches, commits);
    } else {
      LookUpFails(t, c, w, commits);
    }
  }

  lemma CommitIgnoresLocks(t: System, w: Id, locks: map<Id, Id>)
    requires w in t.workers && (t.workers[w].phase.Verified? || t.workers[w].phase.Fetched?)
    ensures CommitTo(t.(locks := locks), w) == CommitTo(t, w).(locks := locks)
  {
  }

  lemma LookUpFails(t: System, c: System, w: Id, commits: bool)
    requires w in t.workers && t.workers[w].reference !in t.locks
    requires c == Turn(t, w, Leaving).(locks := t.locks[t.workers[w].reference := w])
    ensures Ends(t, W.Step(W.Step(c, Commit(w, commits)), Release(w)), w, t)
  {
    assert W.Step(c, Commit(w, commits)) == c;
    assert t.locks[t.workers[w].reference := w] - {t.workers[w].reference} == t.locks;
  }

  lemma CommitEnds(t: System, c: System, w: Id, v: Verification, fetches: bool, commits: bool)
    requires w in t.workers && t.workers[w].reference !in t.locks
    requires c == Turn(t, w, AtCommit(t, w, v)).(locks := t.locks[t.workers[w].reference := w]) && Reaches(v, fetches)
    ensures var t' := W.Step(W.Step(c, Commit(w, commits)), Release(w));
            var tables := if commits && Reaches(v, fetches) then CommitTo(Turn(t, w, AtCommit(t, w, v)), w) else t;
            Ends(t, t', w, tables)
  {
    var reference := t.workers[w].reference;
    CommitIgnoresLocks(Turn(t, w, AtCommit(t, w, v)), w, t.locks[reference := w]);
    CommitConfirmsPending(c, w);
    var d := W.Step(c, Commit(w, commits));
    assert d == Turn(if commits then CommitTo(c, w) else c, w, Leaving);
    assert d.workers == t.workers[w := t.workers[w].(phase := Leaving)];
    assert t.locks[reference := w] - {reference} == t.locks;
  }

  lemma RunThree(s: System, a: Action, b: Action, c: Action)
    ensures W.Run(s, [a, b, c]) == W.Step(W.Step(W.Step(s, a), b), c)
  {
    assert [a, b, c][1..] == [b, c] && [b, c][1..] == [c] && [c][1..] == [];
    assert W.Run(s, [a, b, c]) == W.Run(W.Step(s, a), [b, c]);
    assert W.Run(W.Step(s, a), [b, c]) == W.Run(W.Step(W.Step(s, a), b), [c]);
    assert W.Run(W.Step(W.Step(s, a), b), [c]) == W.Run(W.Step(W.Step(W.Step(s, a), b), c), []);
  }

  // ---------------------------------------------------------------- the refinement

  /** The worker's commit and the protocol's call, past the lock, agree in every branch. */
  lemma CommitAgrees(s: State, t: System, w: Id, c: WebhookCall)
    requires Agree(s, t) && w in t.workers
    requires c.txRef == Some(t.workers[w].reference) && c.eventId == t.workers[w].eventId && c.now == t.workers[w].now
    requires c.lockFree && c.commits
    requires Reaches(c.verification, c.fetches)
    ensures var (s', outcome) := ProcessWebhook(s, c, true);
            var t' := CommitTo(Turn(t, w, AtCommit(t, w, c.verification)), w);
            && Agree(s', t')
            && t'.successes == t.successes + (if outcome == Saved(ProcessedSuccess) then [t.workers[w].reference] else [])
  {
    var r := t.workers[w].reference;
    FoundIsThatRow(s, t, r);
    var (s', outcome) := ProcessWebhook(s, c, true);
    assert t.successes + [] == t.successes;
    if c.verification.Unavailable? {
      SaveKeepsSameRecords(s.webhooks, t.records, c.eventId, VerifyFailedRetry, c.txRef);
    } else if r !in t.payments {
      SaveKeepsSameRecords(s.webhooks, t.records, c.eventId, RejectedUnknown, c.txRef);
    } else {
      ConfirmAgrees(s, t, w, c, FindByProvider(s.payments, r).value);
    }
  }

  lemma ConfirmAgrees(s: State, t: System, w: Id, c: WebhookCall, reference: Id)
    requires Agree(s, t) && w in t.workers
    requires c.txRef == Some(t.workers[w].reference) && c.eventId == t.workers[w].eventId && c.now == t.workers[w].now
    requires c.commits && c.verification.Reported?
    requires reference in s.payments && s.payments[reference].providerReference == t.workers[w].reference
    ensures var (s', outcome) := Confirm(s, c, reference);
            var t' := CommitTo(Turn(t, w, AtCommit(t, w, c.verification)), w);
            && Agree(s', t')
            && t'.successes == t.successes + (if outcome == Saved(ProcessedSuccess) then [t.workers[w].reference] else [])
  {
    var row := s.payments[reference];
    var policy := ConfirmSuccess(row, ContextOf(row, c.verification), c.now);
    ConfirmSuccessMeans(row, ContextOf(row, c.verification), c.now);
    assert AtCommit(t, w, c.verification) == Fetched(Some(row), c.verification);
    assert t.successes + [] == t.successes;
    if policy.fraudSignal {
      SaveKeepsSameRecords(s.webhooks, t.records, c.eventId, FraudDetected, c.txRef);
    } else if policy.allowed {
      SaveKeepsSameRecords(s.webhooks, t.records, c.eventId, ProcessedSuccess, c.txRef);
      MoveKeepsSamePayments(s.payments, t.payments, reference, SUCCESS);
      PaymentRuns.MovedKeepsUnique(s.payments, reference, SUCCESS);
    } else {
      SaveKeepsSameRecords(s.webhooks, t.records, c.eventId, RejectedPolicy, c.txRef);
    }
  }

  /** The worker's program from its beginning. */
  ghost function Program(t: System, w: Id, v: Verification, fetches: bool, commits: bool): System {
    var refused := W.Step(W.Step(W.Step(t, Check(w)), Acquire(w)), RecordLockFailure(w, commits));
    W.Step(W.Run(refused, [Verify(w, v), Fetch(w, fetches), Commit(w, commits)]), Release(w))
  }

  /** The handler call with the same circumstances. */
  function CallOf(t: System, w: Id, v: Verification, fetches: bool, commits: bool): WebhookCall
    requires w in t.workers
  {
    var Worker(e, r, now, _) := t.workers[w];
    WebhookCall(e, Some(r), r !in t.locks, v, fetches, now, commits)
  }

  ghost predicate Refines(s: State, t: System, w: Id, s': State, outcome: Outcome, t': System)
    requires w in t.workers
  {
    && Agree(s', t') && t'.locks == t.locks && w in t'.workers && t'.workers[w].phase == Finished
    && t'.successes == t.successes + (if outcome == Saved(ProcessedSuccess) then [t.workers[w].reference] else [])
  }

  lemma FinishedStaysFinished(t: System, w: Id, v: Verification, fetches: bool, commits: bool)
    requires w in t.workers && t.workers[w].phase == Finished
    ensures W.Step(W.Run(t, [Verify(w, v), Fetch(w, fetches), Commit(w, commits)]), Release(w)) == t
  {
    RunThree(t, Verify(w, v), Fetch(w, fetches), Commit(w, commits));
  }

  lemma KnownEvent(s: State, t: System, w: Id, v: Verification, fetches: bool, commits: bool)
    requires Agree(s, t) && w in t.workers && t.workers[w].phase == Fresh && t.workers[w].eventId in t.records
    ensures var (s', outcome) := ProcessWebhook(s, CallOf(t, w, v, fetches, commits), false);
            Refines(s, t, w, s', outcome, Program(t, w, v, fetches, commits))
  {
    RecordedIsThere(s, t, t.workers[w].eventId);
    assert t.successes + [] == t.successes;
    var checked := W.Step(t, Check(w));
    assert W.Step(W.Step(checked, Acquire(w)), RecordLockFailure(w, commits)) == checked;
    FinishedStaysFinished(checked, w, v, fetches, commits);
  }

  /** Past the check: a delivery whose event is not recorded, or a worker of the retry task. */
  predicate Begins(t: System, w: Id) {
    && w in t.workers
    && (t.workers[w].phase == Checked || (t.workers[w].phase == Fresh && t.workers[w].eventId !in t.records))
  }

  lemma CheckLeadsOn(t: System, w: Id)
    requires Begins(t, w)
    ensures W.Step(t, Check(w)) == Turn(t, w, Checked)
  {
    if t.workers[w].phase == Checked {
      assert t.workers[w := t.workers[w].(phase := Checked)] == t.workers;
    }
  }

  lemma RefusedIsFinished(t: System, w: Id, commits: bool)
    requires Begins(t, w) && t.workers[w].reference in t.locks
    ensures var refused := W.Step(W.Step(W.Step(t, Check(w)), Acquire(w)), RecordLockFailure(w, commits));
            && refused.workers == t.workers[w := t.workers[w].(phase := Finished)] && refused.locks == t.locks
            && refused.payments == t.payments && refused.successes == t.successes
            && refused.records == if commits then t.records[t.workers[w].eventId := LockFailedRetry] else t.records
  {
    CheckLeadsOn(t, w);
    var failed := W.Step(Turn(t, w, Checked), Acquire(w));
    assert failed == Turn(Turn(t, w, Checked), w, LockFailed);
    assert failed.workers == t.workers[w := t.workers[w].(phase := LockFailed)];
  }

  lemma {:induction false} LockedOut(s: State, t: System, w: Id, v: Verification, fetches: bool, commits: bool)
    requires Agree(s, t) && Begins(t, w) && t.workers[w].reference in t.locks
    ensures var (s', outcome) := ProcessWebhook(s, CallOf(t, w, v, fetches, commits), true);
            Refines(s, t, w, s', outcome, Program(t, w, v, fetches, commits))
  {
    assert t.successes + [] == t.successes;
    RefusedIsFinished(t, w, commits);
    var refused := W.Step(W.Step(W.Step(t, Check(w)), Acquire(w)), RecordLockFailure(w, commits));
    FinishedStaysFinished(refused, w, v, fetches, commits);
    SaveKeepsSameRecords(s.webhooks, t.records, t.workers[w].eventId, LockFailedRetry, Some(t.workers[w].reference));
  }

  lemma NotRefused(t: System, w: Id, commits: bool)
    requires Begins(t, w) && t.workers[w].reference !in t.locks
    ensures W.Step(W.Step(W.Step(t, Check(w)), Acquire(w)), RecordLockFailure(w, commits))
         == W.Step(Turn(t, w, Checked), Acquire(w))
  {
    CheckLeadsOn(t, w);
    assert W.Step(Turn(t, w, Checked), Acquire(w)).workers[w].phase == Holding;
  }

  lemma EndsFromChecked(t: System, w: Id, v: Verification, fetches: bool, commits: bool, t': System)
    requires w in t.workers
    requires var checked := Turn(t, w, Checked);
             Ends(checked, t', w, if commits && Reaches(v, fetches) then CommitTo(Turn(checked, w, AtCommit(checked, w, v)), w)
                                  else checked)
    ensures Ends(t, t', w, if commits && Reaches(v, fetches) then CommitTo(Turn(t, w, AtCommit(t, w, v)), w) else t)
  {
    var checked := Turn(t, w, Checked);
    assert Turn(checked, w, AtCommit(checked, w, v)) == Turn(t, w, AtCommit(t, w, v));
  }

  lemma ProgramEnds(t: System, w: Id, v: Verification, fetches: bool, commits: bool)
    requires Begins(t, w) && t.workers[w].reference !in t.locks
    ensures var tables := if commits && Reaches(v, fetches) then CommitTo(Turn(t, w, AtCommit(t, w, v)), w) else t;
            Ends(t, Program(t, w, v, fetches, commits), w, tables)
  {
    NotRefused(t, w, commits);
    UndisturbedPass(Turn(t, w, Checked), w, v, fetches, commits);
    EndsFromChecked(t, w, v, fetches, commits, Program(t, w, v, fetches, commits));
  }

  lemma UncommittedChangesNothing(s: State, c: WebhookCall)
    requires c.txRef.Some? && c.lockFree && (!c.commits || !Reaches(c.verification, c.fetches))
    ensures ProcessWebhook(s, c, true).0 == s && !ProcessWebhook(s, c, true).1.Saved?
  {
  }

  lemma {:induction false} Enters(s: State, t: System, w: Id, v: Verification, fetches: bool, commits: bool)
    requires Agree(s, t) && Begins(t, w) && t.workers[w].reference !in t.locks
    ensures var (s', outcome) := ProcessWebhook(s, CallOf(t, w, v, fetches, commits), true);
            Refines(s, t, w, s', outcome, Program(t, w, v, fetches, commits))
  {
    ProgramEnds(t, w, v, fetches, commits);
    var c := CallOf(t, w, v, fetches, commits);
    if commits && Reaches(v, fetches) {
      CommitAgrees(s, t, w, c);
    } else {
      UncommittedChangesNothing(s, c);
      assert t.successes + [] == t.successes;
    }
  }

  /** From agreeing stores, a worker that runs from check to release without interruption leaves agreeing
      stores, the locks as they were, and one more confirmation exactly when the call confirms. */
  lemma UndisturbedWorkerIsTheHandler(s: State, t: System, w: Id, v: Verification, fetches: bool, commits: bool)
    requires Agree(s, t) && w in t.workers && t.workers[w].phase == Fresh
    ensures var (s', outcome) := ProcessWebhook(s, CallOf(t, w, v, fetches, commits), false);
            Refines(s, t, w, s', outcome, Program(t, w, v, fetches, commits))
  {
    if t.workers[w].eventId in t.records {
      KnownEvent(s, t, w, v, fetches, commits);
    } else {
      RecordedIsThere(s, t, t.workers[w].eventId);
      var c := CallOf(t, w, v, fetches, commits);
      assert ProcessWebhook(s, c, false) == ProcessWebhook(s, c, true);
      if t.workers[w].reference in t.locks {
        LockedOut(s, t, w, v, fetches, commits);
      } else {
        Enters(s, t, w, v, fetches, commits);
      }
    }
  }

  /** The same for a worker of the retry task, which does not check for the record that it retries. */
  lemma UndisturbedRetryIsTheHandler(s: State, t: System, w: Id, v: Verification, fetches: bool, commits: bool)
    requires Agree(s, t) && w in t.workers && t.workers[w].phase == Checked
    ensures var (s', outcome) := ProcessWebhook(s, CallOf(t, w, v, fetches, commits), true);
            Refines(s, t, w, s', outcome, Program(t, w, v, fetches, commits))
  {
    if t.workers[w].reference in t.locks {
      LockedOut(s, t, w, v, fetches, commits);
    } else {
      Enters(s, t, w, v, fetches, commits);
    }
  }

  // ---------------------------------------------------------------- sweeps and refunds, undisturbed

  /** A sweep's turn for one payment: past its time it expires as in the protocol's sweep, otherwise it stays. */
  lemma UndisturbedSweepIsTheHandler(s: State, t: System, o: Id, r: Id, now: int, commits: bool)
    requires Agree(s, t) && r in s.payments && o in t.outsiders
    requires t.outsiders[o] == Waiting(s.payments[r].providerReference)
    ensures var t' := W.Step(W.Step(t, ReadToExpire(o, now)), Save(o, commits));
            if ExpireAllowed(s.payments[r], now)
            then Agree(if commits then ExpireOne(s, r) else s, t') && t'.outsiders[o].Done?
            else t' == t
  {
    MoveKeepsSamePayments(s.payments, t.payments, r, EXPIRED);
    PaymentRuns.MovedKeepsUnique(s.payments, r, EXPIRED);
  }

  /** A refund request within its window, of a payment that can be looked up, as in the protocol. */
  lemma UndisturbedRefundIsTheHandler(s: State, t: System, o: Id, c: RefundCall)
    requires Agree(s, t) && c.reference in s.payments && o in t.outsiders
    requires t.outsiders[o] == Waiting(s.payments[c.reference].providerReference)
    requires Days(c.now - s.payments[c.reference].createdAt) <= REFUND_WINDOW_DAYS
    ensures var (s', outcome) := RequestRefund(s, c);
            var t' := W.Step(W.Step(t, ReadToRefund(o)), Save(o, c.commits));
            && Agree(s', t') && (outcome == NotRefundable <==> t'.outsiders[o].Waiting?)
  {
    MoveKeepsSamePayments(s.payments, t.payments, c.reference, REFUND_REQUESTED);
    PaymentRuns.MovedKeepsUnique(s.payments, c.reference, REFUND_REQUESTED);
  }
}
