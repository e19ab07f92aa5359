/** The failing interleavings of webhook workers, from every start that allows them: two deliveries about one
    pending payment suffice, or one delivery and a sweep. */
module WebhookRaces {
  import opened Common
  import opened PaymentDomain
  import opened PaymentProtocol
  import opened W = WebhookWorkers
  import opened WebhookStability

  ghost predicate Reaches(s: System, t: System) {
    exists actions :: W.Run(s, actions) == t
  }

  lemma ReachesByRun(s: System, actions: seq<Action>, t: System)
    requires Reaches(W.Run(s, actions), t)
    ensures Reaches(s, t)
  {
    var rest :| W.Run(W.Run(s, actions), rest) == t;
    RunConcat(s, actions, rest);
    assert W.Run(s, actions + rest) == t;
  }

  lemma ReachesByStep(s: System, a: Action, t: System)
    requires Reaches(W.Step(s, a), t)
    ensures Reaches(s, t)
  {
    RunOne(s, a);
    ReachesByRun(s, [a], t);
  }

  lemma ReachesItself(s: System)
    ensures Reaches(s, s)
  {
    assert W.Run(s, []) == s;
  }

  /** A delivery of an event that has no record, about a pending payment that has time left. */
  predicate MayConfirm(s: System, w: Id) {
    && w in s.workers && s.workers[w].phase == Fresh && s.workers[w].eventId !in s.records
    && Open(s.payments, s.workers[w].reference)
    && !IsExpired(s.payments[s.workers[w].reference].expiresAt, s.workers[w].now)
  }

  lemma CheckPasses(s: System, w: Id)
    requires w in s.workers && s.workers[w].phase == Fresh && s.workers[w].eventId !in s.records
    ensures W.Step(s, Check(w)) == Turn(s, w, Checked)
  {
  }

  /** Both deliveries past the check. */
  function BothChecked(s: System, v: Id, w: Id): System
    requires v in s.workers && w in s.workers
  {
    Turn(Turn(s, v, Checked), w, Checked)
  }

  lemma BothPass(s: System, v: Id, w: Id, t: System)
    requires v != w && v in s.workers && s.workers[v].phase == Fresh && s.workers[v].eventId !in s.records
    requires w in s.workers && s.workers[w].phase == Fresh && s.workers[w].eventId !in s.records
    requires Reaches(BothChecked(s, v, w), t)
    ensures Reaches(s, t)
  {
    CheckPasses(s, v);
    CheckPasses(Turn(s, v, Checked), w);
    ReachesByStep(Turn(s, v, Checked), Check(w), t);
    ReachesByStep(s, Check(v), t);
  }

  /** A worker with its payment in hand. */
  function InHand(s: System, w: Id, v: Verification): System
    requires w in s.workers && s.workers[w].reference in s.payments
  {
    var r := s.workers[w].reference;
    Turn(s, w, Fetched(Some(s.payments[r]), v)).(locks := s.locks[r := w])
  }

  lemma ReachesInHand(s: System, w: Id, v: Verification, t: System)
    requires w in s.workers && s.workers[w].phase == Checked && v.Reported?
    requires s.workers[w].reference !in s.locks && s.workers[w].reference in s.payments
    requires Reaches(InHand(s, w, v), t)
    ensures Reaches(s, t)
  {
    ToTheFetch(s, w, v);
    var a := W.Step(s, Acquire(w));
    ReachesByStep(W.Step(a, Verify(w, v)), Fetch(w, true), t);
    ReachesByStep(a, Verify(w, v), t);
    ReachesByStep(s, Acquire(w), t);
  }

  lemma ConfirmingCommitRecords(s: System, w: Id)
    requires w in s.workers && s.workers[w].reference in s.payments
    requires var row := s.payments[s.workers[w].reference];
             && s.workers[w].phase == Fetched(Some(row), Confirmation(row))
             && row.status == PENDING && !IsExpired(row.expiresAt, s.workers[w].now)
    ensures HasRecord(W.Step(s, Commit(w, true)), s.workers[w].eventId, ProcessedSuccess)
  {
    var row := s.payments[s.workers[w].reference];
    ConfirmSuccessMeans(row, ContextOf(row, Confirmation(row)), s.workers[w].now);
  }

  /** Two deliveries and a lease that runs out: the payment is confirmed twice. */
  lemma LeaseExpiryCanConfirmTwice(s: System, slow: Id, fast: Id)
    requires W.Start(s) && slow != fast && MayConfirm(s, slow) && MayConfirm(s, fast)
    requires s.workers[slow].reference == s.workers[fast].reference
    ensures exists t :: Reaches(s, t) && Count(t.successes, s.workers[fast].reference) == 2
  {
    var r := s.workers[fast].reference;
    var answer := Confirmation(s.payments[r]);
    var checked := BothChecked(s, slow, fast);
    var held := InHand(checked, slow, answer);
    assert held.workers[fast] == s.workers[fast].(phase := Checked);
    ExpiredLeaseConfirmsTwice(held, slow, fast);
    var expired := W.Step(held, LeaseExpires(r));
    var overtaken := W.Run(expired, Way(fast, answer));
    var t := W.Step(overtaken, Commit(slow, true));
    ReachesItself(t);
    ReachesByStep(overtaken, Commit(slow, true), t);
    ReachesByRun(expired, Way(fast, answer), t);
    ReachesByStep(held, LeaseExpires(r), t);
    ReachesInHand(checked, slow, answer, t);
    BothPass(s, slow, fast, t);
    assert Count(held.successes, r) == 0;
  }

  /** The same start: a worker can lose its lock to the release of another. */
  lemma LateReleaseCanUnlockAnother(s: System, slow: Id, fast: Id)
    requires W.Start(s) && slow != fast && MayConfirm(s, slow) && MayConfirm(s, fast)
    requires s.workers[slow].reference == s.workers[fast].reference
    ensures exists t :: Reaches(s, t) && IsInsideFor(t, fast, s.workers[fast].reference)
                        && s.workers[fast].reference !in t.locks
  {
    var r := s.workers[fast].reference;
    var answer := Confirmation(s.payments[r]);
    var checked := BothChecked(s, slow, fast);
    var held := InHand(checked, slow, answer);
    var left := W.Step(held, Commit(slow, true));
    assert left.workers[fast] == s.workers[fast].(phase := Checked);
    LateReleaseFreesAnother(left, slow, fast);
    var expired := W.Step(left, LeaseExpires(r));
    var entered := W.Step(expired, Acquire(fast));
    var t := W.Step(entered, Release(slow));
    ReachesItself(t);
    ReachesByStep(entered, Release(slow), t);
    ReachesByStep(expired, Acquire(fast), t);
    ReachesByStep(left, LeaseExpires(r), t);
    ReachesByStep(held, Commit(slow, true), t);
    ReachesInHand(checked, slow, answer, t);
    BothPass(s, slow, fast, t);
  }

  /** One delivery and one sweep: the payment is confirmed and yet shown as EXPIRED. */
  lemma SweepCanExpireAConfirmedPayment(s: System, w: Id, o: Id, later: int)
    requires W.Start(s) && MayConfirm(s, w) && o in s.outsiders && s.outsiders[o] == Waiting(s.workers[w].reference)
    requires IsExpired(s.payments[s.workers[w].reference].expiresAt, later)
    ensures exists t :: Reaches(s, t) && Count(t.successes, s.workers[w].reference) == 1
                        && !NotExpired(t, s.workers[w].reference)
  {
    var r := s.workers[w].reference;
    CheckPasses(s, w);
    var checked := Turn(s, w, Checked);
    SweepOverwritesSuccess(checked, w, o, later);
    var read := W.Step(checked, ReadToExpire(o, later));
    var confirmed := W.Run(read, Way(w, Confirmation(s.payments[r])));
    var t := W.Step(confirmed, Save(o, true));
    ReachesItself(t);
    ReachesByStep(confirmed, Save(o, true), t);
    ReachesByRun(read, Way(w, Confirmation(s.payments[r])), t);
    ReachesByStep(checked, ReadToExpire(o, later), t);
    ReachesByStep(s, Check(w), t);
    assert Count(checked.successes, r) == 0;
  }

  /** A sweep that comes between a worker's fetch and its commit. */
  lemma ExpiredInBetween(s: System, w: Id, o: Id, later: int)
    requires w in s.workers && s.workers[w].reference in s.payments
    requires o in s.outsiders && s.outsiders[o] == Waiting(s.workers[w].reference)
    requires var row := s.payments[s.workers[w].reference];
             && s.workers[w].phase == Fetched(Some(row), Confirmation(row)) && row.status == PENDING
             && !IsExpired(row.expiresAt, s.workers[w].now) && IsExpired(row.expiresAt, later)
    ensures var r := s.workers[w].reference;
            var t := W.Step(W.Step(s, ReadToExpire(o, later)), Save(o, true));
            var u := W.Step(t, Commit(w, true));
            && r in t.payments && t.payments[r].status == EXPIRED && r in u.payments && u.payments[r].status == SUCCESS
  {
    var row := s.payments[s.workers[w].reference];
    ConfirmSuccessMeans(row, ContextOf(row, Confirmation(row)), s.workers[w].now);
    var t := W.Step(W.Step(s, ReadToExpire(o, later)), Save(o, true));
    assert t.workers == s.workers;
  }

  /** The other way round: an expired payment can still be confirmed, by a worker that had fetched it before. */
  lemma ConfirmationCanOverwriteAnExpiry(s: System, w: Id, o: Id, later: int)
    requires W.Start(s) && MayConfirm(s, w) && o in s.outsiders && s.outsiders[o] == Waiting(s.workers[w].reference)
    requires IsExpired(s.payments[s.workers[w].reference].expiresAt, later)
    ensures var r := s.workers[w].reference;
            exists t, u :: Reaches(s, t) && Reaches(t, u) && r in t.payments && t.payments[r].status == EXPIRED
                           && r in u.payments && u.payments[r].status == SUCCESS
  {
    var r := s.workers[w].reference;
    CheckPasses(s, w);
    var checked := Turn(s, w, Checked);
    var held := InHand(checked, w, Confirmation(s.payments[r]));
    ExpiredInBetween(held, w, o, later);
    var read := W.Step(held, ReadToExpire(o, later));
    var t := W.Step(read, Save(o, true));
    var u := W.Step(t, Commit(w, true));
    ReachesItself(u);
    ReachesByStep(t, Commit(w, true), u);
    ReachesItself(t);
    ReachesByStep(read, Save(o, true), t);
    ReachesByStep(held, ReadToExpire(o, later), t);
    ReachesInHand(checked, w, Confirmation(s.payments[r]), t);
    ReachesByStep(s, Check(w), t);
  }

  /** Two deliveries of one event past the check: the payment is confirmed, and the record says otherwise,
      REJECTED_POLICY if the second enters after the first has left. */
  lemma RedeliveryCanRewriteTheRecord(s: System, v: Id, w: Id)
    requires W.Start(s) && v != w && MayConfirm(s, v) && MayConfirm(s, w)
    requires s.workers[v].eventId == s.workers[w].eventId && s.workers[v].reference == s.workers[w].reference
    ensures exists t :: Reaches(s, t) && t.successes == [s.workers[v].reference]
                        && HasRecord(t, s.workers[v].eventId, RejectedPolicy)
  {
    var r := s.workers[v].reference;
    var answer := Confirmation(s.payments[r]);
    var checked := BothChecked(s, v, w);
    ConcurrentRedeliveryRewritesTheRecord(checked, v, w);
    var first := W.Run(checked, Way(v, answer));
    var left := W.Step(first, Release(v));
    var t := W.Run(left, Way(w, answer));
    ReachesItself(t);
    ReachesByRun(left, Way(w, answer), t);
    ReachesByStep(first, Release(v), t);
    ReachesByRun(checked, Way(v, answer), t);
    BothPass(s, v, w, t);
  }

  /** Refused and not yet recorded while the first commits. */
  lemma RefusalOverwrites(s: System, v: Id, w: Id)
    requires v in s.workers && w in s.workers && v != w && s.workers[v].eventId == s.workers[w].eventId
    requires s.workers[v].reference in s.payments && s.workers[w].phase == LockFailed
    requires var row := s.payments[s.workers[v].reference];
             && s.workers[v].phase == Fetched(Some(row), Confirmation(row))
             && row.status == PENDING && !IsExpired(row.expiresAt, s.workers[v].now)
    ensures var t := W.Step(s, Commit(v, true));
            && HasRecord(t, s.workers[v].eventId, ProcessedSuccess)
            && HasRecord(W.Step(t, RecordLockFailure(w, true)), s.workers[v].eventId, LockFailedRetry)
  {
    ConfirmingCommitRecords(s, v);
  }

  /** And LOCK_FAILED_RETRY if the second comes to the lock while the first is inside. */
  lemma LockFailureCanRewriteTheRecord(s: System, v: Id, w: Id)
    requires W.Start(s) && v != w && MayConfirm(s, v) && MayConfirm(s, w)
    requires s.workers[v].eventId == s.workers[w].eventId && s.workers[v].reference == s.workers[w].reference
    ensures exists t, u :: Reaches(s, t) && Reaches(t, u)
                           && HasRecord(t, s.workers[v].eventId, ProcessedSuccess)
                           && HasRecord(u, s.workers[v].eventId, LockFailedRetry)
  {
    var r := s.workers[v].reference;
    var row := s.payments[r];
    var checked := BothChecked(s, v, w);
    var held := InHand(checked, v, Confirmation(row));
    var refused := W.Step(held, Acquire(w));
    assert refused == Turn(held, w, LockFailed);
    RefusalOverwrites(refused, v, w);
    var t := W.Step(refused, Commit(v, true));
    var u := W.Step(t, RecordLockFailure(w, true));
    ReachesItself(u);
    ReachesByStep(t, RecordLockFailure(w, true), u);
    ReachesItself(t);
    ReachesByStep(refused, Commit(v, true), t);
    ReachesByStep(held, Acquire(w), t);
    ReachesInHand(checked, v, Confirmation(row), t);
    BothPass(s, v, w, t);
  }
}
