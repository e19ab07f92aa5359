/** The identity domain-event outbox: the de-duplicated insert of
    infrastructure/identity/django_identity_event_outbox.py and the two-phase publisher of
    tasks/identity_domain_events.py.

    A publish call commits its claim (phase 1), runs the consumer, and commits the result (phase 2) or,
    after any exception, commits a retry or a failure.  Calls on the same row may overlap at every one of
    these points, and a worker may stop for ever between any two of them. */
module IdentityOutbox {
  import opened Common

  /** Row, worker and event identifiers. */
  type Id = int

  const MAX_IDENTITY_EVENT_ATTEMPTS: nat := 5
  const MAX_DELAY_SECONDS: nat := 300

  datatype Status = Pending | Processing | Published | Failed

  /** `delays` is a history variable: the retry delays scheduled so far, in seconds. */
  datatype Row = Row(eventId: Id, status: Status, attempts: nat, nextAttemptAt: Option<int>, delays: seq<nat>)

  /** A worker runs one publish call. */
  datatype Worker = Claimed(row: Id) | Consumed(row: Id) | Raised(row: Id) | Finished | Crashed

  /** `claimers` and `completers` are history variables: the workers whose phase 1 has committed on a
      row, and those whose consumer has completed for it. */
  datatype State = State(rows: map<Id, Row>, workers: map<Id, Worker>,
                         claimers: map<Id, set<Id>>, completers: map<Id, set<Id>>)

  datatype Action =
    | Dispatch(row: Id, eventId: Id)
    | Claim(worker: Id, row: Id)
    | Consume(worker: Id, completes: bool)
    | CommitPublished(worker: Id, commits: bool)
    | CommitRetryOrFailure(worker: Id, now: int)
    | Crash(worker: Id)

  const Init := State(map[], map[], map[], map[])

  function Delay(attempts: nat): nat {
    if Pow2(attempts) < MAX_DELAY_SECONDS then Pow2(attempts) else MAX_DELAY_SECONDS
  }

  function At(history: map<Id, set<Id>>, row: Id): set<Id> {
    if row in history then history[row] else {}
  }

  predicate Claimable(row: Row) {
    row.status != Published && row.status != Failed
  }

  function ClaimRow(row: Row): Row {
    row.(status := Processing, attempts := row.attempts + 1)
  }

  function PublishRow(row: Row): Row {
    row.(status := Published, nextAttemptAt := None)
  }

  /** `_mark_failed_or_pending` */
  function MarkRow(row: Row, now: int): Row {
    if row.attempts >= MAX_IDENTITY_EVENT_ATTEMPTS then row.(status := Failed, nextAttemptAt := None)
    else row.(status := Pending, nextAttemptAt := Some(now + Delay(row.attempts)),
              delays := row.delays + [Delay(row.attempts)])
  }

  predicate Recorded(s: State, eventId: Id) {
    exists row | row in s.rows :: s.rows[row].eventId == eventId
  }

  /** Performs an action; an action that is not possible changes nothing. */
  function Step(s: State, a: Action): State {
    match a
    case Dispatch(row, eventId) =>
      if row in s.rows || Recorded(s, eventId) then s
      else s.(rows := s.rows[row := Row(eventId, Pending, 0, None, [])])
    case Claim(w, row) =>
      if w in s.workers then s
      else if row !in s.rows || !Claimable(s.rows[row]) then s.(workers := s.workers[w := Finished])
      else State(s.rows[row := ClaimRow(s.rows[row])], s.workers[w := Claimed(row)],
                 s.claimers[row := At(s.claimers, row) + {w}], s.completers)
    case Consume(w, completes) =>
      if w !in s.workers || !s.workers[w].Claimed? then s
      else
        var row := s.workers[w].row;
        if completes then s.(workers := s.workers[w := Consumed(row)],
                             completers := s.completers[row := At(s.completers, row) + {w}])
        else s.(workers := s.workers[w := Raised(row)])
    case CommitPublished(w, commits) =>
      if w !in s.workers || !s.workers[w].Consumed? || s.workers[w].row !in s.rows then s
      else
        var row := s.workers[w].row;
        if commits then s.(rows := s.rows[row := PublishRow(s.rows[row])], workers := s.workers[w := Finished])
        else s.(workers := s.workers[w := Raised(row)])
    case CommitRetryOrFailure(w, now) =>
      if w !in s.workers || !s.workers[w].Raised? || s.workers[w].row !in s.rows then s
      else
        var row := s.workers[w].row;
        s.(rows := s.rows[row := MarkRow(s.rows[row], now)], workers := s.workers[w := Finished])
    case Crash(w) =>
      if w !in s.workers then s else s.(workers := s.workers[w := Crashed])
  }

  function Run(actions: seq<Action>): State {
    if actions == [] then Init
    else Step(Run(actions[..|actions| - 1]), actions[|actions| - 1])
  }

  // ---------------------------------------------------------------- every interleaving

  ghost predicate RowOk(s: State, row: Id)
    requires row in s.rows
  {
    && s.rows[row].attempts == |At(s.claimers, row)|
    && At(s.completers, row) <= At(s.claimers, row)
    && (forall w | w in At(s.claimers, row) :: w in s.workers)
    && (s.rows[row].status == Published ==> At(s.completers, row) != {})
  }

  ghost predicate WorkerOk(s: State, w: Id)
    requires w in s.workers
  {
    match s.workers[w]
    case Claimed(row) => row in s.rows && w in At(s.claimers, row) && w !in At(s.completers, row)
    case Consumed(row) => row in s.rows && w in At(s.completers, row)
    case Raised(row) => row in s.rows
    case _ => true
  }

  ghost predicate Inv(s: State) {
    && (forall row | row in s.rows :: RowOk(s, row))
    && (forall w | w in s.workers :: WorkerOk(s, w))
    && (forall row | row in s.claimers :: row in s.rows)
    && (forall row | row in s.completers :: row in s.rows)
  }

  ghost predicate UniqueEvents(s: State) {
    forall r1, r2 | r1 in s.rows && r2 in s.rows && s.rows[r1].eventId == s.rows[r2].eventId :: r1 == r2
  }

  lemma StepKeepsUniqueEvents(s: State, a: Action)
    requires UniqueEvents(s)
    ensures UniqueEvents(Step(s, a))
  {
    var s' := Step(s, a);
    if !a.Dispatch? {
      forall row | row in s'.rows
        ensures row in s.rows && s'.rows[row].eventId == s.rows[row].eventId
      {
      }
    }
  }

  lemma ClaimKeepsRow(s: State, a: Action, row: Id)
    requires Inv(s) && row in Step(s, a).rows && a.Claim?
    ensures RowOk(Step(s, a), row)
  {
    assert RowOk(s, row);
  }

  lemma StepKeepsRow(s: State, a: Action, row: Id)
    requires Inv(s) && row in Step(s, a).rows && !a.Claim?
    ensures RowOk(Step(s, a), row)
  {
    if row in s.rows {
      assert RowOk(s, row);
      if !a.Dispatch? && a.worker in s.workers {
        assert WorkerOk(s, a.worker);
      }
    }
  }

  lemma ClaimKeepsWorker(s: State, a: Action, w: Id)
    requires Inv(s) && w in Step(s, a).workers && a.Claim?
    ensures WorkerOk(Step(s, a), w)
  {
    if w in s.workers {
      assert WorkerOk(s, w);
    } else if a.row in s.rows {
      assert RowOk(s, a.row);
    }
  }

  lemma StepKeepsWorker(s: State, a: Action, w: Id)
    requires Inv(s) && w in Step(s, a).workers && !a.Claim?
    ensures WorkerOk(Step(s, a), w)
  {
    assert WorkerOk(s, w);
    match a
    case Dispatch(_, _) =>
    case Consume(v, completes) =>
      if v != w && v in s.workers && completes {
        assert WorkerOk(s, v);
      }
    case _ =>
  }

  lemma StepKeepsInv(s: State, a: Action)
    requires Inv(s)
    ensures Inv(Step(s, a))
  {
    var s' := Step(s, a);
    forall row | row in s'.rows
      ensures RowOk(s', row)
    {
      if a.Claim? { ClaimKeepsRow(s, a, row); } else { StepKeepsRow(s, a, row); }
    }
    forall w | w in s'.workers
      ensures WorkerOk(s', w)
    {
      if a.Claim? { ClaimKeepsWorker(s, a, w); } else { StepKeepsWorker(s, a, w); }
    }
    if !a.Dispatch? && a.worker in s.workers {
      assert WorkerOk(s, a.worker);
    }
  }

  lemma {:induction false} RunKeepsInv(actions: seq<Action>)
    ensures Inv(Run(actions)) && UniqueEvents(Run(actions))
    decreases |actions|
  {
    if actions != [] {
      RunKeepsInv(actions[..|actions| - 1]);
      StepKeepsInv(Run(actions[..|actions| - 1]), actions[|actions| - 1]);
      StepKeepsUniqueEvents(Run(actions[..|actions| - 1]), actions[|actions| - 1]);
    }
  }

  /** Under every interleaving, with crashes anywhere: a row counts exactly its phase-1 commits, the
      consumer has completed at most that often, a published row has had its consumer complete, and no
      event id has two rows. */
  lemma {:induction false} AtLeastOnceDelivery(actions: seq<Action>, row: Id)
    requires row in Run(actions).rows
    ensures var s := Run(actions);
            && s.rows[row].attempts == |At(s.claimers, row)|
            && |At(s.completers, row)| <= s.rows[row].attempts
            && (s.rows[row].status == Published ==> |At(s.completers, row)| >= 1)
            && (forall other | other in s.rows && s.rows[other].eventId == s.rows[row].eventId :: other == row)
  {
    RunKeepsInv(actions);
    var s := Run(actions);
    assert RowOk(s, row);
    SubsetSize(At(s.completers, row), At(s.claimers, row));
  }

  lemma StepKeepsEventId(s: State, a: Action, row: Id)
    requires row in s.rows
    ensures row in Step(s, a).rows && Step(s, a).rows[row].eventId == s.rows[row].eventId
  {
  }

  lemma {:induction false} RowsStay(actions: seq<Action>, more: seq<Action>, row: Id)
    requires row in Run(actions).rows
    ensures row in Run(actions + more).rows && Run(actions + more).rows[row].eventId == Run(actions).rows[row].eventId
    decreases |more|
  {
    if more == [] {
      assert actions + more == actions;
    } else {
      var all := actions + more;
      assert all[..|all| - 1] == actions + more[..|more| - 1];
      RowsStay(actions, more[..|more| - 1], row);
      StepKeepsEventId(Run(all[..|all| - 1]), all[|all| - 1], row);
    }
  }

  /** Dispatching an event again, at any later time, inserts nothing. */
  lemma RepeatedDispatchIsIgnored(actions: seq<Action>, more: seq<Action>, row: Id, again: Id)
    requires row in Run(actions).rows
    ensures var s := Run(actions + more); Step(s, Dispatch(again, Run(actions).rows[row].eventId)) == s
  {
    RowsStay(actions, more, row);
  }

  /** Two workers may have claimed the same row. */
  lemma ClaimsMayOverlap(s: State, row: Id, w1: Id, w2: Id)
    requires row in s.rows && Claimable(s.rows[row])
    requires w1 != w2 && w1 !in s.workers && w2 !in s.workers
    ensures var s' := Step(Step(s, Claim(w1, row)), Claim(w2, row));
            && row in s'.rows && s'.rows[row].attempts == s.rows[row].attempts + 2
            && s'.workers == s.workers[w1 := Claimed(row)][w2 := Claimed(row)]
  {
  }

  /** "Published is final" needs calls that do not overlap: from every state in which two workers have
      claimed a row, one can publish it and the other then take it back to pending. */
  lemma OverlapUnpublishes(s: State, row: Id, w1: Id, w2: Id, now: int)
    requires row in s.rows && s.rows[row].attempts < MAX_IDENTITY_EVENT_ATTEMPTS
    requires w1 != w2 && w1 in s.workers && w2 in s.workers
    requires s.workers[w1] == Claimed(row) && s.workers[w2] == Claimed(row)
    ensures var s1 := Step(Step(Step(s, Consume(w1, true)), Consume(w2, false)), CommitPublished(w1, true));
            var s2 := Step(s1, CommitRetryOrFailure(w2, now));
            && row in s1.rows && s1.rows[row].status == Published
            && row in s2.rows && s2.rows[row].status == Pending
  {
    var c := Step(Step(s, Consume(w1, true)), Consume(w2, false));
    assert c.rows == s.rows && c.workers == s.workers[w1 := Consumed(row)][w2 := Raised(row)];
    var s1 := Step(c, CommitPublished(w1, true));
    assert s1.rows == s.rows[row := PublishRow(s.rows[row])] && s1.workers[w2] == Raised(row);
  }

  // ---------------------------------------------------------------- when a published row stays published

  predicate Active(w: Worker, row: Id) {
    (w.Claimed? || w.Consumed? || w.Raised?) && w.row == row
  }

  ghost predicate Busy(s: State, row: Id) {
    exists w | w in s.workers :: Active(s.workers[w], row)
  }

  function Continue(s: State, actions: seq<Action>): State
    decreases |actions|
  {
    if actions == [] then s else Continue(Step(s, actions[0]), actions[1..])
  }

  predicate IsPublished(s: State, row: Id) {
    row in s.rows && s.rows[row].status == Published
  }

  lemma StepKeepsPublished(s: State, a: Action, row: Id)
    requires IsPublished(s, row) && !Busy(s, row)
    ensures IsPublished(Step(s, a), row) && !Busy(Step(s, a), row)
  {
    var s' := Step(s, a);
    forall w | w in s'.workers
      ensures !Active(s'.workers[w], row)
    {
      assert w in s.workers ==> !Active(s.workers[w], row);
    }
  }

  lemma {:induction false} ContinueKeepsPublished(s: State, actions: seq<Action>, row: Id)
    requires IsPublished(s, row) && !Busy(s, row)
    ensures IsPublished(Continue(s, actions), row)
    decreases |actions|
  {
    if actions != [] {
      StepKeepsPublished(s, actions[0], row);
      ContinueKeepsPublished(Step(s, actions[0]), actions[1..], row);
    }
  }

  ghost predicate MayUnpublish(s: State, row: Id) {
    exists actions :: Unpublishes(s, actions, row)
  }

  predicate Unpublishes(s: State, actions: seq<Action>, row: Id) {
    !IsPublished(Continue(s, actions), row)
  }

  lemma MayUnpublishAfter(s: State, a: Action, row: Id)
    requires MayUnpublish(Step(s, a), row)
    ensures MayUnpublish(s, row)
  {
    var rest :| Unpublishes(Step(s, a), rest, row);
    assert ([a] + rest)[1..] == rest;
    assert Unpublishes(s, [a] + rest, row);
  }

  lemma RaisedUnpublishes(s: State, w: Id, row: Id)
    requires row in s.rows && w in s.workers && s.workers[w] == Raised(row)
    ensures MayUnpublish(s, row)
  {
    var s' := Step(s, CommitRetryOrFailure(w, 0));
    assert Unpublishes(s', [], row);
    MayUnpublishAfter(s, CommitRetryOrFailure(w, 0), row);
  }

  lemma ActiveUnpublishes(s: State, w: Id, row: Id)
    requires row in s.rows && w in s.workers && Active(s.workers[w], row)
    ensures MayUnpublish(s, row)
  {
    if s.workers[w].Claimed? {
      RaisedUnpublishes(Step(s, Consume(w, false)), w, row);
      MayUnpublishAfter(s, Consume(w, false), row);
    } else if s.workers[w].Consumed? {
      RaisedUnpublishes(Step(s, CommitPublished(w, false)), w, row);
      MayUnpublishAfter(s, CommitPublished(w, false), row);
    } else {
      RaisedUnpublishes(s, w, row);
    }
  }

  /** From any state: a published row may be taken back in some continuation, with overlapping calls and
      crashes, if and only if a call is at work on it. */
  lemma PublishedStaysExactlyWhenIdle(s: State, row: Id)
    requires IsPublished(s, row)
    ensures MayUnpublish(s, row) <==> Busy(s, row)
  {
    if Busy(s, row) {
      var w :| w in s.workers && Active(s.workers[w], row);
      ActiveUnpublishes(s, w, row);
    } else {
      forall actions
        ensures !Unpublishes(s, actions, row)
      {
        ContinueKeepsPublished(s, actions, row);
      }
    }
  }

  /** No worker crashes, and a row is claimed only when no other call is at work on it. */
  ghost predicate NonOverlapping(actions: seq<Action>) {
    forall i | 0 <= i < |actions| ::
      && !actions[i].Crash?
      && (actions[i].Claim? ==> !Busy(Run(actions[..i]), actions[i].row))
  }

  const RETRY_DELAYS: seq<nat> := [2, 4, 8, 16]

  ghost predicate CalmRow(s: State, row: Id)
    requires row in s.rows
  {
    var r := s.rows[row];
    && (r.status == Processing <==> Busy(s, row))
    && (match r.status
        case Pending => r.attempts < 5 && r.delays == RETRY_DELAYS[..r.attempts] && (r.nextAttemptAt.None? <==> r.attempts == 0)
        case Failed => r.attempts == 5 && r.delays == RETRY_DELAYS && r.nextAttemptAt.None?
        case Published => 1 <= r.attempts <= 5 && r.delays == RETRY_DELAYS[..r.attempts - 1] && r.nextAttemptAt.None?
        case Processing => 1 <= r.attempts <= 5 && r.delays == RETRY_DELAYS[..r.attempts - 1])
  }

  ghost predicate Calm(s: State) {
    && (forall row | row in s.rows :: CalmRow(s, row))
    && (forall w | w in s.workers && (s.workers[w].Claimed? || s.workers[w].Consumed? || s.workers[w].Raised?) ::
          s.workers[w].row in s.rows)
    && OneAtATime(s)
  }

  lemma DelayIsScheduled(attempts: nat)
    requires 1 <= attempts < 5
    ensures RETRY_DELAYS[..attempts - 1] + [Delay(attempts)] == RETRY_DELAYS[..attempts]
  {
    assert Pow2(1) == 2 && Pow2(2) == 4 && Pow2(3) == 8 && Pow2(4) == 16;
  }

  lemma BusyElsewhere(s: State, s': State, w: Id, row: Id)
    requires w in s'.workers && s'.workers == s.workers[w := s'.workers[w]]
    requires !Active(s'.workers[w], row) && (w in s.workers ==> !Active(s.workers[w], row))
    ensures Busy(s', row) <==> Busy(s, row)
  {
    if Busy(s, row) {
      var v :| v in s.workers && Active(s.workers[v], row);
      assert v in s'.workers && Active(s'.workers[v], row);
    }
    if Busy(s', row) {
      var v :| v in s'.workers && Active(s'.workers[v], row);
      assert v in s.workers && Active(s.workers[v], row);
    }
  }

  ghost predicate OneAtATime(s: State) {
    forall w1, w2, row | w1 in s.workers && w2 in s.workers
                         && Active(s.workers[w1], row) && Active(s.workers[w2], row) :: w1 == w2
  }

  lemma StaysOneAtATime(s: State, a: Action)
    requires OneAtATime(s) && (a.Claim? ==> !Busy(s, a.row))
    ensures OneAtATime(Step(s, a))
  {
    var s' := Step(s, a);
    forall w1, w2, row | w1 in s'.workers && w2 in s'.workers
                         && Active(s'.workers[w1], row) && Active(s'.workers[w2], row)
      ensures w1 == w2
    {
    }
  }

  /** The row on which the acting worker is, or starts, at work. */
  lemma CalmOwnRow(s: State, a: Action, row: Id)
    requires Calm(s) && !a.Crash? && !a.Dispatch? && (a.Claim? ==> !Busy(s, a.row))
    requires row in s.rows && Step(s, a) != s && a.worker in Step(s, a).workers
    requires (a.worker in s.workers && Active(s.workers[a.worker], row)) || Active(Step(s, a).workers[a.worker], row)
    ensures CalmRow(Step(s, a), row) && Claimable(s.rows[row])
  {
    var s' := Step(s, a);
    var w := a.worker;
    assert CalmRow(s, row);
    if w in s.workers {
      assert Busy(s, row);
    }
    if Active(s'.workers[w], row) {
      assert Busy(s', row);
    } else {
      forall v | v in s'.workers
        ensures !Active(s'.workers[v], row)
      {
        if v != w {
          assert v in s.workers && !Active(s.workers[v], row);
        }
      }
    }
    if a.CommitRetryOrFailure? && s.rows[row].attempts < 5 {
      DelayIsScheduled(s.rows[row].attempts);
    }
  }

  lemma CalmRowStep(s: State, a: Action, row: Id)
    requires Calm(s) && !a.Crash? && (a.Claim? ==> !Busy(s, a.row))
    requires row in s.rows
    ensures row in Step(s, a).rows && CalmRow(Step(s, a), row)
    ensures !Claimable(s.rows[row]) ==> Step(s, a).rows[row] == s.rows[row]
  {
    var s' := Step(s, a);
    assert CalmRow(s, row);
    if s' != s {
      if a.Dispatch? {
        assert s'.workers == s.workers;
      } else {
        var w := a.worker;
        if (w in s.workers && Active(s.workers[w], row)) || Active(s'.workers[w], row) {
          CalmOwnRow(s, a, row);
        } else {
          BusyElsewhere(s, s', w, row);
        }
      }
    }
  }

  /** One step of a non-overlapping run keeps the discipline, and leaves published and failed rows. */
  lemma CalmStep(s: State, a: Action)
    requires Calm(s) && !a.Crash? && (a.Claim? ==> !Busy(s, a.row))
    ensures Calm(Step(s, a))
    ensures forall row | row in s.rows && !Claimable(s.rows[row]) :: row in Step(s, a).rows && Step(s, a).rows[row] == s.rows[row]
  {
    var s' := Step(s, a);
    StaysOneAtATime(s, a);
    forall row | row in s.rows
      ensures row in s'.rows && CalmRow(s', row)
      ensures !Claimable(s.rows[row]) ==> s'.rows[row] == s.rows[row]
    {
      CalmRowStep(s, a, row);
    }
    if a.Dispatch? {
      NewRowIsCalm(s, a);
    }
  }

  lemma NewRowIsCalm(s: State, a: Action)
    requires Calm(s) && a.Dispatch?
    ensures forall row | row in Step(s, a).rows && row !in s.rows :: CalmRow(Step(s, a), row)
  {
    var s' := Step(s, a);
    if a.row !in s.rows && a.row in s'.rows {
      assert s'.workers == s.workers;
      assert !Busy(s', a.row);
    }
  }

  lemma {:induction false} NonOverlappingIsCalm(actions: seq<Action>)
    requires NonOverlapping(actions)
    ensures Calm(Run(actions))
    decreases |actions|
  {
    if actions != [] {
      var n := |actions| - 1;
      assert NonOverlapping(actions[..n]) by {
        forall i | 0 <= i < n
          ensures !actions[..n][i].Crash?
          ensures actions[..n][i].Claim? ==> !Busy(Run(actions[..n][..i]), actions[..n][i].row)
        {
          assert actions[..n][..i] == actions[..i];
        }
      }
      NonOverlappingIsCalm(actions[..n]);
      CalmStep(Run(actions[..n]), actions[n]);
    }
  }

  /** For calls that do not overlap: a pending row has attempts to spare, a failed row has used all five,
      and its four retries were scheduled after 2, 4, 8 and 16 seconds, so the 300 s cap is never used; no retry
      is scheduled for a row that has ended. */
  lemma {:induction false} RetrySchedule(actions: seq<Action>, row: Id)
    requires NonOverlapping(actions) && row in Run(actions).rows
    ensures var r := Run(actions).rows[row];
            && (r.status == Pending ==> r.attempts < MAX_IDENTITY_EVENT_ATTEMPTS)
            && (r.status == Failed ==> r.attempts == MAX_IDENTITY_EVENT_ATTEMPTS && r.delays == [2, 4, 8, 16])
            && (r.delays <= [2, 4, 8, 16])
            && (r.status == Published || r.status == Failed ==> r.nextAttemptAt.None?)
  {
    NonOverlappingIsCalm(actions);
    assert CalmRow(Run(actions), row);
  }

  lemma MarkedRow(row: Row, now: int)
    requires 1 <= row.attempts <= 5
    ensures var after := MarkRow(row, now);
            if row.attempts < 5 then
              after.status == Pending && after.nextAttemptAt == Some(now + [2, 4, 8, 16][row.attempts - 1])
            else
              after.status == Failed && after.nextAttemptAt.None?
  {
    assert Pow2(1) == 2 && Pow2(2) == 4 && Pow2(3) == 8 && Pow2(4) == 16;
  }

  lemma BusyRowIsCalm(s: State, w: Id)
    requires Calm(s) && w in s.workers && s.workers[w].Raised?
    ensures s.workers[w].row in s.rows && 1 <= s.rows[s.workers[w].row].attempts <= 5
  {
    assert Active(s.workers[w], s.workers[w].row);
    assert CalmRow(s, s.workers[w].row);
  }

  /** A call that fails at some moment puts the row's next attempt off from then, each time for twice as long, and
      the fifth failure ends it. */
  lemma {:induction false} FailureIsScheduled(actions: seq<Action>, w: Id, now: int)
    requires NonOverlapping(actions) && w in Run(actions).workers && Run(actions).workers[w].Raised?
    ensures var s, s' := Run(actions), Step(Run(actions), CommitRetryOrFailure(w, now));
            var row := s.workers[w].row;
            && row in s.rows && row in s'.rows && 1 <= s.rows[row].attempts <= 5
            && (if s.rows[row].attempts < 5 then
                  s'.rows[row].status == Pending && s'.rows[row].nextAttemptAt == Some(now + [2, 4, 8, 16][s.rows[row].attempts - 1])
                else
                  s'.rows[row].status == Failed && s'.rows[row].nextAttemptAt.None?)
  {
    var s := Run(actions);
    assert Calm(s) by {
      NonOverlappingIsCalm(actions);
    }
    BusyRowIsCalm(s, w);
    MarkedRow(s.rows[s.workers[w].row], now);
  }

  /** For calls that do not overlap, published and failed rows never change again. */
  lemma {:induction false} TerminalRowsAreFinal(actions: seq<Action>, n: nat, row: Id)
    requires NonOverlapping(actions) && n <= |actions|
    requires row in Run(actions[..n]).rows && !Claimable(Run(actions[..n]).rows[row])
    ensures row in Run(actions).rows && Run(actions).rows[row] == Run(actions[..n]).rows[row]
    decreases |actions|
  {
    if n == |actions| {
      assert actions[..n] == actions;
    } else {
      var m := |actions| - 1;
      var prefix := actions[..m];
      assert NonOverlapping(prefix) by {
        forall i | 0 <= i < m
          ensures !prefix[i].Crash?
          ensures prefix[i].Claim? ==> !Busy(Run(prefix[..i]), prefix[i].row)
        {
          assert prefix[..i] == actions[..i];
        }
      }
      assert prefix[..n] == actions[..n];
      TerminalRowsAreFinal(prefix, n, row);
      NonOverlappingIsCalm(prefix);
      CalmStep(Run(prefix), actions[m]);
    }
  }

  // ---------------------------------------------------------------- one call, and the sweep

  /** How the consumer and the second commit of one call turn out, and when. */
  datatype Luck = Luck(completes: bool, commits: bool, now: int)

  datatype Answer = Returned(published: bool) | Propagated

  /** What one call on a claimable row leaves in it. */
  function AfterCall(row: Row, luck: Luck): Row {
    if luck.completes && luck.commits then PublishRow(ClaimRow(row)) else MarkRow(ClaimRow(row), luck.now)
  }

  /** The phases of one call, uninterrupted, in the interleaving model. */
  lemma UninterruptedCall(s: State, w: Id, id: Id, luck: Luck)
    requires w !in s.workers && id in s.rows && Claimable(s.rows[id])
    ensures var s' := Step(Step(Step(Step(s, Claim(w, id)), Consume(w, luck.completes)),
                                CommitPublished(w, luck.commits)), CommitRetryOrFailure(w, luck.now));
            s'.rows == s.rows[id := AfterCall(s.rows[id], luck)] && s'.workers == s.workers[w := Finished]
  {
    var s2 := Step(Step(s, Claim(w, id)), Consume(w, luck.completes));
    assert s2.rows == s.rows[id := ClaimRow(s.rows[id])];
    assert s2.workers == s.workers[w := if luck.completes then Consumed(id) else Raised(id)];
  }

  ghost function CountPublished(rows: map<Id, Row>, ids: seq<Id>): nat {
    if ids == [] then 0
    else
      var last := ids[|ids| - 1];
      CountPublished(rows, ids[..|ids| - 1]) + if last in rows && rows[last].status == Published then 1 else 0
  }

  lemma {:induction false} CountFrame(rows: map<Id, Row>, rows': map<Id, Row>, ids: seq<Id>)
    requires forall id | id in ids :: id in rows && id in rows' && rows[id] == rows'[id]
    ensures CountPublished(rows, ids) == CountPublished(rows', ids)
    decreases |ids|
  {
    if ids != [] {
      CountFrame(rows, rows', ids[..|ids| - 1]);
    }
  }

  /** Each of the rows has been attempted once and no other row has changed. */
  ghost predicate AttemptedOnce(before: map<Id, Row>, after: map<Id, Row>, ids: seq<Id>) {
    && after.Keys == before.Keys
    && (forall id | id in before && id !in ids :: after[id] == before[id])
    && (forall id | id in ids :: id in before && after[id].attempts == before[id].attempts + 1 && after[id].status != Processing)
  }

  lemma AttemptedNext(before: map<Id, Row>, mid: map<Id, Row>, ids: seq<Id>, id: Id, row: Row)
    requires AttemptedOnce(before, mid, ids) && id in before && id !in ids
    requires row.attempts == mid[id].attempts + 1 && row.status != Processing
    ensures AttemptedOnce(before, mid[id := row], ids + [id])
    ensures CountPublished(mid[id := row], ids + [id]) == CountPublished(mid, ids) + if row.status == Published then 1 else 0
  {
    CountFrame(mid, mid[id := row], ids);
    assert (ids + [id])[..|ids|] == ids;
  }

  ghost predicate AllPending(rows: map<Id, Row>, ids: seq<Id>) {
    forall id | id in ids :: id in rows && rows[id].status == Pending
  }

  lemma NextIsUntouched(before: map<Id, Row>, mid: map<Id, Row>, all: seq<Id>, i: nat)
    requires i < |all| && Distinct(all) && AllPending(before, all) && AttemptedOnce(before, mid, all[..i])
    ensures all[i] !in all[..i] && all[i] in before && mid[all[i]] == before[all[i]] && Claimable(mid[all[i]])
  {
    NotAmongEarlier(all, i);
    var id := all[i];
    assert id in all && id !in all[..i];
    assert id in before;
  }

  /** One round of the sweep: the next row is attempted and counted. */
  lemma SweepRound(before: map<Id, Row>, mid: map<Id, Row>, all: seq<Id>, i: nat, row: Row)
    requires i < |all| && Distinct(all) && AllPending(before, all) && AttemptedOnce(before, mid, all[..i])
    requires all[i] in mid && row.attempts == mid[all[i]].attempts + 1 && row.status != Processing
    ensures AttemptedOnce(before, mid[all[i] := row], all[..i + 1])
    ensures CountPublished(mid[all[i] := row], all[..i + 1])
         == CountPublished(mid, all[..i]) + if row.status == Published then 1 else 0
  {
    NextIsUntouched(before, mid, all, i);
    AttemptedNext(before, mid, all[..i], all[i], row);
    assert all[..i + 1] == all[..i] + [all[i]];
  }

  class Publisher {
    var rows: map<Id, Row>

    constructor ()
      ensures rows == map[]
    {
      rows := map[];
    }

    /** `publish_identity_domain_event` when no other call is at work on the row. */
    method Publish(id: Id, luck: Luck) returns (answer: Answer)
      modifies this
      ensures id !in old(rows) ==> rows == old(rows) && answer == Returned(false)
      ensures id in old(rows) && !Claimable(old(rows)[id]) ==>
                rows == old(rows) && answer == Returned(old(rows)[id].status == Published)
      ensures id in old(rows) && Claimable(old(rows)[id]) ==>
                && (answer == Returned(true) <==> luck.completes && luck.commits)
                && (answer == Propagated <==> !(luck.completes && luck.commits))
                && rows == old(rows)[id := AfterCall(old(rows)[id], luck)]
    {
      if id !in rows {
        return Returned(false);
      }
      if rows[id].status == Published {
        return Returned(true);
      }
      if rows[id].status == Failed {
        return Returned(false);
      }
      rows := rows[id := ClaimRow(rows[id])];
      if luck.completes && luck.commits {
        rows := rows[id := PublishRow(rows[id])];
        return Returned(true);
      }
      var row := rows[id];
      if row.attempts >= MAX_IDENTITY_EVENT_ATTEMPTS {
        row := row.(status := Failed, nextAttemptAt := None);
      } else {
        row := row.(status := Pending, nextAttemptAt := Some(luck.now + Delay(row.attempts)),
                    delays := row.delays + [Delay(row.attempts)]);
      }
      rows := rows[id := row];
      return Propagated;
    }

    /** What the two queries of the sweep may return. */
    ghost predicate Selected(ids: seq<Id>, due: seq<Id>, batchSize: nat, now: int)
      reads this
    {
      && |ids| <= batchSize && |due| <= batchSize - |ids|
      && Distinct(ids + due)
      && (forall id | id in ids :: id in rows && rows[id].status == Pending && rows[id].nextAttemptAt == None)
      && (forall id | id in due :: id in rows && rows[id].status == Pending
                                   && rows[id].nextAttemptAt.Some? && rows[id].nextAttemptAt.value <= now)
    }

    /** `retry_due_identity_domain_events_task`: every selected row is attempted once, and counted either
        as published or as failed. */
    method RetryDue(ids: seq<Id>, due: seq<Id>, batchSize: nat, now: int, lucks: seq<Luck>)
      returns (attempted: nat, published: nat, failed: nat)
      requires Selected(ids, due, batchSize, now) && |lucks| == |ids + due|
      modifies this
      ensures attempted == |ids| + |due| <= batchSize && published + failed == attempted
      ensures AttemptedOnce(old(rows), rows, ids + due)
      ensures published == CountPublished(rows, ids + due)
    {
      var all := ids + due;
      assert AllPending(rows, all);
      published, failed := 0, 0;
      for i := 0 to |all|
        invariant AttemptedOnce(old(rows), rows, all[..i])
        invariant published + failed == i
        invariant published == CountPublished(rows, all[..i])
      {
        ghost var before := rows;
        NextIsUntouched(old(rows), rows, all, i);
        var answer := Publish(all[i], lucks[i]);
        assert rows == before[all[i] := rows[all[i]]];
        if answer == Returned(true) {
          published := published + 1;
        } else if answer.Propagated? {
          failed := failed + 1;
        }
        SweepRound(old(rows), before, all, i, rows[all[i]]);
      }
      assert all[..|all|] == all;
      attempted := |ids| + |due|;
    }
  }
}
