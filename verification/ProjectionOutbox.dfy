/** The marketplace projection outbox of interface/governance/marketplace_outbox.py: events are enqueued in
    order, and each is delivered by calls that may fail before or after the marketplace has applied it.

    Calls do not overlap here; what overlapping calls do to such a row is shown for the identity outbox. */
module ProjectionOutbox {
  import opened Common
  import opened Projection

  const MAX_DELIVERY_ATTEMPTS: nat := 5
  const MAX_DELAY_MINUTES: nat := 30

  datatype Status = Pending | Processing | Delivered | Failed

  datatype OutboxRow = OutboxRow(event: Event, status: Status, attempts: nat, nextAttemptAt: Option<int>)

  /** How the remote call goes: it may raise although the marketplace has applied the event. */
  datatype Luck = Succeeds | FailsBefore | FailsAfter

  datatype Answer = Returned(delivered: bool) | Raised

  /** `applied` is a history variable: the rows whose events the marketplace applied, in order. */
  datatype State = State(rows: seq<OutboxRow>, view: View, applied: seq<nat>)

  /** `_mark_delivery_failed_or_pending`, with times in minutes. */
  function Mark(row: OutboxRow, now: int): OutboxRow {
    if row.attempts >= MAX_DELIVERY_ATTEMPTS then row.(status := Failed)
    else
      var delay := if Pow2(row.attempts) < MAX_DELAY_MINUTES then Pow2(row.attempts) else MAX_DELAY_MINUTES;
      row.(status := Pending, nextAttemptAt := Some(now + delay))
  }

  predicate Open(row: OutboxRow) {
    row.status != Delivered && row.status != Failed
  }

  function Begin(row: OutboxRow): OutboxRow {
    row.(status := Processing, attempts := row.attempts + 1)
  }

  function AfterAttempt(row: OutboxRow, luck: Luck, now: int): OutboxRow {
    if luck.Succeeds? then Begin(row).(status := Delivered) else Mark(Begin(row), now)
  }

  /** `deliver_marketplace_projection_outbox_event` as a whole; a missing row raises. */
  function Attempt(s: State, i: nat, luck: Luck, now: int): (State, Answer) {
    if i >= |s.rows| then (s, Raised)
    else if !Open(s.rows[i]) then (s, Returned(s.rows[i].status == Delivered))
    else
      var rows := s.rows[i := AfterAttempt(s.rows[i], luck, now)];
      if luck.FailsBefore? then (s.(rows := rows), Raised)
      else (State(rows, Deliver(s.view, s.rows[i].event), s.applied + [i]), if luck.Succeeds? then Returned(true) else Raised)
  }

  datatype Action = Enqueue(event: Event) | Delivery(row: nat, luck: Luck, now: int)

  function Step(s: State, a: Action): State {
    match a
    case Enqueue(event) => s.(rows := s.rows + [OutboxRow(event, Pending, 0, None)])
    case Delivery(i, luck, now) => Attempt(s, i, luck, now).0
  }

  function Run(view: View, actions: seq<Action>): State {
    if actions == [] then State([], view, []) else Step(Run(view, actions[..|actions| - 1]), actions[|actions| - 1])
  }

  // ---------------------------------------------------------------- what every run keeps

  function Times(applied: seq<nat>, i: nat): nat {
    if applied == [] then 0
    else Times(applied[..|applied| - 1], i) + if applied[|applied| - 1] == i then 1 else 0
  }

  lemma TimesAppend(applied: seq<nat>, j: nat, i: nat)
    ensures Times(applied + [j], i) == Times(applied, i) + if i == j then 1 else 0
  {
    assert (applied + [j])[..|applied|] == applied;
  }

  predicate InRange(rows: seq<OutboxRow>, applied: seq<nat>) {
    forall k | 0 <= k < |applied| :: applied[k] < |rows|
  }

  /** The events of the applied rows, in the order of application. */
  function EventsOf(rows: seq<OutboxRow>, applied: seq<nat>): seq<Event>
    requires InRange(rows, applied)
  {
    seq(|applied|, k requires 0 <= k < |applied| => rows[applied[k]].event)
  }

  lemma SameEvents(rows: seq<OutboxRow>, rows': seq<OutboxRow>, applied: seq<nat>)
    requires InRange(rows, applied) && |rows| <= |rows'|
    requires forall i | 0 <= i < |rows| :: rows'[i].event == rows[i].event
    ensures InRange(rows', applied) && EventsOf(rows', applied) == EventsOf(rows, applied)
  {
    var a, b := EventsOf(rows', applied), EventsOf(rows, applied);
    forall k | 0 <= k < |applied|
      ensures a[k] == b[k]
    {
      assert applied[k] < |rows|;
    }
  }

  lemma EventsAppend(rows: seq<OutboxRow>, applied: seq<nat>, i: nat)
    requires InRange(rows, applied) && i < |rows|
    ensures InRange(rows, applied + [i]) && EventsOf(rows, applied + [i]) == EventsOf(rows, applied) + [rows[i].event]
  {
  }

  predicate RowOk(s: State, i: nat)
    requires i < |s.rows|
  {
    var row := s.rows[i];
    && Times(s.applied, i) <= row.attempts <= MAX_DELIVERY_ATTEMPTS
    && (match row.status
        case Pending => row.attempts < MAX_DELIVERY_ATTEMPTS
        case Processing => false
        case Delivered => Times(s.applied, i) >= 1
        case Failed => row.attempts == MAX_DELIVERY_ATTEMPTS)
  }

  ghost predicate Inv(view: View, s: State) {
    && InRange(s.rows, s.applied)
    && (forall i | 0 <= i < |s.rows| :: RowOk(s, i))
    && s.view == DeliverAll(view, EventsOf(s.rows, s.applied))
  }

  lemma {:induction false} NeverApplied(applied: seq<nat>, i: nat)
    requires i !in applied
    ensures Times(applied, i) == 0
    decreases |applied|
  {
    if applied != [] {
      NeverApplied(applied[..|applied| - 1], i);
    }
  }

  lemma EnqueueKeepsInv(view: View, s: State, event: Event)
    requires Inv(view, s)
    ensures Inv(view, Step(s, Enqueue(event)))
  {
    var s' := Step(s, Enqueue(event));
    SameEvents(s.rows, s'.rows, s.applied);
    assert |s.rows| !in s.applied;
    NeverApplied(s.applied, |s.rows|);
    forall i | 0 <= i < |s'.rows|
      ensures RowOk(s', i)
    {
      assert i < |s.rows| ==> RowOk(s, i);
    }
  }

  lemma AttemptKeepsRows(s: State, i: nat, luck: Luck, now: int, j: nat)
    requires i < |s.rows| && j < |s.rows| && Open(s.rows[i]) && RowOk(s, i) && RowOk(s, j)
    ensures RowOk(Attempt(s, i, luck, now).0, j)
  {
    TimesAppend(s.applied, i, j);
  }

  lemma AttemptKeepsView(view: View, s: State, i: nat, luck: Luck, now: int)
    requires i < |s.rows| && Open(s.rows[i])
    requires InRange(s.rows, s.applied) && s.view == DeliverAll(view, EventsOf(s.rows, s.applied))
    ensures var s' := Attempt(s, i, luck, now).0;
            InRange(s'.rows, s'.applied) && s'.view == DeliverAll(view, EventsOf(s'.rows, s'.applied))
  {
    var rows' := s.rows[i := AfterAttempt(s.rows[i], luck, now)];
    assert rows'[i].event == s.rows[i].event;
    SameEvents(s.rows, rows', s.applied);
    if !luck.FailsBefore? {
      EventsAppend(rows', s.applied, i);
    }
  }

  lemma AttemptKeepsInv(view: View, s: State, i: nat, luck: Luck, now: int)
    requires Inv(view, s) && i < |s.rows| && Open(s.rows[i])
    ensures Inv(view, Attempt(s, i, luck, now).0)
  {
    AttemptKeepsView(view, s, i, luck, now);
    forall j | 0 <= j < |s.rows|
      ensures RowOk(Attempt(s, i, luck, now).0, j)
    {
      assert RowOk(s, i) && RowOk(s, j);
      AttemptKeepsRows(s, i, luck, now, j);
    }
  }

  lemma {:induction false} RunKeepsInv(view: View, actions: seq<Action>)
    ensures Inv(view, Run(view, actions))
    decreases |actions|
  {
    if actions != [] {
      var s := Run(view, actions[..|actions| - 1]);
      RunKeepsInv(view, actions[..|actions| - 1]);
      match actions[|actions| - 1]
      case Enqueue(event) => EnqueueKeepsInv(view, s, event);
      case Delivery(i, luck, now) =>
        if i < |s.rows| && Open(s.rows[i]) {
          AttemptKeepsInv(view, s, i, luck, now);
        }
    }
  }

  /** In every run: a row has at most five attempts and is applied at most once for each, a delivered row has
      been applied, a failed row has used all five, a pending row has not, none is left as PROCESSING, and the
      marketplace shows what applying the events in the order of `applied` gives. */
  lemma DeliveredMeansApplied(view: View, actions: seq<Action>, i: nat)
    requires i < |Run(view, actions).rows|
    ensures var s := Run(view, actions);
            && RowOk(s, i)
            && InRange(s.rows, s.applied)
            && s.view == DeliverAll(view, EventsOf(s.rows, s.applied))
  {
    RunKeepsInv(view, actions);
  }

  /** In every run: an open row has fewer than five attempts behind it.  A failed attempt puts the next one off by
      2, 4, 8 and 16 minutes in turn, so that the cap of 30 is never reached, and the fifth ends the row. */
  lemma RetrySchedule(view: View, actions: seq<Action>, i: nat, luck: Luck, now: int)
    requires i < |Run(view, actions).rows| && Open(Run(view, actions).rows[i]) && !luck.Succeeds?
    ensures var row := Run(view, actions).rows[i];
            var after := Attempt(Run(view, actions), i, luck, now).0.rows[i];
            && row.attempts < 5 && after.attempts == row.attempts + 1
            && (if row.attempts < 4 then
                  after.status == Pending && after.nextAttemptAt == Some(now + [2, 4, 8, 16][row.attempts])
                else
                  after.status == Failed)
  {
    RunKeepsInv(view, actions);
    assert RowOk(Run(view, actions), i);
    assert Pow2(1) == 2 && Pow2(2) == 4 && Pow2(3) == 8 && Pow2(4) == 16;
  }

  // ---------------------------------------------------------------- order

  /** The latest event enqueued about a vendor. */
  predicate IsLatest(rows: seq<OutboxRow>, i: nat) {
    i < |rows| && forall j | i < j < |rows| :: rows[j].event.vendorId != rows[i].event.vendorId
  }

  /** Nothing older about the vendor of row i has been applied after it. */
  predicate NotOvertaken(s: State, i: nat)
    requires i < |s.rows| && InRange(s.rows, s.applied)
  {
    exists n | 0 <= n < |s.applied| :: s.applied[n] == i && IsLastAbout(s, n)
  }

  predicate IsLastAbout(s: State, n: nat)
    requires n < |s.applied| && InRange(s.rows, s.applied)
  {
    forall m | n < m < |s.applied| :: s.rows[s.applied[m]].event.vendorId != s.rows[s.applied[n]].event.vendorId
  }

  /** What an event means for its vendor. */
  function Meant(e: Event): Option<Listing> {
    match e
    case UpsertVendor(_, listing) => Some(listing)
    case DeleteVendor(_) => None
  }

  lemma {:induction false} LastIs(log: seq<Event>, n: nat)
    requires n < |log| && forall m | n < m < |log| :: log[m].vendorId != log[n].vendorId
    ensures LastEvent(log, log[n].vendorId) == Some(log[n])
    decreases |log|
  {
    if n < |log| - 1 {
      assert forall m | n < m < |log| - 1 :: log[..|log| - 1][m] == log[m];
      LastIs(log[..|log| - 1], n);
    }
  }

  /** In every run, the vendor of the latest event is shown as that event says whenever the event has been
      applied and no older one about the vendor has been applied after it. */
  lemma LatestWinsUnlessOvertaken(view: View, actions: seq<Action>, i: nat)
    requires var s := Run(view, actions);
             && IsLatest(s.rows, i) && InRange(s.rows, s.applied) && NotOvertaken(s, i)
    ensures var s := Run(view, actions); Entry(s.view, s.rows[i].event.vendorId) == Meant(s.rows[i].event)
  {
    RunKeepsInv(view, actions);
    var s := Run(view, actions);
    var log := EventsOf(s.rows, s.applied);
    var n :| 0 <= n < |s.applied| && s.applied[n] == i && IsLastAbout(s, n);
    forall m | n < m < |log|
      ensures log[m].vendorId != log[n].vendorId
    {
      assert s.applied[m] < |s.rows|;
    }
    LastIs(log, n);
    LastEventWins(view, log, s.rows[i].event.vendorId);
  }

  // ---------------------------------------------------------------- what is shown from now on

  function Continue(s: State, actions: seq<Action>): State
    decreases |actions|
  {
    if actions == [] then s else Continue(Step(s, actions[0]), actions[1..])
  }

  /** Continuing the state that a run has reached gives the longer run. */
  lemma {:induction false} ContinueIsRun(view: View, actions: seq<Action>, more: seq<Action>)
    ensures Continue(Run(view, actions), more) == Run(view, actions + more)
    decreases |more|
  {
    if more == [] {
      assert actions + more == actions;
    } else {
      assert actions + more == (actions + [more[0]]) + more[1..];
      assert (actions + [more[0]])[..|actions|] == actions;
      ContinueIsRun(view, actions + [more[0]], more[1..]);
    }
  }

  /** No new event about the vendor is enqueued. */
  predicate NothingNewAbout(actions: seq<Action>, v: Id) {
    forall a | a in actions :: a.Enqueue? ==> a.event.vendorId != v
  }

  /** Every row about the vendor that may still be delivered means what is shown. */
  predicate OpenRowsMean(s: State, v: Id, m: Option<Listing>) {
    forall i | 0 <= i < |s.rows| && Open(s.rows[i]) && s.rows[i].event.vendorId == v :: Meant(s.rows[i].event) == m
  }

  lemma {:induction false} ContinueKeepsShown(s: State, actions: seq<Action>, v: Id, m: Option<Listing>)
    requires Entry(s.view, v) == m && OpenRowsMean(s, v, m) && NothingNewAbout(actions, v)
    ensures Entry(Continue(s, actions).view, v) == m
    decreases |actions|
  {
    if actions != [] {
      assert actions[0] in actions;
      assert forall a | a in actions[1..] :: a in actions;
      ContinueKeepsShown(Step(s, actions[0]), actions[1..], v, m);
    }
  }

  ghost predicate KeepsShowing(s: State, v: Id, m: Option<Listing>) {
    forall actions | NothingNewAbout(actions, v) :: Entry(Continue(s, actions).view, v) == m
  }

  /** From any state: what is shown about a vendor stays, in every continuation without a new event about it,
      if and only if every row about the vendor that is still open means the same. */
  lemma StaysShownExactlyWhenOpenRowsAgree(s: State, v: Id, m: Option<Listing>)
    requires Entry(s.view, v) == m
    ensures KeepsShowing(s, v, m) <==> OpenRowsMean(s, v, m)
  {
    if OpenRowsMean(s, v, m) {
      forall actions | NothingNewAbout(actions, v)
        ensures Entry(Continue(s, actions).view, v) == m
      {
        ContinueKeepsShown(s, actions, v, m);
      }
    } else {
      var i :| 0 <= i < |s.rows| && Open(s.rows[i]) && s.rows[i].event.vendorId == v && Meant(s.rows[i].event) != m;
      var run := [Delivery(i, Succeeds, 0)];
      assert run[1..] == [];
      assert Continue(s, run) == Continue(Step(s, run[0]), []);
      assert NothingNewAbout(run, v);
    }
  }

  /** So in every run: once the latest event about a vendor has been applied and nothing older after it, the
      vendor is shown as that event says in every longer run without a new event about it, if and only if
      every row about it that is still open means the same. */
  lemma LatestStaysShownExactlyWhen(view: View, actions: seq<Action>, i: nat)
    requires var s := Run(view, actions);
             && IsLatest(s.rows, i) && InRange(s.rows, s.applied) && NotOvertaken(s, i)
    ensures var s := Run(view, actions);
            var e := s.rows[i].event;
            (forall more | NothingNewAbout(more, e.vendorId) :: Entry(Run(view, actions + more).view, e.vendorId) == Meant(e))
            <==> OpenRowsMean(s, e.vendorId, Meant(e))
  {
    LatestWinsUnlessOvertaken(view, actions, i);
    var s := Run(view, actions);
    var e := s.rows[i].event;
    StaysShownExactlyWhenOpenRowsAgree(s, e.vendorId, Meant(e));
    forall more
      ensures Continue(s, more) == Run(view, actions + more)
    {
      ContinueIsRun(view, actions, more);
    }
  }

  // ---------------------------------------------------------------- a reconciliation through the outbox

  /** What happens after a reconciliation has enqueued its upserts: attempts to deliver, and its deletions. */
  datatype Work = Attempted(row: nat, luck: Luck, now: int) | Removed(vendorId: Id)

  function DoWork(s: State, w: Work): State {
    match w
    case Attempted(i, luck, now) => Attempt(s, i, luck, now).0
    case Removed(v) => s.(view := s.view - {v})
  }

  function DoAll(s: State, works: seq<Work>): State {
    if works == [] then s else DoWork(DoAll(s, works[..|works| - 1]), works[|works| - 1])
  }

  /** What one piece of work does to the marketplace, as a log of at most one event. */
  function Effect(s: State, w: Work): seq<Event> {
    match w
    case Removed(v) => [DeleteVendor(v)]
    case Attempted(i, luck, _) => if i < |s.rows| && Open(s.rows[i]) && !luck.FailsBefore? then [s.rows[i].event] else []
  }

  function EffectOfAll(s: State, works: seq<Work>): seq<Event> {
    if works == [] then []
    else EffectOfAll(s, works[..|works| - 1]) + Effect(DoAll(s, works[..|works| - 1]), works[|works| - 1])
  }

  lemma WorkShows(s: State, w: Work, view: View, log: seq<Event>)
    requires s.view == DeliverAll(view, log)
    ensures DoWork(s, w).view == DeliverAll(view, log + Effect(s, w))
  {
    if Effect(s, w) == [] {
      assert log + Effect(s, w) == log;
    } else {
      assert Effect(s, w) == [Effect(s, w)[0]];
    }
  }

  lemma {:induction false} WorksShow(s: State, works: seq<Work>)
    ensures DoAll(s, works).view == DeliverAll(s.view, EffectOfAll(s, works))
    decreases |works|
  {
    if works != [] {
      WorksShow(s, works[..|works| - 1]);
      WorkShows(DoAll(s, works[..|works| - 1]), works[|works| - 1], s.view, EffectOfAll(s, works[..|works| - 1]));
    }
  }

  /** Rows keep their events, closed rows stay closed, and only effects of open rows and removals occur. */
  predicate WorkedFrom(s: State, t: State, log: seq<Event>, works: seq<Work>) {
    && |t.rows| == |s.rows|
    && (forall i | 0 <= i < |s.rows| :: t.rows[i].event == s.rows[i].event && (Open(t.rows[i]) ==> Open(s.rows[i])))
    && (forall i | 0 <= i < |s.rows| && Open(s.rows[i]) && t.rows[i].status == Delivered :: s.rows[i].event in log)
    && (forall e | e in log ::
          (exists i | 0 <= i < |s.rows| :: Open(s.rows[i]) && s.rows[i].event == e)
          || (e.DeleteVendor? && Removed(e.vendorId) in works))
    && (forall w | w in works && w.Removed? :: DeleteVendor(w.vendorId) in log)
  }

  lemma WorkGoesOn(s: State, t: State, log: seq<Event>, works: seq<Work>, w: Work)
    requires WorkedFrom(s, t, log, works)
    ensures WorkedFrom(s, DoWork(t, w), log + Effect(t, w), works + [w])
  {
    var u := DoWork(t, w);
    var log' := log + Effect(t, w);
    forall e | e in log'
      ensures (exists i | 0 <= i < |s.rows| :: Open(s.rows[i]) && s.rows[i].event == e)
              || (e.DeleteVendor? && Removed(e.vendorId) in works + [w])
    {
      if e !in log && w.Attempted? {
        assert Open(s.rows[w.row]) && s.rows[w.row].event == e;
      } else if e !in log {
        assert e == DeleteVendor(w.vendorId);
      }
    }
    forall i | 0 <= i < |s.rows| && Open(s.rows[i]) && u.rows[i].status == Delivered
      ensures s.rows[i].event in log'
    {
      if t.rows[i].status != Delivered {
        assert w.Attempted? && w.row == i;
      }
    }
    forall x | x in works + [w] && x.Removed?
      ensures DeleteVendor(x.vendorId) in log'
    {
      assert x == w ==> Effect(t, w)[0] == DeleteVendor(x.vendorId);
    }
  }

  lemma {:induction false} WorksGoOn(s: State, works: seq<Work>)
    ensures WorkedFrom(s, DoAll(s, works), EffectOfAll(s, works), works)
    decreases |works|
  {
    if works != [] {
      var before := works[..|works| - 1];
      WorksGoOn(s, before);
      WorkGoesOn(s, DoAll(s, before), EffectOfAll(s, before), before, works[|works| - 1]);
      assert before + [works[|works| - 1]] == works;
    }
  }

  /** The rows that a reconciliation adds. */
  function NewRows(events: seq<Event>): seq<OutboxRow> {
    seq(|events|, k requires 0 <= k < |events| => OutboxRow(events[k], Pending, 0, None))
  }

  predicate AllDelivered(rows: seq<OutboxRow>, from: nat) {
    forall i | from <= i < |rows| :: rows[i].status == Delivered
  }

  predicate AllClosed(rows: seq<OutboxRow>) {
    forall i | 0 <= i < |rows| :: !Open(rows[i])
  }

  /** The outbox after the reconciliation's first loop. */
  function Enqueued(s: State, vendors: seq<Vendor>): State {
    s.(rows := s.rows + NewRows(EventsFor(ApprovedComplete(vendors))))
  }

  lemma NewRowsDone(s: State, events: seq<Event>, t: State, log: seq<Event>, works: seq<Work>)
    requires AllClosed(s.rows) && WorkedFrom(s.(rows := s.rows + NewRows(events)), t, log, works)
    requires AllDelivered(t.rows, |s.rows|)
    ensures forall e | e in events :: e in log
    ensures forall e | e in log :: e in events || (e.DeleteVendor? && Removed(e.vendorId) in works)
  {
    var rows := s.rows + NewRows(events);
    forall e | e in events
      ensures e in log
    {
      var k :| 0 <= k < |events| && events[k] == e;
      assert rows[|s.rows| + k] == OutboxRow(e, Pending, 0, None);
      assert t.rows[|s.rows| + k].status == Delivered;
    }
    forall e | e in log
      ensures e in events || (e.DeleteVendor? && Removed(e.vendorId) in works)
    {
      if i :| 0 <= i < |rows| && Open(rows[i]) && rows[i].event == e {
        assert i >= |s.rows| && rows[i] == NewRows(events)[i - |s.rows|];
      }
    }
  }

  /** From any marketplace, when no row is open: a reconciliation enqueues its upserts, and its deletions and any
      attempts to deliver go on in any order, with failures and retries.  Once every new row is delivered and
      every stale vendor removed, the marketplace shows exactly the approved and complete vendors with their
      current listings. */
  lemma ReconciliationThroughTheOutbox(s: State, vendors: seq<Vendor>, works: seq<Work>)
    requires DistinctIds(vendors) && AllClosed(s.rows)
    requires forall v :: Removed(v) in works <==> v in Stale(s.view, vendors)
    requires AllDelivered(DoAll(Enqueued(s, vendors), works).rows, |s.rows|)
    ensures IsCurrent(DoAll(Enqueued(s, vendors), works).view, vendors)
  {
    var events := EventsFor(ApprovedComplete(vendors));
    var start := Enqueued(s, vendors);
    var log := EffectOfAll(start, works);
    WorksShow(start, works);
    WorksGoOn(start, works);
    NewRowsDone(s, events, DoAll(start, works), log, works);
    forall v | v in Stale(s.view, vendors)
      ensures DeleteVendor(v) in log
    {
      assert Removed(v) in works && Removed(v).Removed?;
    }
    ReconciliationConverges(s.view, vendors, log);
  }

  /** Retries do not keep the order: when the upsert of a vendor fails at first, the delete that follows is
      delivered, and the upsert is retried, the vendor is shown although its latest event is the delete. */
  lemma RetryRevivesTheListing(s: State, v: Id, listing: Listing, now: int, later: int)
    ensures var u, d := |s.rows|, |s.rows| + 1;
            var enqueued := Step(Step(s, Enqueue(UpsertVendor(v, listing))), Enqueue(DeleteVendor(v)));
            var hidden := Step(Step(enqueued, Delivery(u, FailsBefore, now)), Delivery(d, Succeeds, now));
            var t := Step(hidden, Delivery(u, Succeeds, later));
            && v !in hidden.view
            && IsLatest(t.rows, d) && t.rows[d].status == Delivered && t.rows[u].status == Delivered
            && v in t.view && t.view[v] == listing
  {
    var u, d := |s.rows|, |s.rows| + 1;
    var enqueued := Step(Step(s, Enqueue(UpsertVendor(v, listing))), Enqueue(DeleteVendor(v)));
    assert enqueued.rows == s.rows + [OutboxRow(UpsertVendor(v, listing), Pending, 0, None),
                                      OutboxRow(DeleteVendor(v), Pending, 0, None)];
    assert Pow2(1) == 2;
  }

  // ---------------------------------------------------------------- the class

  class Outbox {
    var rows: seq<OutboxRow>
    var view: View
    ghost var applied: seq<nat>

    constructor (view: View)
      ensures Store() == Run(view, [])
    {
      this.view := view;
      rows, applied := [], [];
    }

    ghost function Store(): State
      reads this
    {
      State(rows, view, applied)
    }

    method DeliverOutboxEvent(i: nat, luck: Luck, now: int) returns (answer: Answer)
      modifies this
      ensures (Store(), answer) == Attempt(old(Store()), i, luck, now)
    {
      if i >= |rows| {
        return Raised;
      }
      if rows[i].status == Delivered {
        return Returned(true);
      }
      if rows[i].status == Failed {
        return Returned(false);
      }
      ghost var before := rows;
      rows := rows[i := Begin(rows[i])];
      if !luck.FailsBefore? {
        view := Deliver(view, rows[i].event);
        applied := applied + [i];
      }
      if !luck.Succeeds? {
        rows := rows[i := Mark(rows[i], now)];
        assert rows == before[i := AfterAttempt(before[i], luck, now)];
        return Raised;
      }
      rows := rows[i := rows[i].(status := Delivered)];
      assert rows == before[i := AfterAttempt(before[i], luck, now)];
      return Returned(true);
    }

    /** What the query of the sweep may return: due rows, each once. */
    ghost predicate Due(ids: seq<nat>, limit: nat, now: int)
      reads this
    {
      && |ids| <= limit && (forall k, l | 0 <= k < l < |ids| :: ids[k] != ids[l])
      && forall i | i in ids ::
           && i < |rows| && rows[i].status == Pending && rows[i].attempts < MAX_DELIVERY_ATTEMPTS
           && (rows[i].nextAttemptAt.Some? ==> rows[i].nextAttemptAt.value <= now)
    }

    /** The sweep attempts every selected row once and no other; each is counted as delivered or as an error,
        and none is ever counted as failed. */
    method RetryDue(ids: seq<nat>, limit: nat, now: int, lucks: seq<Luck>) returns (delivered: nat, failed: nat, errors: nat)
      requires Due(ids, limit, now) && |lucks| == |ids|
      modifies this
      ensures delivered + errors == |ids| <= limit && failed == 0
      ensures |rows| == |old(rows)|
      ensures forall k | 0 <= k < |ids| :: ids[k] < |rows| && rows[ids[k]] == AfterAttempt(old(rows)[ids[k]], lucks[k], now)
      ensures forall i | 0 <= i < |rows| && i !in ids :: rows[i] == old(rows)[i]
    {
      delivered, failed, errors := 0, 0, 0;
      for n := 0 to |ids|
        invariant delivered + errors == n && failed == 0
        invariant |rows| == |old(rows)|
        invariant forall k | 0 <= k < n :: ids[k] < |rows| && rows[ids[k]] == AfterAttempt(old(rows)[ids[k]], lucks[k], now)
        invariant forall i | 0 <= i < |rows| && i !in ids[..n] :: rows[i] == old(rows)[i]
      {
        assert ids[n] in ids && ids[n] !in ids[..n];
        var answer := DeliverOutboxEvent(ids[n], lucks[n], now);
        if answer == Returned(true) {
          delivered := delivered + 1;
        } else if answer == Returned(false) {
          failed := failed + 1;
        } else {
          errors := errors + 1;
        }
        assert ids[..n + 1] == ids[..n] + [ids[n]];
      }
    }
  }
}
