/** The webhook records of payments/application/handlers.py and the retry task of payments/tasks.py over runs.

    The handlers store the upper-case names of the statuses.  The retry task selects by the values of the
    enumeration, which are the lower-case names, so it never finds a record that a handler wrote. */
module PaymentWebhooks {
  import opened Common
  import opened PaymentDomain
  import opened PaymentProtocol

  /** The two sets of the retry task partition the enumeration and contain none of the names that are stored. */
  lemma RetrySetsPartition(status: StatusText)
    ensures status.LowerCase? ==> (IsRetryable(status) <==> !IsTerminal(status))
    ensures status.UpperCase? ==> !IsRetryable(status) && !IsTerminal(status)
  {
    match status.kind {
      case Processing =>
      case LockFailedRetry =>
      case VerifyFailedRetry =>
      case _ =>
    }
  }

  // ---------------------------------------------------------------- one table and the next

  predicate UniqueIds(ws: seq<Webhook>) {
    forall i, j | 0 <= i < j < |ws| :: ws[i].eventId != ws[j].eventId
  }

  /** A record as a handler leaves it: never as PROCESSING, although that name is saved first. */
  predicate Written(w: Webhook) {
    w.status.UpperCase? && w.status.kind != Processing
  }

  /** A record stays as it is, or it was retryable and a handler has written it. */
  predicate Kept(w: Webhook, w': Webhook) {
    w' == w || (w'.eventId == w.eventId && w'.txRef == w.txRef && IsRetryable(w.status) && Written(w'))
  }

  predicate Evolves(ws: seq<Webhook>, ws': seq<Webhook>) {
    && |ws| <= |ws'|
    && (forall i | 0 <= i < |ws| :: Kept(ws[i], ws'[i]))
    && (forall i | |ws| <= i < |ws'| :: Written(ws'[i]))
  }

  lemma {:induction false} SaveEventAppends(ws: seq<Webhook>, eventId: Id, kind: WebhookKind, txRef: Option<Id>)
    requires !Recorded(ws, eventId)
    ensures SaveEvent(ws, eventId, kind, txRef) == ws + [Webhook(eventId, UpperCase(kind), txRef)]
  {
    if ws != [] {
      assert ws[0] in ws;
      assert forall x | x in ws[1..] :: x in ws;
      SaveEventAppends(ws[1..], eventId, kind, txRef);
      assert ws == [ws[0]] + ws[1..];
    }
  }

  lemma {:induction false} SaveEventReplaces(ws: seq<Webhook>, i: nat, eventId: Id, kind: WebhookKind, txRef: Option<Id>)
    requires i < |ws| && ws[i].eventId == eventId && forall j | 0 <= j < i :: ws[j].eventId != eventId
    ensures SaveEvent(ws, eventId, kind, txRef) == ws[i := Webhook(eventId, UpperCase(kind), txRef)]
  {
    if i > 0 {
      assert ws[0].eventId != eventId;
      SaveEventReplaces(ws[1..], i - 1, eventId, kind, txRef);
      assert ws == [ws[0]] + ws[1..];
    }
  }

  /** Saving replaces the one record of the event, or adds it at the end. */
  lemma {:induction false} SaveEventMeans(ws: seq<Webhook>, eventId: Id, kind: WebhookKind, txRef: Option<Id>)
    requires UniqueIds(ws)
    ensures var saved := Webhook(eventId, UpperCase(kind), txRef);
            var ws' := SaveEvent(ws, eventId, kind, txRef);
            && UniqueIds(ws') && Recorded(ws', eventId)
            && (!Recorded(ws, eventId) ==> ws' == ws + [saved])
            && (Recorded(ws, eventId) ==> |ws'| == |ws|)
            && forall i | 0 <= i < |ws| :: ws'[i] == if ws[i].eventId == eventId then saved else ws[i]
  {
    var saved := Webhook(eventId, UpperCase(kind), txRef);
    if Recorded(ws, eventId) {
      var i :| 0 <= i < |ws| && ws[i].eventId == eventId;
      SaveEventReplaces(ws, i, eventId, kind, txRef);
      assert ws[i := saved][i] in ws[i := saved];
    } else {
      SaveEventAppends(ws, eventId, kind, txRef);
      assert forall i | 0 <= i < |ws| :: ws[i] in ws;
      assert (ws + [saved])[|ws|] in ws + [saved];
    }
  }

  // ---------------------------------------------------------------- every call

  /** What a call of the handler may do to the table: nothing, or save its own event under a written status. */
  lemma HandlerSavesItsEvent(s: State, w: WebhookCall, allowExisting: bool)
    ensures var (s', outcome) := ProcessWebhook(s, w, allowExisting);
            if outcome.Saved? then
              && outcome.kind != Processing && (allowExisting || !Recorded(s.webhooks, w.eventId))
              && s'.webhooks == SaveEvent(s.webhooks, w.eventId, outcome.kind, w.txRef)
            else s' == s
  {
  }

  lemma DeliveryEvolves(s: State, w: WebhookCall)
    requires UniqueIds(s.webhooks)
    ensures var s' := ProcessWebhook(s, w, false).0; UniqueIds(s'.webhooks) && Evolves(s.webhooks, s'.webhooks)
  {
    HandlerSavesItsEvent(s, w, false);
    var (s', outcome) := ProcessWebhook(s, w, false);
    if outcome.Saved? {
      SaveEventMeans(s.webhooks, w.eventId, outcome.kind, w.txRef);
    }
  }

  predicate IsNewest(ws: seq<Webhook>, i: int, providerReference: Id, unreadable: set<Id>) {
    && 0 <= i < |ws| && IsCandidate(ws[i], providerReference, unreadable)
    && forall j | i < j < |ws| :: !IsCandidate(ws[j], providerReference, unreadable)
  }

  /** `_load_retry_event` returns the newest candidate, and nothing exactly when there is none. */
  lemma {:induction false} LoadsTheNewest(ws: seq<Webhook>, providerReference: Id, unreadable: set<Id>)
    ensures var found := LoadRetryEvent(ws, providerReference, unreadable);
            && (found.None? <==> forall i | 0 <= i < |ws| :: !IsCandidate(ws[i], providerReference, unreadable))
            && (found.Some? ==> exists i :: IsNewest(ws, i, providerReference, unreadable) && ws[i] == found.value)
  {
    if ws == [] {
    } else if IsCandidate(ws[|ws| - 1], providerReference, unreadable) {
      assert IsNewest(ws, |ws| - 1, providerReference, unreadable);
    } else {
      var older := ws[..|ws| - 1];
      LoadsTheNewest(older, providerReference, unreadable);
      assert forall i | 0 <= i < |older| :: ws[i] == older[i];
      var found := LoadRetryEvent(ws, providerReference, unreadable);
      if found.Some? {
        var i :| IsNewest(older, i, providerReference, unreadable) && older[i] == found.value;
        assert IsNewest(ws, i, providerReference, unreadable);
      }
    }
  }

  lemma {:induction false} RetryEvolves(s: State, y: RetryCall)
    requires UniqueIds(s.webhooks)
    ensures var s' := ProcessRetry(s, y).0; UniqueIds(s'.webhooks) && Evolves(s.webhooks, s'.webhooks)
  {
    var found := LoadRetryEvent(s.webhooks, y.providerReference, y.unreadable);
    LoadsTheNewest(s.webhooks, y.providerReference, y.unreadable);
    if found.Some? && !IsTerminal(found.value.status) {
      var i :| 0 <= i < |s.webhooks| && s.webhooks[i] == found.value;
      assert s.webhooks[i] in s.webhooks;
      var w := WebhookCall(found.value.eventId, found.value.txRef, y.lockFree, y.verification, y.fetches, y.now, y.commits);
      HandlerSavesItsEvent(s, w, true);
      var (s', outcome) := ProcessWebhook(s, w, true);
      if outcome.Saved? {
        SaveEventMeans(s.webhooks, w.eventId, outcome.kind, w.txRef);
        forall k | 0 <= k < |s.webhooks|
          ensures Kept(s.webhooks[k], s'.webhooks[k])
        {
          assert s.webhooks[k].eventId == w.eventId ==> k == i;
        }
      }
    }
  }

  lemma {:induction false} ExpireFirstKeepsWebhooks(s: State, scanned: seq<Id>, n: nat)
    requires n <= |scanned|
    ensures ExpireFirst(s, scanned, n).webhooks == s.webhooks
    decreases n
  {
    if n > 0 {
      ExpireFirstKeepsWebhooks(s, scanned, n - 1);
    }
  }

  lemma StepEvolves(s: State, c: Call)
    requires UniqueIds(s.webhooks)
    ensures var s' := Step(s, c).0; UniqueIds(s'.webhooks) && Evolves(s.webhooks, s'.webhooks)
  {
    match c
    case Initiation(_) =>
    case Webhooks(w) => DeliveryEvolves(s, w);
    case Refund(_) =>
    case Expiry(e) => ExpireFirstKeepsWebhooks(s, e.scanned, if e.failsAt < |e.scanned| then e.failsAt else |e.scanned|);
    case Retry(y) => RetryEvolves(s, y);
  }

  lemma {:induction false} RunEvolves(s: State, calls: seq<Call>)
    requires UniqueIds(s.webhooks)
    ensures var s' := Run(s, calls); UniqueIds(s'.webhooks) && Evolves(s.webhooks, s'.webhooks)
    decreases |calls|
  {
    if calls != [] {
      RunEvolves(s, calls[..|calls| - 1]);
      var before := Run(s, calls[..|calls| - 1]);
      StepEvolves(before, calls[|calls| - 1]);
    }
  }

  // ---------------------------------------------------------------- the theorems

  /** In every run: event ids stay unique, no record is removed, none is left as PROCESSING by a handler, and
      a record that is not retryable (a terminal one, or any that a handler wrote) never changes again. */
  lemma SettledRecordsNeverChange(s: State, calls: seq<Call>, i: nat)
    requires UniqueIds(s.webhooks)
    ensures var ws := Run(s, calls).webhooks;
            && UniqueIds(ws) && |s.webhooks| <= |ws|
            && (i < |s.webhooks| && !IsRetryable(s.webhooks[i].status) ==> ws[i] == s.webhooks[i])
            && (i < |ws| && (i >= |s.webhooks| || ws[i] != s.webhooks[i]) ==> Written(ws[i]))
  {
    RunEvolves(s, calls);
    var ws := Run(s, calls).webhooks;
    assert i < |s.webhooks| ==> Kept(s.webhooks[i], ws[i]);
  }

  /** Once a delivery has left a record of its event, every later delivery of the event changes nothing. */
  lemma RedeliveryChangesNothing(s: State, w: WebhookCall, calls: seq<Call>, again: WebhookCall)
    requires UniqueIds(s.webhooks) && again.eventId == w.eventId
    requires ProcessWebhook(s, w, false).1.Saved? || ProcessWebhook(s, w, false).1.Ignored?
    ensures var later := Run(ProcessWebhook(s, w, false).0, calls);
            ProcessWebhook(later, again, false) == (later, Ignored)
  {
    var (s', outcome) := ProcessWebhook(s, w, false);
    DeliveryEvolves(s, w);
    HandlerSavesItsEvent(s, w, false);
    if outcome.Saved? {
      SaveEventMeans(s.webhooks, w.eventId, outcome.kind, w.txRef);
    }
    var i :| 0 <= i < |s'.webhooks| && s'.webhooks[i].eventId == w.eventId;
    RunEvolves(s', calls);
    var later := Run(s', calls);
    assert Kept(s'.webhooks[i], later.webhooks[i]);
    assert later.webhooks[i] in later.webhooks;
  }

  /** In every run the retry task finds an event for a reference exactly when the table held one under an
      enumeration value before the run and no handler has written it since. */
  lemma {:induction false} RetryFindsOnlyForeignRecords(webhooks: seq<Webhook>, calls: seq<Call>, y: RetryCall)
    requires UniqueIds(webhooks)
    ensures var ws := Run(Start(webhooks), calls).webhooks;
            && |webhooks| <= |ws|
            && (LoadRetryEvent(ws, y.providerReference, y.unreadable).Some? <==>
                  exists i | 0 <= i < |webhooks| :: ws[i] == webhooks[i] && webhooks[i].status.LowerCase?
                    && webhooks[i].eventId !in y.unreadable && webhooks[i].txRef == Some(y.providerReference))
  {
    RunEvolves(Start(webhooks), calls);
    var ws := Run(Start(webhooks), calls).webhooks;
    LoadsTheNewest(ws, y.providerReference, y.unreadable);
    forall i | 0 <= i < |ws|
      ensures IsCandidate(ws[i], y.providerReference, y.unreadable) <==>
                && i < |webhooks| && ws[i] == webhooks[i] && webhooks[i].status.LowerCase?
                && webhooks[i].eventId !in y.unreadable && webhooks[i].txRef == Some(y.providerReference)
    {
      RetrySetsPartition(ws[i].status);
      assert i < |webhooks| ==> Kept(webhooks[i], ws[i]);
    }
  }

  /** From an empty table, the retry task never finds an event and never changes anything. */
  lemma RetriesFindNothing(calls: seq<Call>, y: RetryCall)
    ensures var s := Run(Start([]), calls); ProcessRetry(s, y) == (s, MissingEvent)
  {
    RetryFindsOnlyForeignRecords([], calls, y);
  }

  /** The state after a delivery that could not take the lock: its record is the last. */
  lemma {:induction false} FailedLockIsRecorded(calls: seq<Call>, w: WebhookCall)
    requires w.txRef.Some? && !w.lockFree && w.commits && !Recorded(Run(Start([]), calls).webhooks, w.eventId)
    ensures var s := Run(Start([]), calls);
            var s' := ProcessWebhook(s, w, false).0;
            && Run(Start([]), calls + [Webhooks(w)]) == s' && ProcessWebhook(s, w, false).1 == Saved(LockFailedRetry)
            && UniqueIds(s.webhooks) && UniqueIds(s'.webhooks)
            && s'.webhooks == s.webhooks + [Webhook(w.eventId, UpperCase(LockFailedRetry), w.txRef)]
  {
    var s := Run(Start([]), calls);
    RunEvolves(Start([]), calls);
    SaveEventMeans(s.webhooks, w.eventId, LockFailedRetry, w.txRef);
    assert (calls + [Webhooks(w)])[..|calls|] == calls;
  }

  /** A delivery that could not take the lock is recorded, and from then on neither a redelivery nor a retry of
      its event does anything, whatever the provider says and however free the lock is. */
  lemma FailedLockIsForever(calls: seq<Call>, w: WebhookCall, more: seq<Call>, again: WebhookCall, y: RetryCall)
    requires var s := Run(Start([]), calls);
             w.txRef.Some? && !w.lockFree && w.commits && !Recorded(s.webhooks, w.eventId)
    requires again.eventId == w.eventId
    ensures var later := Run(Start([]), calls + [Webhooks(w)] + more);
            && Webhook(w.eventId, UpperCase(LockFailedRetry), w.txRef) in later.webhooks
            && Step(later, Webhooks(again)) == (later, Ignored) && Step(later, Retry(y)) == (later, MissingEvent)
  {
    var s := Run(Start([]), calls);
    var s' := ProcessWebhook(s, w, false).0;
    FailedLockIsRecorded(calls, w);
    RunSplits(Start([]), calls + [Webhooks(w)], more);
    var n := |s.webhooks|;
    SettledRecordsNeverChange(s', more, n);
    var later := Run(s', more);
    assert later.webhooks[n] in later.webhooks;
    RedeliveryChangesNothing(s, w, more, again);
    RetriesFindNothing(calls + [Webhooks(w)] + more, y);
  }

  lemma {:induction false} RunSplits(s: State, a: seq<Call>, b: seq<Call>)
    ensures Run(s, a + b) == Run(Run(s, a), b)
    decreases |b|
  {
    if b == [] {
      assert a + b == a;
    } else {
      assert (a + b)[..|a + b| - 1] == a + b[..|b| - 1];
      RunSplits(s, a, b[..|b| - 1]);
    }
  }
}
