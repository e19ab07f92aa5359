/** The terms of a payment while webhook workers, sweeps and refund requests interleave, lease expiries included:
    only its status ever changes, and only a true and timely report of it confirms it. */
module WebhookTerms {
  import opened Common
  import opened PaymentDomain
  import opened PaymentProtocol
  import opened W = WebhookWorkers
  import PaymentTerms

  predicate HasTermsOf(stored: map<Id, Row>, r: Id, row: Row) {
    r in stored && PaymentTerms.SameTerms(stored[r], row)
  }

  /** Every row that is stored, or that somebody has in hand, bears the terms it had at the start. */
  ghost predicate TermsOk(s0: map<Id, Row>, s: System) {
    && s.payments.Keys == s0.Keys
    && (forall r | r in s.payments :: HasTermsOf(s0, r, s.payments[r]))
    && (forall w | w in s.workers && s.workers[w].phase.Fetched? && s.workers[w].phase.found.Some? ::
          HasTermsOf(s0, s.workers[w].reference, s.workers[w].phase.found.value))
    && (forall o | o in s.outsiders && s.outsiders[o].Read? :: HasTermsOf(s0, s.outsiders[o].reference, s.outsiders[o].row))
  }

  lemma CommitKeepsTerms(s0: map<Id, Row>, s: System, w: Id, commits: bool)
    requires TermsOk(s0, s) && w in s.workers
    ensures TermsOk(s0, W.Step(s, Commit(w, commits)))
  {
    if s.workers[w].phase.Verified? || s.workers[w].phase.Fetched? {
      CommitConfirmsPending(s, w);
    }
  }

  lemma WorkerKeepsTerms(s0: map<Id, Row>, s: System, a: Action)
    requires TermsOk(s0, s) && IsWorkers(a)
    ensures TermsOk(s0, W.Step(s, a))
  {
    if a.w in s.workers {
      if a.Commit? {
        CommitKeepsTerms(s0, s, a.w, a.commits);
      } else {
        OnlyCommitsChangeTables(s, a);
      }
    }
  }

  lemma {:induction false} RunKeepsTerms(s0: map<Id, Row>, s: System, actions: seq<Action>)
    requires TermsOk(s0, s)
    ensures TermsOk(s0, W.Run(s, actions))
    decreases |actions|
  {
    if actions != [] {
      var a := actions[0];
      if IsWorkers(a) {
        WorkerKeepsTerms(s0, s, a);
      }
      RunKeepsTerms(s0, W.Step(s, a), actions[1..]);
    }
  }

  /** In every interleaving no payment appears or goes, and its terms stay those of the start. */
  lemma OnlyStatusesChange(start: System, actions: seq<Action>, r: Id)
    requires W.Start(start)
    ensures var s := W.Run(start, actions);
            && (r in s.payments <==> r in start.payments)
            && (r in s.payments ==> PaymentTerms.SameTerms(start.payments[r], s.payments[r]))
  {
    RunKeepsTerms(start.payments, start, actions);
  }

  /** In every interleaving a step confirms a payment only as the commit of a worker whose provider reported it
      as paid, with the reference, amount and currency that it had at the start, and whose command is no later
      than its time; the step confirms no other. */
  lemma {:induction false} OnlyTrueReportsConfirm(start: System, before: seq<Action>, a: Action)
    requires W.Start(start)
    ensures var s := W.Run(start, before);
            W.Step(s, a).successes != s.successes ==>
              && a.Commit? && a.w in s.workers && s.workers[a.w].phase.Fetched?
              && s.workers[a.w].reference in start.payments
              && (var row := start.payments[s.workers[a.w].reference];
                  && s.workers[a.w].phase.v == Reported(true, row.providerReference, row.amountMinor, row.currency)
                  && s.workers[a.w].now <= row.expiresAt)
              && W.Step(s, a).successes == s.successes + [s.workers[a.w].reference]
  {
    RunKeepsTerms(start.payments, start, before);
    var s := W.Run(start, before);
    if W.Step(s, a).successes != s.successes {
      if !a.Commit? {
        if IsWorkers(a) {
          OnlyCommitsChangeTables(s, a);
        }
      } else {
        var row := s.workers[a.w].phase.found.value;
        ConfirmSuccessMeans(row, ContextOf(row, s.workers[a.w].phase.v), s.workers[a.w].now);
      }
    }
  }
}
