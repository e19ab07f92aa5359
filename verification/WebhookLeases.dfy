/** How often a payment can be confirmed when leases run out: once, and once more for each lease of its lock
    that has run out, however workers, sweeps and refund requests interleave. */
module WebhookLeases {
  import opened Common
  import opened PaymentDomain
  import opened PaymentProtocol
  import opened W = WebhookWorkers
  import opened WebhookStability

  function Expiries(actions: seq<Action>, r: Id): nat {
    if actions == [] then 0
    else (if actions[0] == LeaseExpires(r) then 1 else 0) + Expiries(actions[1..], r)
  }

  /** The workers inside for a reference, and those among them that have fetched its payment as PENDING. */
  function InsideFor(workers: map<Id, Worker>, r: Id): set<Id> {
    set w | w in workers && Inside(workers[w]) && workers[w].reference == r
  }

  function SawIt(workers: map<Id, Worker>, r: Id): set<Id> {
    set w | w in workers && SawPending(workers[w]) && workers[w].reference == r
  }

  function Locked(s: System, r: Id): nat {
    if r in s.locks then 1 else 0
  }

  lemma SawIsInside(workers: map<Id, Worker>, r: Id)
    ensures |SawIt(workers, r)| <= |InsideFor(workers, r)|
  {
    assert forall w | w in SawIt(workers, r) :: w in InsideFor(workers, r);
    SubsetSize(SawIt(workers, r), InsideFor(workers, r));
  }

  /** With n lease expiries so far: the workers inside are at most one more than those locks that ran out, and
      so are the confirmations together with those who may still confirm. */
  ghost predicate Bounded(s0: map<Id, Row>, s: System, r: Id, n: nat) {
    && |InsideFor(s.workers, r)| <= Locked(s, r) + n
    && Count(s.successes, r) + |SawIt(s.workers, r)| <= 1 + n
    && (Open(s.payments, r) ==> Open(s0, r) && Count(s.successes, r) == 0)
    && (!Open(s0, r) ==> Count(s.successes, r) == 0 && SawIt(s.workers, r) == {})
  }

  // ---------------------------------------------------------------- how the two sets change

  predicate OneMoves(a: map<Id, Worker>, b: map<Id, Worker>, w: Id) {
    w in a && w in b && b == a[w := a[w].(phase := b[w].phase)]
  }

  lemma InsideChanges(a: map<Id, Worker>, b: map<Id, Worker>, w: Id, r: Id)
    requires OneMoves(a, b, w)
    ensures |InsideFor(b, r)| == |InsideFor(a, r)|
              + (if a[w].reference != r || Inside(a[w]) == Inside(b[w]) then 0 else if Inside(b[w]) then 1 else -1)
  {
    var x, y := InsideFor(a, r), InsideFor(b, r);
    if a[w].reference != r || Inside(a[w]) == Inside(b[w]) {
      assert x == y;
    } else if Inside(b[w]) {
      assert y == x + {w} && w !in x;
    } else {
      assert x == y + {w} && w !in y;
    }
  }

  lemma SawChanges(a: map<Id, Worker>, b: map<Id, Worker>, w: Id, r: Id)
    requires OneMoves(a, b, w)
    ensures |SawIt(b, r)| == |SawIt(a, r)|
              + (if a[w].reference != r || SawPending(a[w]) == SawPending(b[w]) then 0 else if SawPending(b[w]) then 1 else -1)
    ensures SawIt(a, r) == {} && !(a[w].reference == r && SawPending(b[w])) ==> SawIt(b, r) == {}
    ensures a[w].reference == r && SawPending(a[w]) ==> SawIt(a, r) != {}
  {
    var x, y := SawIt(a, r), SawIt(b, r);
    if a[w].reference != r || SawPending(a[w]) == SawPending(b[w]) {
      assert x == y;
    } else if SawPending(b[w]) {
      assert y == x + {w} && w !in x;
    } else {
      assert x == y + {w} && w !in y;
    }
    if a[w].reference == r && SawPending(a[w]) {
      assert w in x;
    }
  }

  // ---------------------------------------------------------------- every step keeps the bound

  lemma WorkerKeepsInside(s: System, a: Action, r: Id, n: nat)
    requires IsWorkers(a) && |InsideFor(s.workers, r)| <= Locked(s, r) + n
    ensures |InsideFor(W.Step(s, a).workers, r)| <= Locked(W.Step(s, a), r) + n
  {
    if a.w in s.workers {
      WorkerMoves(s, a);
      InsideChanges(s.workers, W.Step(s, a).workers, a.w, r);
    }
  }

  lemma CommitLeavesInside(s: System, a: Action)
    requires a.Commit? && a.w in s.workers && W.Step(s, a) != s
    ensures var s' := W.Step(s, a);
            && OneMoves(s.workers, s'.workers, a.w) && !SawPending(s'.workers[a.w])
            && ((s'.payments == s.payments && s'.successes == s.successes)
                || (&& SawPending(s.workers[a.w]) && s'.successes == s.successes + [s.workers[a.w].reference]
                    && (forall r :: Open(s'.payments, r) ==> Open(s.payments, r) && r != s.workers[a.w].reference)))
  {
    WorkerMoves(s, a);
    CommitConfirmsPending(s, a.w);
  }

  /** A confirmation takes the place of one who could confirm. */
  lemma {:induction false} CommitBalance(s: System, a: Action, r: Id)
    requires a.Commit?
    ensures var s' := W.Step(s, a);
            && Count(s'.successes, r) + |SawIt(s'.workers, r)| <= Count(s.successes, r) + |SawIt(s.workers, r)|
            && (SawIt(s.workers, r) == {} ==> SawIt(s'.workers, r) == {} && Count(s'.successes, r) == Count(s.successes, r))
            && (Open(s'.payments, r) ==> Open(s.payments, r) && Count(s'.successes, r) == Count(s.successes, r))
  {
    var s' := W.Step(s, a);
    if s' != s {
      CommitLeavesInside(s, a);
      SawChanges(s.workers, s'.workers, a.w, r);
      CountAppend(s.successes, s.workers[a.w].reference, r);
    }
  }

  lemma CommitKeepsBounded(s0: map<Id, Row>, s: System, a: Action, r: Id, n: nat)
    requires a.Commit? && Bounded(s0, s, r, n)
    ensures Bounded(s0, W.Step(s, a), r, n)
  {
    WorkerKeepsInside(s, a, r, n);
    CommitBalance(s, a, r);
  }

  /** Whoever sees the payment pending comes before the first confirmation, and so while all inside are few. */
  lemma OtherWorkerKeepsBounded(s0: map<Id, Row>, s: System, a: Action, r: Id, n: nat)
    requires IsWorkers(a) && !a.Commit? && Bounded(s0, s, r, n)
    ensures Bounded(s0, W.Step(s, a), r, n)
  {
    WorkerKeepsInside(s, a, r, n);
    if a.w in s.workers {
      var s' := W.Step(s, a);
      WorkerMoves(s, a);
      OnlyCommitsChangeTables(s, a);
      FetchedWhatIsStored(s, a);
      SawChanges(s.workers, s'.workers, a.w, r);
      SawIsInside(s'.workers, r);
    }
  }

  lemma OutsiderKeepsBounded(s0: map<Id, Row>, s: System, a: Action, r: Id, n: nat)
    requires (a.ReadToExpire? || a.ReadToRefund? || a.Save?) && Bounded(s0, s, r, n) && TargetsOk(s)
    ensures Bounded(s0, W.Step(s, a), r, n)
  {
    NobodyReopens(s, a, r);
  }

  lemma {:induction false} RunKeepsBounded(s0: map<Id, Row>, s: System, actions: seq<Action>, r: Id, n: nat)
    requires Bounded(s0, s, r, n) && TargetsOk(s)
    ensures Bounded(s0, W.Run(s, actions), r, n + Expiries(actions, r))
    decreases |actions|
  {
    if actions != [] {
      var a := actions[0];
      var m := n + if a == LeaseExpires(r) then 1 else 0;
      if a.Commit? {
        CommitKeepsBounded(s0, s, a, r, n);
      } else if IsWorkers(a) {
        OtherWorkerKeepsBounded(s0, s, a, r, n);
      } else if !a.LeaseExpires? {
        OutsiderKeepsBounded(s0, s, a, r, n);
      }
      RunOne(s, a);
      RunKeepsTargets(s, [a]);
      RunKeepsBounded(s0, W.Step(s, a), actions[1..], r, m);
    }
  }

  /** In every run, however workers, sweeps and refund requests interleave: a payment is confirmed at most once
      more than leases of its lock have run out, and never if it was not pending at the start. */
  lemma ConfirmationsAreBoundedByExpiries(start: System, actions: seq<Action>, r: Id)
    requires W.Start(start)
    ensures Count(W.Run(start, actions).successes, r)
            <= if Open(start.payments, r) then 1 + Expiries(actions, r) else 0
  {
    assert forall w :: w !in InsideFor(start.workers, r) && w !in SawIt(start.workers, r);
    RunKeepsBounded(start.payments, start, actions, r, 0);
  }
}
