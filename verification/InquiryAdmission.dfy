/** Public inquiry admission of interface/vendors/adapters.py over the records of
    interface/vendors/abuse_models.py.

    The clock is read before the vendor row is locked; the record is stamped after it.  Attempts on one
    vendor are decided one after the other, each on the records of all attempts before it.  Times are
    integer ticks of one microsecond; settings are in seconds. */
module InquiryAdmission {
  import opened Common

  const TICKS: int := 1_000_000

  datatype Settings = Settings(duplicateWindow: int, rateWindow: int, maxRequests: int)

  /** `now` is the clock reading taken before the lock, `createdAt` the stamp a record would get. */
  datatype Attempt = Attempt(requester: nat, vendor: nat, digest: string, now: int, createdAt: int)

  /** `requestedAt` is a history variable: the reading the window key was computed from. */
  datatype Record = Record(requester: nat, vendor: nat, digest: string, windowKey: int, createdAt: int, requestedAt: int)

  datatype Outcome = Accepted | VendorNotFound | TooMany | Duplicate | ConstraintViolated

  /** `int(now.timestamp())` */
  function Seconds(now: int): int {
    if now >= 0 then now / TICKS else -((-now) / TICKS)
  }

  function WindowKey(now: int, windowSeconds: int): int {
    var w := if windowSeconds > 1 then windowSeconds else 1;
    Seconds(now) - Seconds(now) % w
  }

  /** How many records of the pair were created in [from, to]. */
  function CountCreated(records: seq<Record>, requester: nat, vendor: nat, from: int, to: int): nat {
    if records == [] then 0
    else
      var r := records[|records| - 1];
      CountCreated(records[..|records| - 1], requester, vendor, from, to)
      + if r.requester == requester && r.vendor == vendor && from <= r.createdAt <= to then 1 else 0
  }

  /** `recent.count()` */
  function CountSince(records: seq<Record>, requester: nat, vendor: nat, cutoff: int): nat {
    if records == [] then 0
    else
      var r := records[|records| - 1];
      CountSince(records[..|records| - 1], requester, vendor, cutoff)
      + if r.requester == requester && r.vendor == vendor && cutoff <= r.createdAt then 1 else 0
  }

  predicate SameInquiry(r: Record, requester: nat, vendor: nat, digest: string) {
    r.requester == requester && r.vendor == vendor && r.digest == digest
  }

  function Decide(cfg: Settings, vendors: set<nat>, records: seq<Record>, a: Attempt): Outcome {
    var duplicateCutoff := a.now - cfg.duplicateWindow * TICKS;
    var rateCutoff := a.now - cfg.rateWindow * TICKS;
    if a.vendor !in vendors then VendorNotFound
    else if CountSince(records, a.requester, a.vendor, rateCutoff) >= cfg.maxRequests then TooMany
    else if exists r | r in records :: SameInquiry(r, a.requester, a.vendor, a.digest)
                                       && r.createdAt >= rateCutoff && r.createdAt >= duplicateCutoff then Duplicate
    else if exists r | r in records :: SameInquiry(r, a.requester, a.vendor, a.digest)
                                       && r.windowKey == WindowKey(a.now, cfg.duplicateWindow) then ConstraintViolated
    else Accepted
  }

  function Admit(cfg: Settings, vendors: set<nat>, records: seq<Record>, a: Attempt): seq<Record> {
    if Decide(cfg, vendors, records, a).Accepted?
    then records + [Record(a.requester, a.vendor, a.digest, WindowKey(a.now, cfg.duplicateWindow), a.createdAt, a.now)]
    else records
  }

  function Run(cfg: Settings, vendors: set<nat>, attempts: seq<Attempt>): seq<Record> {
    if attempts == [] then []
    else Admit(cfg, vendors, Run(cfg, vendors, attempts[..|attempts| - 1]), attempts[|attempts| - 1])
  }

  /** The clock is past the epoch and monotone: a stamp is no earlier than the reading before it. */
  ghost predicate Clocked(attempts: seq<Attempt>) {
    forall i | 0 <= i < |attempts| :: 0 <= attempts[i].now <= attempts[i].createdAt
  }

  // ---------------------------------------------------------------- what decides an attempt

  /** The positions of the requester's records with this vendor in the rate window up to the reading. */
  function Recent(cfg: Settings, records: seq<Record>, a: Attempt): set<int> {
    set i | 0 <= i < |records| && records[i].requester == a.requester && records[i].vendor == a.vendor
            && records[i].createdAt >= a.now - cfg.rateWindow * 1_000_000
  }

  /** A record of the same inquiry that is recent by both windows. */
  predicate IsRecentCopy(cfg: Settings, r: Record, a: Attempt) {
    && r.requester == a.requester && r.vendor == a.vendor && r.digest == a.digest
    && r.createdAt >= a.now - cfg.rateWindow * 1_000_000 && r.createdAt >= a.now - cfg.duplicateWindow * 1_000_000
  }

  predicate IsCopyInKeyWindow(cfg: Settings, r: Record, a: Attempt) {
    && r.requester == a.requester && r.vendor == a.vendor && r.digest == a.digest
    && r.windowKey == WindowKey(a.now, cfg.duplicateWindow)
  }

  /** Each outcome, by the records that cause it. */
  ghost predicate IsDecision(cfg: Settings, vendors: set<nat>, records: seq<Record>, a: Attempt, outcome: Outcome) {
    var known := a.vendor in vendors;
    var many := |Recent(cfg, records, a)| >= cfg.maxRequests;
    var copied := exists r | r in records :: IsRecentCopy(cfg, r, a);
    var held := exists r | r in records :: IsCopyInKeyWindow(cfg, r, a);
    match outcome
    case VendorNotFound => !known
    case TooMany => known && many
    case Duplicate => known && !many && copied
    case ConstraintViolated => known && !many && !copied && held
    case Accepted => known && !many && !copied && !held
  }

  lemma {:induction false} CountIsTheRecent(cfg: Settings, records: seq<Record>, a: Attempt)
    ensures CountSince(records, a.requester, a.vendor, a.now - cfg.rateWindow * TICKS) == |Recent(cfg, records, a)|
    decreases |records|
  {
    if records != [] {
      var n := |records| - 1;
      CountIsTheRecent(cfg, records[..n], a);
      if n in Recent(cfg, records, a) {
        assert Recent(cfg, records, a) == Recent(cfg, records[..n], a) + {n};
      } else {
        assert Recent(cfg, records, a) == Recent(cfg, records[..n], a);
      }
    }
  }

  /** An attempt is decided in just this way: refused for the first that applies of an unknown vendor, a full
      window, a recent copy and a copy under the same key, and otherwise accepted. */
  lemma DecisionMeans(cfg: Settings, vendors: set<nat>, records: seq<Record>, a: Attempt, outcome: Outcome)
    ensures Decide(cfg, vendors, records, a) == outcome <==> IsDecision(cfg, vendors, records, a, outcome)
  {
    CountIsTheRecent(cfg, records, a);
    assert forall r :: IsCopyInKeyWindow(cfg, r, a) <==>
             SameInquiry(r, a.requester, a.vendor, a.digest) && r.windowKey == WindowKey(a.now, cfg.duplicateWindow);
    assert forall r :: IsRecentCopy(cfg, r, a) <==>
             SameInquiry(r, a.requester, a.vendor, a.digest)
             && r.createdAt >= a.now - cfg.rateWindow * TICKS && r.createdAt >= a.now - cfg.duplicateWindow * TICKS;
  }

  /** The key of a reading is the second in which its window began: windows begin at multiples of their length. */
  lemma WindowKeyIsItsBeginning(now: int, windowSeconds: int, key: int)
    requires now >= 0
    ensures var length := if windowSeconds > 1 then windowSeconds else 1;
            key == WindowKey(now, windowSeconds) <==>
              key % length == 0 && key * 1_000_000 <= now < (key + length) * 1_000_000
  {
    var length := if windowSeconds > 1 then windowSeconds else 1;
    var second := now / TICKS;
    Division(now, TICKS);
    Division(second, length);
    ModOfMultiple(second / length, length, 0);
    if key % length == 0 && key * 1_000_000 <= now < (key + length) * 1_000_000 {
      Division(key, length);
      if key / length < second / length {
        MulMonotone(key / length + 1, second / length, length);
      } else if second / length < key / length {
        MulMonotone(second / length + 1, key / length, length);
      }
    }
  }

  function Own(records: seq<Record>, requester: nat, vendor: nat): seq<Record> {
    if records == [] then []
    else
      var r := records[|records| - 1];
      Own(records[..|records| - 1], requester, vendor) + if r.requester == requester && r.vendor == vendor then [r] else []
  }

  function OwnAttempts(attempts: seq<Attempt>, requester: nat, vendor: nat): seq<Attempt> {
    if attempts == [] then []
    else
      var a := attempts[|attempts| - 1];
      OwnAttempts(attempts[..|attempts| - 1], requester, vendor) + if a.requester == requester && a.vendor == vendor then [a] else []
  }

  lemma {:induction false} OwnRecords(records: seq<Record>, requester: nat, vendor: nat)
    ensures forall r :: r in Own(records, requester, vendor) <==> r in records && r.requester == requester && r.vendor == vendor
    decreases |records|
  {
    if records != [] {
      OwnRecords(records[..|records| - 1], requester, vendor);
      assert records == records[..|records| - 1] + [records[|records| - 1]];
    }
  }

  lemma {:induction false} OwnCount(records: seq<Record>, requester: nat, vendor: nat, cutoff: int)
    ensures CountSince(Own(records, requester, vendor), requester, vendor, cutoff) == CountSince(records, requester, vendor, cutoff)
    decreases |records|
  {
    if records != [] {
      var before := records[..|records| - 1];
      var own := Own(before, requester, vendor);
      OwnCount(before, requester, vendor, cutoff);
      assert own + [] == own;
      assert (own + [records[|records| - 1]])[..|own|] == own;
    }
  }

  lemma OwnCopies(cfg: Settings, records: seq<Record>, a: Attempt)
    ensures var own := Own(records, a.requester, a.vendor);
            && ((exists r | r in own :: IsRecentCopy(cfg, r, a)) <==> exists r | r in records :: IsRecentCopy(cfg, r, a))
            && ((exists r | r in own :: IsCopyInKeyWindow(cfg, r, a)) <==> exists r | r in records :: IsCopyInKeyWindow(cfg, r, a))
  {
    OwnRecords(records, a.requester, a.vendor);
    if r :| r in records && IsRecentCopy(cfg, r, a) {
      assert r in Own(records, a.requester, a.vendor);
    }
    if r :| r in records && IsCopyInKeyWindow(cfg, r, a) {
      assert r in Own(records, a.requester, a.vendor);
    }
  }

  lemma OwnDecision(cfg: Settings, vendors: set<nat>, records: seq<Record>, a: Attempt, outcome: Outcome)
    requires IsDecision(cfg, vendors, records, a, outcome)
    ensures IsDecision(cfg, vendors, Own(records, a.requester, a.vendor), a, outcome)
  {
    var own := Own(records, a.requester, a.vendor);
    OwnCopies(cfg, records, a);
    assert |Recent(cfg, own, a)| == |Recent(cfg, records, a)| by {
      OwnCount(records, a.requester, a.vendor, a.now - cfg.rateWindow * TICKS);
      CountIsTheRecent(cfg, own, a);
      CountIsTheRecent(cfg, records, a);
    }
  }

  lemma OthersDoNotDecide(cfg: Settings, vendors: set<nat>, records: seq<Record>, a: Attempt)
    ensures Decide(cfg, vendors, Own(records, a.requester, a.vendor), a) == Decide(cfg, vendors, records, a)
  {
    var outcome := Decide(cfg, vendors, records, a);
    assert IsDecision(cfg, vendors, records, a, outcome) by {
      DecisionMeans(cfg, vendors, records, a, outcome);
    }
    OwnDecision(cfg, vendors, records, a, outcome);
    DecisionMeans(cfg, vendors, Own(records, a.requester, a.vendor), a, outcome);
  }

  /** In every run, what a requester has stored with a vendor is what the requester's own attempts on that vendor
      alone would have stored: nobody else's attempts, and none on other vendors, ever change an outcome. */
  lemma {:induction false} OthersNeverMatter(cfg: Settings, vendors: set<nat>, attempts: seq<Attempt>, requester: nat, vendor: nat)
    ensures Own(Run(cfg, vendors, attempts), requester, vendor)
         == Run(cfg, vendors, OwnAttempts(attempts, requester, vendor))
    decreases |attempts|
  {
    if attempts != [] {
      var before, a := attempts[..|attempts| - 1], attempts[|attempts| - 1];
      var records := Run(cfg, vendors, before);
      var own := OwnAttempts(before, requester, vendor);
      OthersNeverMatter(cfg, vendors, before, requester, vendor);
      if a.requester == requester && a.vendor == vendor {
        OthersDoNotDecide(cfg, vendors, records, a);
        assert (own + [a])[..|own|] == own;
      } else {
        assert own + [] == own;
      }
    }
  }

  // ---------------------------------------------------------------- the sliding window

  lemma {:induction false} CountNarrower(records: seq<Record>, requester: nat, vendor: nat, from: int, to: int, cutoff: int)
    requires cutoff <= from
    ensures CountCreated(records, requester, vendor, from, to) <= CountSince(records, requester, vendor, cutoff)
    decreases |records|
  {
    if records != [] {
      CountNarrower(records[..|records| - 1], requester, vendor, from, to, cutoff);
    }
  }

  predicate WindowOk(cfg: Settings, records: seq<Record>, requester: nat, vendor: nat, from: int) {
    CountCreated(records, requester, vendor, from, from + cfg.rateWindow * TICKS)
    <= if cfg.maxRequests > 0 then cfg.maxRequests else 0
  }

  /** Any closed interval of one rate window holds at most `maxRequests` records of a requester and vendor. */
  ghost predicate WithinLimit(cfg: Settings, records: seq<Record>) {
    forall requester: nat, vendor: nat, from: int :: WindowOk(cfg, records, requester, vendor, from)
  }

  lemma AdmitKeepsWithinLimit(cfg: Settings, vendors: set<nat>, records: seq<Record>, a: Attempt)
    requires WithinLimit(cfg, records) && a.now <= a.createdAt
    ensures WithinLimit(cfg, Admit(cfg, vendors, records, a))
  {
    var after := Admit(cfg, vendors, records, a);
    if after != records {
      assert after[..|after| - 1] == records;
      forall requester: nat, vendor: nat, from: int
        ensures WindowOk(cfg, after, requester, vendor, from)
      {
        var to := from + cfg.rateWindow * TICKS;
        assert WindowOk(cfg, records, requester, vendor, from);
        if a.requester == requester && a.vendor == vendor && from <= a.createdAt <= to {
          CountNarrower(records, requester, vendor, from, to, a.now - cfg.rateWindow * TICKS);
        }
      }
    }
  }

  lemma {:induction false} RunIsWithinLimit(cfg: Settings, vendors: set<nat>, attempts: seq<Attempt>)
    requires Clocked(attempts)
    ensures WithinLimit(cfg, Run(cfg, vendors, attempts))
    decreases |attempts|
  {
    if attempts != [] {
      RunIsWithinLimit(cfg, vendors, attempts[..|attempts| - 1]);
      AdmitKeepsWithinLimit(cfg, vendors, Run(cfg, vendors, attempts[..|attempts| - 1]), attempts[|attempts| - 1]);
    }
  }

  /** In every run, any closed interval of one rate window holds at most `maxRequests` accepted records
      of a requester and vendor, although the cutoff uses a reading taken before the lock. */
  lemma SlidingWindowLimit(cfg: Settings, vendors: set<nat>, attempts: seq<Attempt>, requester: nat, vendor: nat, from: int)
    requires Clocked(attempts)
    ensures CountCreated(Run(cfg, vendors, attempts), requester, vendor, from, from + cfg.rateWindow * TICKS)
            <= if cfg.maxRequests > 0 then cfg.maxRequests else 0
  {
    RunIsWithinLimit(cfg, vendors, attempts);
    assert WindowOk(cfg, Run(cfg, vendors, attempts), requester, vendor, from);
  }

  // ---------------------------------------------------------------- duplicates

  ghost predicate Apart(cfg: Settings, records: seq<Record>) {
    forall i, j | 0 <= i < j < |records|
                  && SameInquiry(records[i], records[j].requester, records[j].vendor, records[j].digest) ::
      var shorter := if cfg.duplicateWindow < cfg.rateWindow then cfg.duplicateWindow else cfg.rateWindow;
      records[j].createdAt - records[i].createdAt > shorter * TICKS
  }

  /** In every run, two accepted copies of one inquiry are more than the shorter window apart. */
  lemma {:induction false} DuplicatesAreApart(cfg: Settings, vendors: set<nat>, attempts: seq<Attempt>)
    requires Clocked(attempts)
    ensures Apart(cfg, Run(cfg, vendors, attempts))
    decreases |attempts|
  {
    if attempts != [] {
      DuplicatesAreApart(cfg, vendors, attempts[..|attempts| - 1]);
    }
  }

  // ---------------------------------------------------------------- the unique constraint

  ghost predicate KeysOk(cfg: Settings, records: seq<Record>) {
    forall r | r in records ::
      0 <= r.requestedAt <= r.createdAt && r.windowKey == WindowKey(r.requestedAt, cfg.duplicateWindow)
  }

  lemma {:induction false} RunKeysOk(cfg: Settings, vendors: set<nat>, attempts: seq<Attempt>)
    requires Clocked(attempts)
    ensures KeysOk(cfg, Run(cfg, vendors, attempts))
    decreases |attempts|
  {
    if attempts != [] {
      RunKeysOk(cfg, vendors, attempts[..|attempts| - 1]);
    }
  }

  /** Two readings with one window key are less than a window apart. */
  lemma SameKeyIsClose(x: int, y: int, w: int)
    requires 0 <= x && 0 <= y && w >= 1 && WindowKey(x, w) == WindowKey(y, w)
    ensures y - w * TICKS < x
  {
    var sx, sy := Seconds(x), Seconds(y);
    assert sy < sx + w;
    assert x == TICKS * sx + x % TICKS && y == TICKS * sy + y % TICKS;
  }

  /** When the filter rejects whatever the constraint would: always if nothing is let through at all; with one
      request per rate window if the key's window, of at least a second, is no longer than that; and otherwise
      if also the duplicate window is a positive one. */
  predicate ConstraintIsRedundant(cfg: Settings) {
    || cfg.maxRequests <= 0
    || (cfg.maxRequests == 1 && cfg.duplicateWindow <= cfg.rateWindow && 1 <= cfg.rateWindow)
    || 1 <= cfg.duplicateWindow <= cfg.rateWindow
  }

  lemma {:induction false} CountsARecentOne(records: seq<Record>, r: Record, cutoff: int)
    requires r in records && cutoff <= r.createdAt
    ensures CountSince(records, r.requester, r.vendor, cutoff) >= 1
    decreases |records|
  {
    if r != records[|records| - 1] {
      assert r in records[..|records| - 1];
      CountsARecentOne(records[..|records| - 1], r, cutoff);
    }
  }

  /** Then the filter has already rejected every attempt that the unique constraint would reject. */
  lemma ConstraintNeverFires(cfg: Settings, vendors: set<nat>, attempts: seq<Attempt>, a: Attempt)
    requires ConstraintIsRedundant(cfg)
    requires Clocked(attempts + [a])
    ensures !Decide(cfg, vendors, Run(cfg, vendors, attempts), a).ConstraintViolated?
  {
    var records := Run(cfg, vendors, attempts);
    assert Clocked(attempts) by {
      forall i | 0 <= i < |attempts|
        ensures 0 <= attempts[i].now <= attempts[i].createdAt
      {
        assert (attempts + [a])[i] == attempts[i];
      }
    }
    assert (attempts + [a])[|attempts|] == a;
    RunKeysOk(cfg, vendors, attempts);
    if r :| r in records && SameInquiry(r, a.requester, a.vendor, a.digest)
            && r.windowKey == WindowKey(a.now, cfg.duplicateWindow) {
      if cfg.maxRequests == 1 && 1 <= cfg.rateWindow && cfg.duplicateWindow <= cfg.rateWindow {
        CountsARecentOne(records, r, a.now - cfg.rateWindow * TICKS);
      }
    }
  }

  /** Outside that range, two attempts this far apart pass the filter and hit the constraint. */
  function GapThatCollides(cfg: Settings): int {
    if cfg.duplicateWindow >= 1 && cfg.rateWindow >= 0 then cfg.rateWindow * TICKS + 1 else 1
  }

  /** The length of the key's window, in seconds. */
  function KeyWindow(cfg: Settings): int {
    if cfg.duplicateWindow > 1 then cfg.duplicateWindow else 1
  }

  lemma ModOfMultiple(m: nat, w: int, g: int)
    requires 0 <= g < w
    ensures (m * w + g) % w == g
  {
    var x := m * w + g;
    var q := x / w;
    Division(x, w);
    if q < m {
      MulMonotone(q + 1, m, w);
    } else if m < q {
      MulMonotone(m + 1, q, w);
    }
  }

  lemma KeyWithinWindow(m: nat, w: int, g: int)
    requires 0 <= g && Seconds(g) < (if w > 1 then w else 1)
    ensures var length := if w > 1 then w else 1;
            m * length >= 0 && WindowKey(m * length * TICKS + g, w) == m * length
  {
    var length := if w > 1 then w else 1;
    MulMonotone(0, m, length);
    var base := m * length;
    assert (base * TICKS + g) / TICKS == base + g / TICKS;
    ModOfMultiple(m, length, g / TICKS);
  }

  lemma CopyOutsideFilterCollides(cfg: Settings, r: Record, a: Attempt)
    requires cfg.maxRequests >= 1 && a.vendor == 0 && SameInquiry(r, a.requester, 0, a.digest)
    requires || r.createdAt < a.now - cfg.rateWindow * TICKS
             || (cfg.maxRequests >= 2 && r.createdAt < a.now - cfg.duplicateWindow * TICKS)
    requires r.windowKey == WindowKey(a.now, cfg.duplicateWindow)
    ensures Decide(cfg, {0}, [r], a).ConstraintViolated?
  {
    var one := [r];
    assert one[..|one| - 1] == [] && r in one;
    assert CountSince(one, a.requester, 0, a.now - cfg.rateWindow * TICKS) <= 1;
  }

  /** Otherwise, from the beginning of every window of the key: an attempt that follows its first copy by
      `GapThatCollides` passes the filter and is rejected by the constraint. */
  lemma ConstraintCanFire(cfg: Settings, m: nat, first: Attempt, second: Attempt)
    requires !ConstraintIsRedundant(cfg)
    requires first.vendor == 0 && first.now == first.createdAt == m * KeyWindow(cfg) * TICKS
    requires second == first.(now := first.now + GapThatCollides(cfg), createdAt := first.now + GapThatCollides(cfg))
    ensures Clocked([first] + [second]) && Decide(cfg, {0}, Run(cfg, {0}, [first]), second).ConstraintViolated?
  {
    var key := WindowKey(first.now, cfg.duplicateWindow);
    KeyWithinWindow(m, cfg.duplicateWindow, 0);
    KeyWithinWindow(m, cfg.duplicateWindow, GapThatCollides(cfg));
    var r := Record(first.requester, 0, first.digest, key, first.now, first.now);
    CopyOutsideFilterCollides(cfg, r, second);
  }

  ghost predicate NeverFires(cfg: Settings) {
    forall vendors: set<nat>, attempts: seq<Attempt>, a: Attempt | Clocked(attempts + [a]) ::
      !Decide(cfg, vendors, Run(cfg, vendors, attempts), a).ConstraintViolated?
  }

  /** For all settings: the unique constraint never fires in any run if and only if it is redundant. */
  lemma ConstraintIsRedundantExactlyWhen(cfg: Settings)
    ensures NeverFires(cfg) <==> ConstraintIsRedundant(cfg)
  {
    if ConstraintIsRedundant(cfg) {
      forall vendors: set<nat>, attempts: seq<Attempt>, a: Attempt | Clocked(attempts + [a])
        ensures !Decide(cfg, vendors, Run(cfg, vendors, attempts), a).ConstraintViolated?
      {
        ConstraintNeverFires(cfg, vendors, attempts, a);
      }
    } else {
      var gap := GapThatCollides(cfg);
      ConstraintCanFire(cfg, 0, Attempt(0, 0, "", 0, 0), Attempt(0, 0, "", gap, gap));
    }
  }

  // ---------------------------------------------------------------- the method

  class AbuseProtection {
    const cfg: Settings
    const vendors: set<nat>
    var records: seq<Record>

    /** The records keep to the limit in every window, and copies of one inquiry keep their distance. */
    ghost predicate Valid()
      reads this
    {
      WithinLimit(cfg, records) && Apart(cfg, records)
    }

    constructor (cfg: Settings, vendors: set<nat>)
      ensures Valid() && this.cfg == cfg && this.vendors == vendors && records == []
    {
      this.cfg, this.vendors, records := cfg, vendors, [];
    }

    /** `assert_inquiry_allowed`: every outcome but `Accepted` is a raised error and leaves the records
        alone.  As long as no record is stamped before its clock reading, what `Valid` says stays true. */
    method AssertInquiryAllowed(a: Attempt) returns (outcome: Outcome)
      modifies this
      ensures old(Valid()) && a.now <= a.createdAt ==> Valid()
      ensures outcome.Accepted? <==> |records| == |old(records)| + 1
      ensures !outcome.Accepted? ==> records == old(records)
      ensures outcome.Accepted? ==>
                records == old(records) + [Record(a.requester, a.vendor, a.digest, WindowKey(a.now, cfg.duplicateWindow),
                                                  a.createdAt, a.now)]
      ensures IsDecision(cfg, vendors, old(records), a, outcome)
      ensures outcome == Decide(cfg, vendors, old(records), a)
      ensures records == Admit(cfg, vendors, old(records), a)
    {
      DecisionMeans(cfg, vendors, records, a, Decide(cfg, vendors, records, a));
      if Valid() && a.now <= a.createdAt {
        AdmitKeepsWithinLimit(cfg, vendors, records, a);
      }
      if a.vendor !in vendors {
        return VendorNotFound;
      }
      var duplicateCutoff := a.now - cfg.duplicateWindow * TICKS;
      var rateCutoff := a.now - cfg.rateWindow * TICKS;
      if CountSince(records, a.requester, a.vendor, rateCutoff) >= cfg.maxRequests {
        return TooMany;
      }
      if exists r | r in records :: SameInquiry(r, a.requester, a.vendor, a.digest)
                                    && r.createdAt >= rateCutoff && r.createdAt >= duplicateCutoff {
        return Duplicate;
      }
      var key := WindowKey(a.now, cfg.duplicateWindow);
      if exists r | r in records :: SameInquiry(r, a.requester, a.vendor, a.digest) && r.windowKey == key {
        return ConstraintViolated;
      }
      records := records + [Record(a.requester, a.vendor, a.digest, key, a.createdAt, a.now)];
      return Accepted;
    }
  }
}
