/** The session revocation marker and token version of
    infrastructure/identity/django_session_revocation.py.

    Times are integer ticks of one microsecond after the epoch.  Token times `iat` and `exp` are whole
    seconds (sections 4.1.4 and 4.1.6 of RFC 7519); the marker lives as long as a refresh token. */
module SessionRevocation {
  import opened Common

  const TICKS: int := 1_000_000

  /** `int(datetime.timestamp())` after the epoch. */
  function Seconds(t: nat): nat {
    t / TICKS
  }

  datatype Marker = Marker(revokedAt: nat, expiresAt: int)
  datatype IssuedAt = Absent | Unreadable | At(second: int)
  datatype Token = Token(issuedAt: int, lifetime: nat, version: int)

  /** The cache entry and the version column of one user; no version when there is no such row. */
  datatype State = State(marker: Option<Marker>, version: Option<nat>)

  /** One call of `revoke_user_sessions`: the clock is read at `readAt` and the entry written at `setAt`. */
  datatype Revocation = Revocation(readAt: nat, setAt: nat, bump: bool)

  /** `is_token_revoked_for_user` at time `now`. */
  predicate IsTokenRevoked(s: State, issuedAt: IssuedAt, now: int) {
    if issuedAt.Absent? || s.marker.None? || now >= s.marker.value.expiresAt then false
    else issuedAt.Unreadable? || issuedAt.second < s.marker.value.revokedAt
  }

  predicate VersionMatches(s: State, tokenVersion: Option<int>) {
    s.version.Some? && tokenVersion.Some? && tokenVersion.value == s.version.value
  }

  predicate Expired(token: Token, now: int) {
    now >= (token.issuedAt + token.lifetime) * TICKS
  }

  /** A token is accepted when it has not expired, its version is current and no marker covers it. */
  predicate Accepts(s: State, token: Token, now: int) {
    !Expired(token, now) && VersionMatches(s, Some(token.version)) && !IsTokenRevoked(s, At(token.issuedAt), now)
  }

  function Revoke(ttl: nat, s: State, r: Revocation): State {
    State(Some(Marker(Seconds(r.readAt), r.setAt + ttl * TICKS)),
          if r.bump && s.version.Some? then Some(s.version.value + 1) else s.version)
  }

  /** The calls applied in the order in which they write the entry. */
  function Run(ttl: nat, s: State, calls: seq<Revocation>): State {
    if calls == [] then s
    else Revoke(ttl, Run(ttl, s, calls[..|calls| - 1]), calls[|calls| - 1])
  }

  ghost predicate Clocked(calls: seq<Revocation>) {
    forall i | 0 <= i < |calls| :: calls[i].readAt <= calls[i].setAt
  }

  /** Entries are written in the order of the seconds they hold; calls that do not overlap are. */
  ghost predicate InOrder(calls: seq<Revocation>) {
    forall i, j | 0 <= i < j < |calls| :: Seconds(calls[i].readAt) <= Seconds(calls[j].readAt)
  }

  lemma NonOverlappingIsInOrder(calls: seq<Revocation>)
    requires Clocked(calls) && forall i, j | 0 <= i < j < |calls| :: calls[i].setAt <= calls[j].readAt
    ensures InOrder(calls)
  {
  }

  // ---------------------------------------------------------------- the marker

  /** In every run the last write decides, in any order of the calls: while its marker lives, a token without a
      time passes, one whose time cannot be read is rejected, and any other is rejected exactly when it was
      issued in a second before the reading; once the marker has expired, or if there is none, all pass. */
  lemma LastWriteDecides(ttl: nat, s: State, calls: seq<Revocation>, issuedAt: IssuedAt, now: int)
    requires s.marker.None?
    ensures IsTokenRevoked(Run(ttl, s, calls), issuedAt, now) <==>
              && calls != []
              && (var last := calls[|calls| - 1];
                  && now < last.setAt + ttl * 1_000_000
                  && match issuedAt
                     case Absent => false
                     case Unreadable => true
                     case At(second) => second < last.readAt / 1_000_000)
  {
  }

  /** In every run a token is accepted exactly as long as its lifetime has not run out, its version is the current
      one, and either the last marker has run out or it was issued in the second of the last revocation or later. */
  lemma AcceptedExactlyWhen(ttl: nat, s: State, calls: seq<Revocation>, token: Token, now: int)
    requires s.marker.None?
    ensures Accepts(Run(ttl, s, calls), token, now) <==>
              && now < (token.issuedAt + token.lifetime) * 1_000_000
              && s.version.Some? && token.version == s.version.value + Bumps(calls)
              && (calls == [] || (var last := calls[|calls| - 1];
                                  now >= last.setAt + ttl * 1_000_000 || token.issuedAt >= last.readAt / 1_000_000))
  {
    LastWriteDecides(ttl, s, calls, At(token.issuedAt), now);
    VersionCountsBumps(ttl, s, calls);
  }

  function Bumps(calls: seq<Revocation>): nat {
    if calls == [] then 0 else Bumps(calls[..|calls| - 1]) + if calls[|calls| - 1].bump then 1 else 0
  }

  lemma {:induction false} VersionCountsBumps(ttl: nat, s: State, calls: seq<Revocation>)
    ensures Run(ttl, s, calls).version == if s.version.Some? then Some(s.version.value + Bumps(calls)) else None
    decreases |calls|
  {
    if calls != [] {
      VersionCountsBumps(ttl, s, calls[..|calls| - 1]);
    }
  }

  /** After the calls, at any time from the last write on, every token issued in a second before some
      revocation and living no longer than the marker is rejected by the marker or expired. */
  ghost predicate Covers(ttl: nat, s: State, calls: seq<Revocation>) {
    forall r, token: Token, now: int
      | r in calls && token.issuedAt < Seconds(r.readAt) && token.lifetime <= ttl && calls[|calls| - 1].setAt <= now ::
      IsTokenRevoked(Run(ttl, s, calls), At(token.issuedAt), now) || Expired(token, now)
  }

  lemma OutOfOrderMisses(ttl: nat, s: State, calls: seq<Revocation>, i: nat, j: nat)
    requires i < j < |calls| && Seconds(calls[j].readAt) < Seconds(calls[i].readAt)
    requires calls[j].setAt < (Seconds(calls[j].readAt) + ttl) * TICKS
    ensures !Covers(ttl, s, calls[..j + 1])
  {
    var prefix := calls[..j + 1];
    var token := Token(Seconds(calls[j].readAt), ttl, 0);
    var now: int := calls[j].setAt;
    assert calls[i] == prefix[i] && prefix[|prefix| - 1] == calls[j];
    assert calls[i] in prefix;
    assert !IsTokenRevoked(Run(ttl, s, prefix), At(token.issuedAt), now) && !Expired(token, now);
  }

  /** The marker covers every older token after every write if and only if the writes are in order.
      Two overlapping calls whose writes swap let the marker move back. */
  lemma CoversExactlyWhenInOrder(ttl: nat, s: State, calls: seq<Revocation>)
    requires Clocked(calls)
    requires forall r | r in calls :: r.setAt < (Seconds(r.readAt) + ttl) * TICKS
    ensures (forall k | 0 <= k <= |calls| :: Covers(ttl, s, calls[..k])) <==> InOrder(calls)
  {
    if InOrder(calls) {
      forall k | 0 <= k <= |calls|
        ensures Covers(ttl, s, calls[..k])
      {
      }
    } else {
      var i, j :| 0 <= i < j < |calls| && !(Seconds(calls[i].readAt) <= Seconds(calls[j].readAt));
      OutOfOrderMisses(ttl, s, calls, i, j);
    }
  }

  // ---------------------------------------------------------------- the version

  lemma {:induction false} VersionOnlyGrows(ttl: nat, s: State, calls: seq<Revocation>)
    ensures Run(ttl, s, calls).version.Some? <==> s.version.Some?
    ensures s.version.Some? ==> Run(ttl, s, calls).version.value >= s.version.value
    decreases |calls|
  {
    if calls != [] {
      VersionOnlyGrows(ttl, s, calls[..|calls| - 1]);
    }
  }

  lemma {:induction false} RunConcat(ttl: nat, s: State, first: seq<Revocation>, rest: seq<Revocation>)
    ensures Run(ttl, s, first + rest) == Run(ttl, Run(ttl, s, first), rest)
    decreases |rest|
  {
    if rest == [] {
      assert first + rest == first;
    } else {
      assert (first + rest)[..|first + rest| - 1] == first + rest[..|rest| - 1];
      RunConcat(ttl, s, first, rest[..|rest| - 1]);
    }
  }

  /** The two writes of a call.  Overlapping calls interleave them in any way: whose bump and whose entry come
      first need not agree. */
  datatype Half = Bump | Entry(readAt: nat, setAt: nat)

  function Apply(ttl: nat, s: State, h: Half): State {
    match h
    case Bump => if s.version.Some? then s.(version := Some(s.version.value + 1)) else s
    case Entry(readAt, setAt) => s.(marker := Some(Marker(Seconds(readAt), setAt + ttl * TICKS)))
  }

  function RunHalves(ttl: nat, s: State, halves: seq<Half>): State {
    if halves == [] then s
    else Apply(ttl, RunHalves(ttl, s, halves[..|halves| - 1]), halves[|halves| - 1])
  }

  function HalvesOf(r: Revocation): seq<Half> {
    (if r.bump then [Bump] else []) + [Entry(r.readAt, r.setAt)]
  }

  /** A call that is not interleaved with others is its two halves. */
  lemma CallIsItsHalves(ttl: nat, s: State, r: Revocation)
    ensures RunHalves(ttl, s, HalvesOf(r)) == Revoke(ttl, s, r)
  {
    var entry := Entry(r.readAt, r.setAt);
    var halves := HalvesOf(r);
    assert halves[|halves| - 1] == entry && halves[..|halves| - 1] == if r.bump then [Bump] else [];
    if r.bump {
      assert [Bump][..0] == [];
      assert RunHalves(ttl, s, [Bump]) == Apply(ttl, s, Bump);
    }
  }

  lemma {:induction false} HalvesOnlyRaiseTheVersion(ttl: nat, s: State, before: seq<Half>, after: seq<Half>)
    ensures var a, b := RunHalves(ttl, s, before).version, RunHalves(ttl, s, before + after).version;
            (a.Some? <==> b.Some?) && (a.Some? ==> a.value <= b.value)
    decreases |after|
  {
    if after == [] {
      assert before + after == before;
    } else {
      assert (before + after)[..|before + after| - 1] == before + after[..|after| - 1];
      HalvesOnlyRaiseTheVersion(ttl, s, before, after[..|after| - 1]);
    }
  }

  /** However the writes of any number of calls interleave: a version from before a bump never matches again. */
  lemma BumpedVersionNeverMatches(ttl: nat, s: State, before: seq<Half>, after: seq<Half>, version: int)
    requires var atIssue := RunHalves(ttl, s, before).version; atIssue.Some? ==> version <= atIssue.value
    ensures !VersionMatches(RunHalves(ttl, s, before + [Bump] + after), Some(version))
  {
    assert (before + [Bump])[..|before|] == before;
    HalvesOnlyRaiseTheVersion(ttl, s, before + [Bump], after);
  }

  /** The same for whole calls. */
  lemma BumpingCallEndsOlderVersions(ttl: nat, s: State, before: seq<Revocation>, r: Revocation, after: seq<Revocation>,
                                     version: int)
    requires r.bump
    requires var atIssue := Run(ttl, s, before).version; atIssue.Some? ==> version <= atIssue.value
    ensures !VersionMatches(Run(ttl, s, before + [r] + after), Some(version))
  {
    var s1 := Run(ttl, s, before);
    RunConcat(ttl, s, before, [r] + after);
    RunConcat(ttl, s1, [r], after);
    assert before + ([r] + after) == before + [r] + after;
    assert [r][..|[r]| - 1] == [];
    VersionOnlyGrows(ttl, Run(ttl, s1, [r]), after);
  }

  /** A token from before a revocation is never accepted again after it, whatever revocations follow: by its
      version when the revocation bumped it, even within the same second and however the calls overlap; and
      otherwise, when the writes are in order and the token no longer lived than the marker, by the marker or
      its own expiry if it was issued in an earlier second. */
  lemma RevokedTokenStaysRejected(ttl: nat, s: State, before: seq<Revocation>, r: Revocation, after: seq<Revocation>,
                                  token: Token, now: int)
    requires var atIssue := Run(ttl, s, before).version; r.bump && atIssue.Some? ==> token.version <= atIssue.value
    requires !r.bump ==>
               var calls := before + [r] + after;
               && Clocked(calls) && InOrder(calls) && calls[|calls| - 1].setAt <= now
               && token.lifetime <= ttl && token.issuedAt < Seconds(r.readAt)
    ensures !Accepts(Run(ttl, s, before + [r] + after), token, now)
  {
    var calls := before + [r] + after;
    if r.bump {
      BumpingCallEndsOlderVersions(ttl, s, before, r, after, token.version);
    } else {
      assert calls[|before|] == r;
      assert r in calls;
    }
  }

  /** A revocation that does not bump, while its marker lives: an unexpired token of the current version is
      still accepted exactly when it was issued in the revocation's own second or later. */
  lemma SameSecondTokenEscapesMarker(ttl: nat, s: State, r: Revocation, token: Token, now: int)
    requires !r.bump && s.version == Some(token.version) && !Expired(token, now) && now < r.setAt + ttl * TICKS
    ensures Accepts(Revoke(ttl, s, r), token, now) <==> token.issuedAt >= Seconds(r.readAt)
  {
  }

  // ---------------------------------------------------------------- the methods

  class IdentityUser {
    const ttl: nat
    var marker: Option<Marker>
    var version: Option<nat>

    constructor (ttl: nat, version: Option<nat>)
      ensures this.ttl == ttl && this.version == version && marker == None
    {
      this.ttl, this.version, marker := ttl, version, None;
    }

    function Abstract(): State
      reads this
    {
      State(marker, version)
    }

    /** The new version, or none when there is no row to update. */
    method BumpAuthTokenVersion() returns (newVersion: Option<nat>)
      modifies this`version
      ensures version == newVersion && (newVersion.Some? <==> old(version).Some?)
      ensures newVersion.Some? ==> newVersion.value == old(version).value + 1
    {
      if version.Some? {
        version := Some(version.value + 1);
      }
      newVersion := version;
    }

    method RevokeUserSessions(readAt: nat, setAt: nat, bump: bool) returns (newVersion: Option<nat>)
      modifies this
      ensures Abstract() == Revoke(ttl, old(Abstract()), Revocation(readAt, setAt, bump))
      ensures newVersion == version
    {
      var revokedAt := Seconds(readAt);
      if bump {
        newVersion := BumpAuthTokenVersion();
      } else {
        newVersion := version;
      }
      marker := Some(Marker(revokedAt, setAt + ttl * TICKS));
    }
  }
}
