/** The per-client search rate limit of application/marketplace/search_service.py.

    Time is an integer number of clock ticks and `window` is the window length in ticks.  A request
    reads the clock, then sends INCR, then (after a first INCR) EXPIRE; requests interleave between
    these steps and each step happens at its own time. */
module RateLimit {
  import opened Common

  datatype Config = Config(window: int, limit: nat)

  datatype Key = Key(client: nat, bucket: int)
  datatype Counter = Counter(count: nat, expiresAt: Option<int>)
  datatype Passed = Passed(client: nat, readAt: int)

  /** `counters` is Redis, `clock` the time of the last step, `passed` the requests let through and
      `starts` how often each counter was created. */
  datatype State = State(counters: map<Key, Counter>, clock: int, passed: seq<Passed>, starts: map<Key, nat>)

  datatype Event =
    | Incr(client: nat, readAt: int, now: int)
    | Expire(key: Key, now: int)

  function Bucket(cfg: Config, t: int): int
    requires cfg.window > 0
  {
    t / cfg.window
  }

  predicate Live(s: State, key: Key, now: int) {
    key in s.counters && (s.counters[key].expiresAt.Some? ==> now < s.counters[key].expiresAt.value)
  }

  function Starts(s: State, key: Key): nat {
    if key in s.starts then s.starts[key] else 0
  }

  /** INCR creates the counter when the key is missing or expired, and keeps its expiry otherwise. */
  function Incremented(s: State, key: Key, now: int): Counter {
    if Live(s, key, now) then s.counters[key].(count := s.counters[key].count + 1) else Counter(1, None)
  }

  function Step(cfg: Config, s: State, e: Event): State
    requires cfg.window > 0
  {
    match e
    case Incr(client, readAt, now) =>
      var key := Key(client, Bucket(cfg, readAt));
      var counter := Incremented(s, key, now);
      State(s.counters[key := counter], now,
            if counter.count <= cfg.limit then s.passed + [Passed(client, readAt)] else s.passed,
            if Live(s, key, now) then s.starts else s.starts[key := Starts(s, key) + 1])
    case Expire(key, now) =>
      if Live(s, key, now)
      then s.(counters := s.counters[key := s.counters[key].(expiresAt := Some(now + cfg.window))], clock := now)
      else s.(clock := now)
  }

  function Run(cfg: Config, start: int, events: seq<Event>): State
    requires cfg.window > 0
  {
    if events == [] then State(map[], start, [], map[])
    else Step(cfg, Run(cfg, start, events[..|events| - 1]), events[|events| - 1])
  }

  /** Time does not go back: each step happens no earlier than the one before it, and a request reads
      the clock no later than it sends INCR. */
  ghost predicate Monotone(start: int, events: seq<Event>) {
    && (forall i | 0 <= i < |events| :: start <= events[i].now && (events[i].Incr? ==> events[i].readAt <= events[i].now))
    && (forall i, j | 0 <= i < j < |events| :: events[i].now <= events[j].now)
  }

  /** Every INCR on the key is sent before the key's own bucket ends. */
  ghost predicate Prompt(cfg: Config, events: seq<Event>, key: Key)
    requires cfg.window > 0
  {
    forall i | 0 <= i < |events| && events[i].Incr? && Key(events[i].client, Bucket(cfg, events[i].readAt)) == key ::
      events[i].now < (key.bucket + 1) * cfg.window
  }

  /** How many requests of the client were let through with a clock reading in [from, to). */
  function CountPassed(passed: seq<Passed>, client: nat, from: int, to: int): nat {
    if passed == [] then 0
    else
      var last := passed[|passed| - 1];
      CountPassed(passed[..|passed| - 1], client, from, to)
      + if last.client == client && from <= last.readAt < to then 1 else 0
  }

  function PassedInBucket(cfg: Config, s: State, key: Key): nat {
    CountPassed(s.passed, key.client, key.bucket * cfg.window, (key.bucket + 1) * cfg.window)
  }

  // ---------------------------------------------------------------- the invariant

  /** `limit` requests for each of n counters. */
  function Allowance(limit: nat, n: nat): nat {
    if n == 0 then 0 else Allowance(limit, n - 1) + limit
  }

  lemma {:induction false} AllowanceIs(limit: nat, n: nat)
    ensures Allowance(limit, n) == limit * n
  {
    if n > 0 {
      AllowanceIs(limit, n - 1);
      assert limit * n == limit * (n - 1) + limit;
    }
  }

  /** A counter never expires inside its own bucket, and what it has let through is bounded by the
      counts of its incarnations. */
  ghost predicate KeyOk(cfg: Config, s: State, key: Key) {
    if key in s.counters then
      var c := s.counters[key];
      && key.bucket * cfg.window <= s.clock
      && (c.expiresAt.Some? ==> c.expiresAt.value >= (key.bucket + 1) * cfg.window)
      && Starts(s, key) >= 1
      && PassedInBucket(cfg, s, key)
         <= Allowance(cfg.limit, Starts(s, key) - 1) + (if c.count < cfg.limit then c.count else cfg.limit)
    else
      Starts(s, key) == 0 && PassedInBucket(cfg, s, key) == 0
  }

  lemma BucketBounds(cfg: Config, t: int)
    requires cfg.window > 0
    ensures Bucket(cfg, t) * cfg.window <= t < (Bucket(cfg, t) + 1) * cfg.window
  {
    assert t == cfg.window * (t / cfg.window) + t % cfg.window;
    assert (t / cfg.window + 1) * cfg.window == cfg.window * (t / cfg.window) + cfg.window;
  }

  lemma BucketUnique(cfg: Config, t: int, b: int)
    requires cfg.window > 0 && b * cfg.window <= t < (b + 1) * cfg.window
    ensures Bucket(cfg, t) == b
  {
    BucketBounds(cfg, t);
    var q := Bucket(cfg, t);
    if q < b {
      MulMonotone(q + 1, b, cfg.window);
    } else if b < q {
      MulMonotone(b + 1, q, cfg.window);
    }
  }

  lemma PassedAppend(cfg: Config, passed: seq<Passed>, p: Passed, key: Key)
    requires cfg.window > 0
    ensures var from, to := key.bucket * cfg.window, (key.bucket + 1) * cfg.window;
            CountPassed(passed + [p], key.client, from, to) == CountPassed(passed, key.client, from, to)
              + if key == Key(p.client, Bucket(cfg, p.readAt)) then 1 else 0
  {
    assert (passed + [p])[..|passed|] == passed;
    BucketBounds(cfg, p.readAt);
    if key.bucket * cfg.window <= p.readAt < (key.bucket + 1) * cfg.window {
      BucketUnique(cfg, p.readAt, key.bucket);
    }
  }

  lemma IncrKeepsKeyOk(cfg: Config, s: State, e: Event, key: Key)
    requires cfg.window > 0 && e.Incr? && e.readAt <= e.now && s.clock <= e.now
    requires KeyOk(cfg, s, key)
    ensures KeyOk(cfg, Step(cfg, s, e), key)
  {
    var own := Key(e.client, Bucket(cfg, e.readAt));
    var s' := Step(cfg, s, e);
    PassedAppend(cfg, s.passed, Passed(e.client, e.readAt), key);
    BucketBounds(cfg, e.readAt);
    if key == own {
      var n := Starts(s, key);
      assert Starts(s', key) == if Live(s, key, e.now) then n else n + 1;
    }
  }

  lemma ExpireKeepsKeyOk(cfg: Config, s: State, e: Event, key: Key)
    requires cfg.window > 0 && e.Expire? && s.clock <= e.now
    requires KeyOk(cfg, s, key)
    ensures KeyOk(cfg, Step(cfg, s, e), key)
  {
    assert (key.bucket + 1) * cfg.window == key.bucket * cfg.window + cfg.window;
  }

  lemma {:induction false} RunKeyOk(cfg: Config, start: int, events: seq<Event>, key: Key)
    requires cfg.window > 0 && Monotone(start, events)
    ensures KeyOk(cfg, Run(cfg, start, events), key)
    ensures Run(cfg, start, events).clock == if events == [] then start else events[|events| - 1].now
    decreases |events|
  {
    if events != [] {
      var n := |events| - 1;
      RunKeyOk(cfg, start, events[..n], key);
      var s := Run(cfg, start, events[..n]);
      if events[n].Incr? {
        IncrKeepsKeyOk(cfg, s, events[n], key);
      } else {
        ExpireKeepsKeyOk(cfg, s, events[n], key);
      }
    }
  }

  /** When the requests of a bucket reach Redis before the bucket ends, the counter is created once. */
  lemma {:induction false} PromptCounterStartsOnce(cfg: Config, start: int, events: seq<Event>, key: Key)
    requires cfg.window > 0 && Monotone(start, events) && Prompt(cfg, events, key)
    ensures Starts(Run(cfg, start, events), key) <= 1
    decreases |events|
  {
    if events != [] {
      var n := |events| - 1;
      PromptCounterStartsOnce(cfg, start, events[..n], key);
      RunKeyOk(cfg, start, events[..n], key);
    }
  }

  // ---------------------------------------------------------------- the limit

  /** In every run, however late requests reach Redis, the requests let through in a bucket are at
      most `limit` for each time the counter was created. */
  lemma BucketLimit(cfg: Config, start: int, events: seq<Event>, key: Key)
    requires cfg.window > 0 && Monotone(start, events)
    ensures var s := Run(cfg, start, events); PassedInBucket(cfg, s, key) <= cfg.limit * Starts(s, key)
  {
    RunKeyOk(cfg, start, events, key);
    AllowanceIs(cfg.limit, Starts(Run(cfg, start, events), key));
  }

  /** So a bucket whose requests are prompt lets at most `limit` through. */
  lemma PromptBucketLimit(cfg: Config, start: int, events: seq<Event>, key: Key)
    requires cfg.window > 0 && Monotone(start, events) && Prompt(cfg, events, key)
    ensures PassedInBucket(cfg, Run(cfg, start, events), key) <= cfg.limit
  {
    BucketLimit(cfg, start, events, key);
    PromptCounterStartsOnce(cfg, start, events, key);
    MulMonotone(Starts(Run(cfg, start, events), key), 1, cfg.limit);
  }

  lemma {:induction false} CountSplits(passed: seq<Passed>, client: nat, from: int, to: int, lo: int, mid: int, hi: int)
    requires lo <= from && to <= hi
    ensures CountPassed(passed, client, from, to)
            <= CountPassed(passed, client, lo, mid) + CountPassed(passed, client, mid, hi)
    decreases |passed|
  {
    if passed != [] {
      CountSplits(passed[..|passed| - 1], client, from, to, lo, mid, hi);
    }
  }

  /** And any half-open interval of one window length holds at most 2 * limit of a client's requests. */
  lemma WindowLimit(cfg: Config, start: int, events: seq<Event>, client: nat, from: int)
    requires cfg.window > 0 && Monotone(start, events)
    requires forall b :: Prompt(cfg, events, Key(client, b))
    ensures CountPassed(Run(cfg, start, events).passed, client, from, from + cfg.window) <= 2 * cfg.limit
  {
    var b := Bucket(cfg, from);
    BucketBounds(cfg, from);
    PromptBucketLimit(cfg, start, events, Key(client, b));
    PromptBucketLimit(cfg, start, events, Key(client, b + 1));
    var mid := (b + 1) * cfg.window;
    assert (b + 1 + 1) * cfg.window == mid + cfg.window;
    CountSplits(Run(cfg, start, events).passed, client, from, from + cfg.window, b * cfg.window, mid, mid + cfg.window);
  }

  lemma RunAppend(cfg: Config, start: int, events: seq<Event>, e: Event)
    requires cfg.window > 0
    ensures Run(cfg, start, events + [e]) == Step(cfg, Run(cfg, start, events), e)
  {
    assert (events + [e])[..|events|] == events;
  }

  /** n requests at time 0, the first of which sets the expiry. */
  function Crowd(n: nat): seq<Event>
    requires n >= 1
  {
    if n == 1 then [Incr(0, 0, 0), Expire(Key(0, 0), 0)] else Crowd(n - 1) + [Incr(0, 0, 0)]
  }

  lemma {:induction false} CrowdIsAtZero(n: nat)
    requires n >= 1
    ensures forall e | e in Crowd(n) :: e.now == 0 && (e.Incr? ==> e.readAt == 0)
  {
    if n > 1 {
      CrowdIsAtZero(n - 1);
    }
  }

  /** n requests have passed, at time 0, and the counter will expire at the end of their window. */
  ghost predicate CrowdState(cfg: Config, s: State, n: nat) {
    && s.counters == map[Key(0, 0) := Counter(n, Some(cfg.window))] && s.clock == 0
    && CountPassed(s.passed, 0, 0, cfg.window) == n
  }

  lemma OneMorePassed(cfg: Config, passed: seq<Passed>)
    requires cfg.window > 0
    ensures CountPassed(passed + [Passed(0, 0)], 0, 0, cfg.window) == CountPassed(passed, 0, 0, cfg.window) + 1
  {
    assert (passed + [Passed(0, 0)])[..|passed|] == passed;
  }

  lemma FirstOfCrowd(cfg: Config)
    requires cfg.window > 0 && cfg.limit >= 1
    ensures CrowdState(cfg, Run(cfg, 0, Crowd(1)), 1)
  {
    BucketUnique(cfg, 0, 0);
    RunAppend(cfg, 0, [], Incr(0, 0, 0));
    RunAppend(cfg, 0, [Incr(0, 0, 0)], Expire(Key(0, 0), 0));
    assert [] + [Incr(0, 0, 0)] == [Incr(0, 0, 0)];
    assert [Incr(0, 0, 0)] + [Expire(Key(0, 0), 0)] == Crowd(1);
    OneMorePassed(cfg, []);
  }

  lemma NextOfCrowd(cfg: Config, s: State, n: nat)
    requires cfg.window > 0 && n < cfg.limit && CrowdState(cfg, s, n)
    ensures CrowdState(cfg, Step(cfg, s, Incr(0, 0, 0)), n + 1)
  {
    BucketUnique(cfg, 0, 0);
    var s' := Step(cfg, s, Incr(0, 0, 0));
    assert Live(s, Key(0, 0), 0);
    assert s'.counters == s.counters[Key(0, 0) := Counter(n + 1, Some(cfg.window))];
    OneMorePassed(cfg, s.passed);
  }

  lemma {:induction false} CrowdPasses(cfg: Config, n: nat)
    requires cfg.window > 0 && 1 <= n <= cfg.limit
    ensures CrowdState(cfg, Run(cfg, 0, Crowd(n)), n)
  {
    if n == 1 {
      FirstOfCrowd(cfg);
    } else {
      CrowdPasses(cfg, n - 1);
      NextOfCrowd(cfg, Run(cfg, 0, Crowd(n - 1)), n - 1);
      RunAppend(cfg, 0, Crowd(n - 1), Incr(0, 0, 0));
    }
  }

  lemma CrowdIsMonotone(n: nat, window: int)
    requires n >= 1 && window > 0
    ensures Monotone(0, Crowd(n) + [Incr(0, 0, window)])
  {
    CrowdIsAtZero(n);
    var events := Crowd(n) + [Incr(0, 0, window)];
    assert forall i | 0 <= i < |events| - 1 :: events[i] in Crowd(n);
  }

  /** A request that reads the clock in a bucket but reaches Redis when the bucket's counter has expired starts
      a second count: after `limit` requests of the bucket have passed, it passes too. */
  lemma LateRequestStartsOver(cfg: Config)
    requires cfg.window > 0 && cfg.limit >= 1
    ensures var events := Crowd(cfg.limit) + [Incr(0, 0, cfg.window)];
            && Monotone(0, events)
            && PassedInBucket(cfg, Run(cfg, 0, events), Key(0, 0)) == cfg.limit + 1
  {
    CrowdIsMonotone(cfg.limit, cfg.window);
    CrowdPasses(cfg, cfg.limit);
    RunAppend(cfg, 0, Crowd(cfg.limit), Incr(0, 0, cfg.window));
  }

  ghost predicate LimitHolds(cfg: Config)
    requires cfg.window > 0
  {
    forall start, events, key | Monotone(start, events) :: PassedInBucket(cfg, Run(cfg, start, events), key) <= cfg.limit
  }

  /** Without promptness the limit is kept in every run only if it is zero. */
  lemma LimitNeedsPromptRequests(cfg: Config)
    requires cfg.window > 0
    ensures LimitHolds(cfg) <==> cfg.limit == 0
  {
    if cfg.limit == 0 {
      forall start, events, key | Monotone(start, events)
        ensures PassedInBucket(cfg, Run(cfg, start, events), key) <= cfg.limit
      {
        BucketLimit(cfg, start, events, key);
      }
    } else {
      LateRequestStartsOver(cfg);
    }
  }

  // ---------------------------------------------------------------- the method

  class RateLimiter {
    const cfg: Config
    var state: State

    constructor (cfg: Config, start: int)
      requires cfg.window > 0
      ensures this.cfg == cfg && state == Run(cfg, start, [])
    {
      this.cfg := cfg;
      state := State(map[], start, [], map[]);
    }

    /** `enforce_rate_limit` when no other request comes between its steps, which happen at the times
        `readAt`, `incrAt` and `expireAt`.  False stands for the raised error. */
    method EnforceRateLimit(client: nat, readAt: int, incrAt: int, expireAt: int) returns (allowed: bool)
      requires cfg.window > 0
      modifies this
      ensures var afterIncr := Step(cfg, old(state), Incr(client, readAt, incrAt));
              var key := Key(client, Bucket(cfg, readAt));
              && state == (if afterIncr.counters[key].count == 1 then Step(cfg, afterIncr, Expire(key, expireAt)) else afterIncr)
              && (allowed <==> state.passed == old(state).passed + [Passed(client, readAt)])
              && (!allowed <==> state.passed == old(state).passed)
    {
      var key := Key(client, Bucket(cfg, readAt));
      var live := Live(state, key, incrAt);
      var counter := if live then state.counters[key].(count := state.counters[key].count + 1) else Counter(1, None);
      var starts := if live then state.starts else state.starts[key := Starts(state, key) + 1];
      allowed := counter.count <= cfg.limit;
      state := State(state.counters[key := counter], incrAt,
                     if allowed then state.passed + [Passed(client, readAt)] else state.passed, starts);
      if counter.count == 1 {
        if Live(state, key, expireAt) {
          state := state.(counters := state.counters[key := counter.(expiresAt := Some(expireAt + cfg.window))]);
        }
        state := state.(clock := expireAt);
      }
    }
  }
}
