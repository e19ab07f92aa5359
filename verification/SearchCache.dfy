/** The versioned search cache of application/marketplace/search_service.py in front of a listing
    table changed by the writers of fastapi_app/routers/internal.py.

    Every Redis command and every SQL statement is one atomic step, and the steps of any number of
    readers and writers interleave freely.  A reader that finds Redis unavailable skips the cache, a
    writer may stop between its commit and its increment, and any entry may expire at any time. */
module SearchCache {
  import opened Common
  import opened SearchText
  import opened SearchPages

  /** How the repository ranks the rows of a table for given (normalised) criteria. */
  datatype Engine<!Db, !Item> = Engine(ranked: (Db, Criteria) -> seq<Item>) {

    /** A direct search whose count and rows come from the given tables. */
    function Direct(counted: Db, fetched: Db, c: Criteria): Page<Item> {
      ExecuteSearch(ranked(counted, c), ranked(fetched, c), c.page, c.pageSize)
    }
  }

  /** A reader between two steps.  `floor` is a history variable: the newest commit whose invalidation
      had finished when the reader read the version (or gave up on the cache). */
  datatype Reader<!Item> =
    | VersionMissing(criteria: Criteria)
    | VersionSet(criteria: Criteria)
    | HaveVersion(criteria: Criteria, floor: nat, version: nat)
    | Querying(criteria: Criteria, floor: nat, store: Option<nat>)
    | Counted(criteria: Criteria, floor: nat, store: Option<nat>, counted: nat)
    | Fetched(criteria: Criteria, floor: nat, store: Option<nat>, page: Page<Item>)
    | Answered(criteria: Criteria, floor: nat, page: Page<Item>)

  /** A writer has committed snapshot `commit`, and later has incremented the version. */
  datatype Writer = Committed(commit: nat) | Invalidated(commit: nat)

  /** `history` holds the committed tables, oldest first.  `invalidated` and `born` are history
      variables: the newest commit whose invalidation has finished, and its value when each version
      number came into use. */
  datatype State<!Db, !Item> = State(
    history: seq<Db>, version: Option<nat>, cache: map<CacheKey, Page<Item>>,
    readers: map<nat, Reader<Item>>, writers: map<nat, Writer>,
    invalidated: nat, born: map<nat, nat>)

  datatype Action<!Db> =
    | StartSearch(reader: nat, criteria: Criteria)
    | SetVersionIfMissing(reader: nat)
    | RereadVersion(reader: nat)
    | LookUp(reader: nat)
    | RedisFails(reader: nat, criteria: Criteria)
    | CountRows(reader: nat)
    | FetchRows(reader: nat)
    | StoreResult(reader: nat, redisUp: bool)
    | CommitWrite(writer: nat, table: Db)
    | IncrementVersion(writer: nat)
    | Expire(key: CacheKey)

  ghost function Init<Db, Item>(table: Db): State<Db, Item> {
    State([table], None, map[], map[], map[], 0, map[])
  }

  ghost function Set<Db, Item>(s: State<Db, Item>, r: nat, reader: Reader<Item>): State<Db, Item> {
    s.(readers := s.readers[r := reader])
  }

  /** Performs an action; an action that is not possible changes nothing. */
  ghost function Step<Db, Item>(e: Engine<Db, Item>, s: State<Db, Item>, a: Action<Db>): State<Db, Item>
  {
    match a
    case StartSearch(r, c) =>
      if r in s.readers then s
      else if s.version.None? then Set(s, r, VersionMissing(c))
      else Set(s, r, HaveVersion(c, s.invalidated, s.version.value))
    case SetVersionIfMissing(r) =>
      if r !in s.readers || !s.readers[r].VersionMissing? then s
      else
        var s' := Set(s, r, VersionSet(s.readers[r].criteria));
        if s.version.Some? then s' else s'.(version := Some(1), born := s.born[1 := s.invalidated])
    case RereadVersion(r) =>
      if r !in s.readers || !s.readers[r].VersionSet? then s
      else Set(s, r, HaveVersion(s.readers[r].criteria, s.invalidated,
                                 if s.version.Some? then s.version.value else 1))
    case LookUp(r) =>
      if r !in s.readers || !s.readers[r].HaveVersion? then s
      else
        var HaveVersion(c, floor, v) := s.readers[r];
        if CacheKey(v, c) in s.cache then Set(s, r, Answered(c, floor, s.cache[CacheKey(v, c)]))
        else Set(s, r, Querying(c, floor, Some(v)))
    case RedisFails(r, c) =>
      if r !in s.readers then Set(s, r, Querying(c, s.invalidated, None))
      else (match s.readers[r]
        case VersionMissing(c') => Set(s, r, Querying(c', s.invalidated, None))
        case VersionSet(c') => Set(s, r, Querying(c', s.invalidated, None))
        case HaveVersion(c', floor, _) => Set(s, r, Querying(c', floor, None))
        case _ => s)
    case CountRows(r) =>
      if r !in s.readers || !s.readers[r].Querying? || s.history == [] then s
      else
        var Querying(c, floor, store) := s.readers[r];
        Set(s, r, Counted(c, floor, store, |s.history| - 1))
    case FetchRows(r) =>
      if r !in s.readers || !s.readers[r].Counted? || s.readers[r].counted >= |s.history| then s
      else
        var Counted(c, floor, store, counted) := s.readers[r];
        Set(s, r, Fetched(c, floor, store, e.Direct(s.history[counted], s.history[|s.history| - 1], c)))
    case StoreResult(r, redisUp) =>
      if r !in s.readers || !s.readers[r].Fetched? then s
      else
        var Fetched(c, floor, store, page) := s.readers[r];
        var s' := Set(s, r, Answered(c, floor, page));
        if store.Some? && redisUp then s'.(cache := s.cache[CacheKey(store.value, c) := page]) else s'
    case CommitWrite(w, table) =>
      if w in s.writers then s
      else s.(history := s.history + [table], writers := s.writers[w := Committed(|s.history|)])
    case IncrementVersion(w) =>
      if w !in s.writers || !s.writers[w].Committed? then s
      else
        var commit := s.writers[w].commit;
        var newest := if commit > s.invalidated then commit else s.invalidated;
        var v := if s.version.None? then 1 else s.version.value + 1;
        s.(version := Some(v), writers := s.writers[w := Invalidated(commit)],
           invalidated := newest, born := s.born[v := newest])
    case Expire(key) => s.(cache := s.cache - {key})
  }

  ghost function Run<Db, Item>(e: Engine<Db, Item>, s: State<Db, Item>, actions: seq<Action<Db>>): State<Db, Item> {
    if actions == [] then s
    else Step(e, Run(e, s, actions[..|actions| - 1]), actions[|actions| - 1])
  }

  // ---------------------------------------------------------------- the invariant

  ghost predicate FreshAt<Db, Item>(e: Engine<Db, Item>, history: seq<Db>, c: Criteria, floor: nat,
                                    page: Page<Item>, i: nat, j: nat)
  {
    floor <= i <= j < |history| && page == e.Direct(history[i], history[j], c)
  }

  /** The page is a direct search on committed tables that are no older than `floor`. */
  ghost predicate Fresh<Db, Item>(e: Engine<Db, Item>, history: seq<Db>, c: Criteria, floor: nat, page: Page<Item>) {
    exists i: nat, j: nat :: FreshAt(e, history, c, floor, page, i, j)
  }

  lemma FreshGrows<Db, Item>(e: Engine<Db, Item>, history: seq<Db>, c: Criteria, floor: nat, page: Page<Item>, table: Db)
    requires Fresh(e, history, c, floor, page)
    ensures Fresh(e, history + [table], c, floor, page)
  {
    var i: nat, j: nat :| FreshAt(e, history, c, floor, page, i, j);
    assert FreshAt(e, history + [table], c, floor, page, i, j);
  }

  ghost predicate StoresUnder(born: map<nat, nat>, floor: nat, store: Option<nat>) {
    store.Some? ==> store.value in born && born[store.value] == floor
  }

  ghost predicate ReaderOk<Db, Item>(e: Engine<Db, Item>, s: State<Db, Item>, reader: Reader<Item>) {
    match reader
    case VersionMissing(_) => true
    case VersionSet(_) => s.version.Some?
    case HaveVersion(_, floor, v) => floor <= s.invalidated && StoresUnder(s.born, floor, Some(v))
    case Querying(_, floor, store) => floor <= s.invalidated && StoresUnder(s.born, floor, store)
    case Counted(_, floor, store, i) => floor <= i < |s.history| && StoresUnder(s.born, floor, store)
    case Fetched(c, floor, store, page) => Fresh(e, s.history, c, floor, page) && StoresUnder(s.born, floor, store)
    case Answered(c, floor, page) => Fresh(e, s.history, c, floor, page)
  }

  ghost predicate VersionsOk<Db, Item>(s: State<Db, Item>) {
    && s.invalidated < |s.history|
    && (s.version.None? ==> s.born == map[])
    && (s.version.Some? ==> s.version.value in s.born && s.born[s.version.value] == s.invalidated)
    && (forall v | v in s.born :: v <= s.version.value)
    && (forall w | w in s.writers ::
          s.writers[w].commit < |s.history| && (s.writers[w].Invalidated? ==> s.writers[w].commit <= s.invalidated))
  }

  ghost predicate CacheOk<Db, Item>(e: Engine<Db, Item>, s: State<Db, Item>) {
    forall key | key in s.cache ::
      key.version in s.born && Fresh(e, s.history, key.criteria, s.born[key.version], s.cache[key])
  }

  ghost predicate Inv<Db, Item>(e: Engine<Db, Item>, s: State<Db, Item>) {
    VersionsOk(s) && CacheOk(e, s) && forall r | r in s.readers :: ReaderOk(e, s, s.readers[r])
  }

  lemma InitKeepsInv<Db, Item>(e: Engine<Db, Item>, table: Db)
    ensures Inv(e, Init<Db, Item>(table))
  {
  }

  lemma CommitKeepsInv<Db, Item>(e: Engine<Db, Item>, s: State<Db, Item>, a: Action<Db>)
    requires Inv(e, s) && a.CommitWrite?
    ensures Inv(e, Step(e, s, a))
  {
    var s' := Step(e, s, a);
    if s' != s {
      forall key | key in s.cache
        ensures Fresh(e, s'.history, key.criteria, s'.born[key.version], s'.cache[key])
      {
        FreshGrows(e, s.history, key.criteria, s.born[key.version], s.cache[key], a.table);
      }
      forall r | r in s.readers
        ensures ReaderOk(e, s', s'.readers[r])
      {
        var reader := s.readers[r];
        if reader.Fetched? || reader.Answered? {
          FreshGrows(e, s.history, reader.criteria, reader.floor, reader.page, a.table);
        }
      }
    }
  }

  lemma IncrementKeepsInv<Db, Item>(e: Engine<Db, Item>, s: State<Db, Item>, a: Action<Db>)
    requires Inv(e, s) && a.IncrementVersion?
    ensures Inv(e, Step(e, s, a))
  {
    var s' := Step(e, s, a);
    if s' != s {
      assert s'.version.value !in s.born;
      forall r | r in s.readers
        ensures ReaderOk(e, s', s'.readers[r])
      {
        assert ReaderOk(e, s, s.readers[r]);
      }
    }
  }

  lemma FetchKeepsInv<Db, Item>(e: Engine<Db, Item>, s: State<Db, Item>, a: Action<Db>)
    requires Inv(e, s) && a.FetchRows?
    ensures Inv(e, Step(e, s, a))
  {
    var s' := Step(e, s, a);
    if s' != s {
      var Counted(c, floor, _, counted) := s.readers[a.reader];
      assert ReaderOk(e, s, s.readers[a.reader]);
      assert FreshAt(e, s.history, c, floor, s'.readers[a.reader].page, counted, |s.history| - 1);
    }
  }

  lemma ReadVersionKeepsInv<Db, Item>(e: Engine<Db, Item>, s: State<Db, Item>, a: Action<Db>)
    requires Inv(e, s) && (a.StartSearch? || a.RereadVersion?)
    ensures Inv(e, Step(e, s, a))
  {
    var s' := Step(e, s, a);
    if s' != s {
      if a.reader in s.readers {
        assert ReaderOk(e, s, s.readers[a.reader]);
      }
      assert ReaderOk(e, s', s'.readers[a.reader]);
      OtherReadersKept(e, s, s', a.reader);
    }
  }

  lemma SetVersionKeepsInv<Db, Item>(e: Engine<Db, Item>, s: State<Db, Item>, a: Action<Db>)
    requires Inv(e, s) && a.SetVersionIfMissing?
    ensures Inv(e, Step(e, s, a))
  {
    var s' := Step(e, s, a);
    forall r | r in s'.readers
      ensures ReaderOk(e, s', s'.readers[r])
    {
      if r in s.readers {
        assert ReaderOk(e, s, s.readers[r]);
      }
    }
  }

  lemma {:induction false} LookUpKeepsInv<Db, Item>(e: Engine<Db, Item>, s: State<Db, Item>, a: Action<Db>)
    requires Inv(e, s) && a.LookUp?
    ensures Inv(e, Step(e, s, a))
  {
    var s' := Step(e, s, a);
    if s' != s {
      var HaveVersion(c, floor, v) := s.readers[a.reader];
      assert ReaderOk(e, s, s.readers[a.reader]);
      assert ReaderOk(e, s', s'.readers[a.reader]);
      OtherReadersKept(e, s, s', a.reader);
    }
  }

  lemma {:induction false} FailKeepsInv<Db, Item>(e: Engine<Db, Item>, s: State<Db, Item>, a: Action<Db>)
    requires Inv(e, s) && a.RedisFails?
    ensures Inv(e, Step(e, s, a))
  {
    var s' := Step(e, s, a);
    if s' != s {
      FailedReaderIsOk(e, s, a);
      OtherReadersKept(e, s, s', a.reader);
    }
  }

  lemma FailedReaderIsOk<Db, Item>(e: Engine<Db, Item>, s: State<Db, Item>, a: Action<Db>)
    requires a.RedisFails? && Step(e, s, a) != s
    requires a.reader in s.readers ==> ReaderOk(e, s, s.readers[a.reader])
    ensures var s' := Step(e, s, a);
            && a.reader in s'.readers && s' == s.(readers := s.readers[a.reader := s'.readers[a.reader]])
            && ReaderOk(e, s', s'.readers[a.reader])
  {
  }

  lemma CountKeepsInv<Db, Item>(e: Engine<Db, Item>, s: State<Db, Item>, a: Action<Db>)
    requires Inv(e, s) && a.CountRows?
    ensures Inv(e, Step(e, s, a))
  {
    var s' := Step(e, s, a);
    if s' != s {
      assert ReaderOk(e, s, s.readers[a.reader]);
      assert ReaderOk(e, s', s'.readers[a.reader]);
      OtherReadersKept(e, s, s', a.reader);
    }
  }

  lemma OtherReadersKept<Db, Item>(e: Engine<Db, Item>, s: State<Db, Item>, s': State<Db, Item>, r: nat)
    requires Inv(e, s) && r in s'.readers && s' == s.(readers := s.readers[r := s'.readers[r]])
    requires ReaderOk(e, s', s'.readers[r])
    ensures Inv(e, s')
  {
    forall q | q in s'.readers
      ensures ReaderOk(e, s', s'.readers[q])
    {
      if q != r {
        assert ReaderOk(e, s, s.readers[q]);
      }
    }
  }

  lemma ExpireKeepsInv<Db, Item>(e: Engine<Db, Item>, s: State<Db, Item>, a: Action<Db>)
    requires Inv(e, s) && a.Expire?
    ensures Inv(e, Step(e, s, a))
  {
    var s' := Step(e, s, a);
    forall r | r in s'.readers
      ensures ReaderOk(e, s', s'.readers[r])
    {
      assert ReaderOk(e, s, s.readers[r]);
    }
  }

  lemma StoreKeepsInv<Db, Item>(e: Engine<Db, Item>, s: State<Db, Item>, a: Action<Db>)
    requires Inv(e, s) && a.StoreResult?
    ensures Inv(e, Step(e, s, a))
  {
    if a.reader in s.readers && s.readers[a.reader].Fetched? {
      var Fetched(c, floor, store, page) := s.readers[a.reader];
      assert ReaderOk(e, s, s.readers[a.reader]);
      var answered := Set(s, a.reader, Answered(c, floor, page));
      assert ReaderOk(e, answered, answered.readers[a.reader]);
      OtherReadersKept(e, s, answered, a.reader);
      if store.Some? && a.redisUp {
        CachingKeepsInv(e, answered, CacheKey(store.value, c), page);
      }
    }
  }

  lemma CachingKeepsInv<Db, Item>(e: Engine<Db, Item>, s: State<Db, Item>, key: CacheKey, page: Page<Item>)
    requires Inv(e, s) && key.version in s.born
    requires Fresh(e, s.history, key.criteria, s.born[key.version], page)
    ensures Inv(e, s.(cache := s.cache[key := page]))
  {
    var s' := s.(cache := s.cache[key := page]);
    forall r | r in s'.readers
      ensures ReaderOk(e, s', s'.readers[r])
    {
      assert ReaderOk(e, s, s.readers[r]);
    }
  }

  lemma StepKeepsInv<Db, Item>(e: Engine<Db, Item>, s: State<Db, Item>, a: Action<Db>)
    requires Inv(e, s)
    ensures Inv(e, Step(e, s, a))
  {
    match a
    case CommitWrite(_, _) => CommitKeepsInv(e, s, a);
    case IncrementVersion(_) => IncrementKeepsInv(e, s, a);
    case FetchRows(_) => FetchKeepsInv(e, s, a);
    case StoreResult(_, _) => StoreKeepsInv(e, s, a);
    case StartSearch(_, _) => ReadVersionKeepsInv(e, s, a);
    case SetVersionIfMissing(_) => SetVersionKeepsInv(e, s, a);
    case RereadVersion(_) => ReadVersionKeepsInv(e, s, a);
    case LookUp(_) => LookUpKeepsInv(e, s, a);
    case Expire(_) => ExpireKeepsInv(e, s, a);
    case RedisFails(_, _) => FailKeepsInv(e, s, a);
    case CountRows(_) => CountKeepsInv(e, s, a);
  }

  lemma {:induction false} RunKeepsInv<Db, Item>(e: Engine<Db, Item>, table: Db, actions: seq<Action<Db>>)
    ensures Inv(e, Run(e, Init(table), actions))
    decreases |actions|
  {
    if actions == [] {
      InitKeepsInv(e, table);
    } else {
      RunKeepsInv(e, table, actions[..|actions| - 1]);
      StepKeepsInv(e, Run(e, Init(table), actions[..|actions| - 1]), actions[|actions| - 1]);
    }
  }

  // ---------------------------------------------------------------- what a search returns

  /** The reader has not read the version yet, nor given up on the cache. */
  ghost predicate NotStarted<Db, Item>(s: State<Db, Item>, r: nat) {
    r in s.readers ==> s.readers[r].VersionMissing? || s.readers[r].VersionSet?
  }

  ghost predicate FloorAtLeast<Db, Item>(s: State<Db, Item>, r: nat, bound: nat) {
    bound <= s.invalidated && (NotStarted(s, r) || s.readers[r].floor >= bound)
  }

  lemma StepKeepsFloor<Db, Item>(e: Engine<Db, Item>, s: State<Db, Item>, a: Action<Db>, r: nat, bound: nat)
    requires FloorAtLeast(s, r, bound)
    ensures FloorAtLeast(Step(e, s, a), r, bound)
  {
  }

  lemma {:induction false} RunKeepsFloor<Db, Item>(e: Engine<Db, Item>, s: State<Db, Item>, actions: seq<Action<Db>>,
                                                   r: nat, bound: nat)
    requires FloorAtLeast(s, r, bound)
    ensures FloorAtLeast(Run(e, s, actions), r, bound)
    decreases |actions|
  {
    if actions != [] {
      RunKeepsFloor(e, s, actions[..|actions| - 1], r, bound);
      StepKeepsFloor(e, Run(e, s, actions[..|actions| - 1]), actions[|actions| - 1], r, bound);
    }
  }

  lemma {:induction false} RunConcat<Db, Item>(e: Engine<Db, Item>, s: State<Db, Item>, first: seq<Action<Db>>,
                                               rest: seq<Action<Db>>)
    ensures Run(e, s, first + rest) == Run(e, Run(e, s, first), rest)
    decreases |rest|
  {
    if rest == [] {
      assert first + rest == first;
    } else {
      assert (first + rest)[..|first + rest| - 1] == first + rest[..|rest| - 1];
      RunConcat(e, s, first, rest[..|rest| - 1]);
    }
  }

  /** In every run: once a writer has committed and incremented the version, every search that reads
      the version afterwards answers with a direct search on committed tables no older than that
      commit, whether it hits or misses, and however late other readers store their results. */
  lemma SearchSeesFinishedWrites<Db, Item>(e: Engine<Db, Item>, table: Db, before: seq<Action<Db>>, after: seq<Action<Db>>,
                                           w: nat, r: nat)
    requires var s := Run(e, Init<Db, Item>(table), before);
             w in s.writers && s.writers[w].Invalidated? && NotStarted(s, r)
    requires var s' := Run(e, Init<Db, Item>(table), before + after);
             r in s'.readers && s'.readers[r].Answered?
    ensures var commit := Run(e, Init<Db, Item>(table), before).writers[w].commit;
            var s' := Run(e, Init<Db, Item>(table), before + after);
            Fresh(e, s'.history, s'.readers[r].criteria, commit, s'.readers[r].page)
  {
    var s := Run(e, Init<Db, Item>(table), before);
    var s' := Run(e, Init<Db, Item>(table), before + after);
    var commit := s.writers[w].commit;
    RunKeepsInv(e, table, before);
    RunKeepsInv(e, table, before + after);
    RunConcat(e, Init(table), before, after);
    RunKeepsFloor(e, s, after, r, commit);
    var Answered(c, floor, page) := s'.readers[r];
    assert ReaderOk(e, s', s'.readers[r]);
    var i: nat, j: nat :| FreshAt(e, s'.history, c, floor, page, i, j);
    assert FreshAt(e, s'.history, c, commit, page, i, j);
  }

  lemma RunOne<Db, Item>(e: Engine<Db, Item>, s: State<Db, Item>, actions: seq<Action<Db>>, n: nat)
    requires n < |actions|
    ensures Run(e, s, actions[..n + 1]) == Step(e, Run(e, s, actions[..n]), actions[n])
  {
    assert actions[..n + 1][..n] == actions[..n];
  }

  /** The cache is of use: a stored result answers the next search for the same criteria under the same version,
      without asking the database. */
  lemma {:induction false} StoredResultAnswers<Db, Item>(e: Engine<Db, Item>, s: State<Db, Item>, r: nat, q: nat)
    requires r in s.readers && s.readers[r].Fetched? && s.version.Some? && s.readers[r].store == s.version
    requires q !in s.readers
    ensures var Fetched(c, _, _, page) := s.readers[r];
            var s' := Step(e, Step(e, Step(e, s, StoreResult(r, true)), StartSearch(q, c)), LookUp(q));
            q in s'.readers && s'.readers[q] == Answered(c, s.invalidated, page)
  {
    var c := s.readers[r].criteria;
    var stored := Step(e, s, StoreResult(r, true));
    assert q !in stored.readers && stored.version == s.version;
    assert Step(e, stored, StartSearch(q, c)).readers[q] == HaveVersion(c, s.invalidated, s.version.value);
  }

  /** The cache changes only by losing an entry, or by gaining the page of a reader under the version and criteria
      that it read, while Redis answers. */
  lemma OnlyResultsAreStored<Db, Item>(e: Engine<Db, Item>, s: State<Db, Item>, a: Action<Db>, key: CacheKey)
    requires var s' := Step(e, s, a); key in s'.cache && (key in s.cache ==> s'.cache[key] != s.cache[key])
    ensures a.StoreResult? && a.redisUp && a.reader in s.readers && s.readers[a.reader].Fetched?
    ensures s.readers[a.reader].store == Some(key.version) && s.readers[a.reader].criteria == key.criteria
    ensures Step(e, s, a).cache[key] == s.readers[a.reader].page
  {
  }

  /** An increment ends its write: the version is one more, or 1 when there was none, and nothing else changes. */
  lemma IncrementEndsTheWrite<Db, Item>(e: Engine<Db, Item>, s: State<Db, Item>, w: nat)
    requires w in s.writers && s.writers[w].Committed?
    ensures var s' := Step(e, s, IncrementVersion(w));
            && s'.writers == s.writers[w := Invalidated(s.writers[w].commit)]
            && s'.version == Some(if s.version.None? then 1 else s.version.value + 1)
            && s'.history == s.history && s'.cache == s.cache && s'.readers == s.readers
  {
  }

  /** The steps of one search, in the order of the program; those that do not apply change nothing. */
  ghost function ReadVersion<Db, Item>(e: Engine<Db, Item>, s: State<Db, Item>, r: nat, c: Criteria): State<Db, Item> {
    Step(e, Step(e, Step(e, s, StartSearch(r, c)), SetVersionIfMissing(r)), RereadVersion(r))
  }

  ghost function Answer<Db, Item>(e: Engine<Db, Item>, s: State<Db, Item>, r: nat, redisUp: bool): State<Db, Item> {
    Step(e, Step(e, Step(e, Step(e, s, LookUp(r)), CountRows(r)), FetchRows(r)), StoreResult(r, redisUp))
  }

  lemma VersionIsRead<Db, Item>(e: Engine<Db, Item>, s: State<Db, Item>, r: nat, c: Criteria)
    requires r !in s.readers
    ensures var s' := ReadVersion(e, s, r, c);
            var v := if s.version.Some? then s.version.value else 1;
            && s'.history == s.history && s'.cache == s.cache
            && r in s'.readers && s'.readers[r] == HaveVersion(c, s.invalidated, v)
  {
    var a := Step(e, s, StartSearch(r, c));
    if s.version.None? {
      assert a.readers[r] == VersionMissing(c);
      assert Step(e, a, SetVersionIfMissing(r)).readers[r] == VersionSet(c);
    } else {
      assert a.readers[r] == HaveVersion(c, s.invalidated, s.version.value);
      assert Step(e, a, SetVersionIfMissing(r)) == a;
    }
  }

  lemma HitAnswers<Db, Item>(e: Engine<Db, Item>, s: State<Db, Item>, r: nat, redisUp: bool)
    requires r in s.readers && s.readers[r].HaveVersion?
    requires CacheKey(s.readers[r].version, s.readers[r].criteria) in s.cache
    ensures var s' := Answer(e, s, r, redisUp);
            var HaveVersion(c, floor, v) := s.readers[r];
            r in s'.readers && s'.readers[r] == Answered(c, floor, s.cache[CacheKey(v, c)])
  {
    var a := Step(e, s, LookUp(r));
    assert Step(e, a, CountRows(r)) == a && Step(e, a, FetchRows(r)) == a && Step(e, a, StoreResult(r, redisUp)) == a;
  }

  lemma MissAsks<Db, Item>(e: Engine<Db, Item>, s: State<Db, Item>, r: nat, redisUp: bool)
    requires r in s.readers && s.readers[r].HaveVersion? && s.history != []
    requires CacheKey(s.readers[r].version, s.readers[r].criteria) !in s.cache
    ensures var s' := Answer(e, s, r, redisUp);
            var HaveVersion(c, floor, v) := s.readers[r];
            var t := s.history[|s.history| - 1];
            r in s'.readers && s'.readers[r] == Answered(c, floor, e.Direct(t, t, c))
  {
    var HaveVersion(c, floor, v) := s.readers[r];
    var n := |s.history| - 1;
    var b := Step(e, Step(e, s, LookUp(r)), CountRows(r));
    assert b.readers[r] == Counted(c, floor, Some(v), n) && b.history == s.history;
    assert Step(e, b, FetchRows(r)).readers[r] == Fetched(c, floor, Some(v), e.Direct(s.history[n], s.history[n], c));
  }

  /** A search that is not disturbed ends, from any state: with the entry under the version in force if there is
      one, and otherwise with a direct search on the newest table. */
  lemma UndisturbedSearchEnds<Db, Item>(e: Engine<Db, Item>, s: State<Db, Item>, r: nat, c: Criteria, redisUp: bool)
    requires r !in s.readers && s.history != []
    ensures var s' := Answer(e, ReadVersion(e, s, r, c), r, redisUp);
            var key := CacheKey(if s.version.Some? then s.version.value else 1, c);
            var t := s.history[|s.history| - 1];
            && r in s'.readers && s'.readers[r].Answered? && s'.readers[r].criteria == c
            && s'.readers[r].page == if key in s.cache then s.cache[key] else e.Direct(t, t, c)
  {
    VersionIsRead(e, s, r, c);
    var known := ReadVersion(e, s, r, c);
    if CacheKey(known.readers[r].version, c) in known.cache {
      HitAnswers(e, known, r, redisUp);
    } else {
      MissAsks(e, known, r, redisUp);
    }
  }

  // ---------------------------------------------------------------- why it cannot say more

  /** The guarantee starts at the increment, not at the commit: while an increment is outstanding, a
      new search still answers with whatever was cached before the commit. */
  lemma StaleUntilIncrement<Db, Item>(e: Engine<Db, Item>, s: State<Db, Item>, w: nat, r: nat, t: Db, c: Criteria)
    requires s.version.Some? && CacheKey(s.version.value, c) in s.cache
    requires w !in s.writers && r !in s.readers
    ensures var run := [CommitWrite(w, t), StartSearch(r, c), LookUp(r)];
            var s' := Run(e, s, run);
            && s'.history == s.history + [t] && w in s'.writers && s'.writers[w] == Committed(|s.history|)
            && r in s'.readers
            && s'.readers[r] == Answered(c, s.invalidated, s.cache[CacheKey(s.version.value, c)])
  {
    var run := [CommitWrite(w, t), StartSearch(r, c), LookUp(r)];
    RunOne(e, s, run, 0);
    RunOne(e, s, run, 1);
    RunOne(e, s, run, 2);
    assert run[..0] == [] && run[..3] == run;
  }

  lemma MixedPageIsNeither<Db, Item>(e: Engine<Db, Item>, t0: Db, t1: Db, c: Criteria)
    ensures e.Direct(t0, t1, c) != e.Direct(t0, t0, c) && e.Direct(t0, t1, c) != e.Direct(t1, t1, c)
            <==> |e.ranked(t0, c)| != |e.ranked(t1, c)| && e.Direct(t0, t0, c).items != e.Direct(t1, t1, c).items
  {
  }

  lemma RunAppend<Db, Item>(e: Engine<Db, Item>, s: State<Db, Item>, actions: seq<Action<Db>>, a: Action<Db>)
    ensures Run(e, s, actions + [a]) == Step(e, Run(e, s, actions), a)
  {
    assert (actions + [a])[..|actions|] == actions;
  }

  lemma CountedFirst<Db, Item>(e: Engine<Db, Item>, t0: Db, c: Criteria)
    ensures Run(e, Init<Db, Item>(t0), [RedisFails(0, c), CountRows(0)])
            == Init<Db, Item>(t0).(readers := map[0 := Counted(c, 0, None, 0)])
  {
    var s := Init<Db, Item>(t0);
    var none: seq<Action<Db>> := [];
    var one: seq<Action<Db>> := [RedisFails(0, c)];
    RunAppend(e, s, none, RedisFails(0, c));
    RunAppend(e, s, one, CountRows(0));
    assert none + [RedisFails(0, c)] == one && one + [CountRows(0)] == [RedisFails(0, c), CountRows(0)];
    assert Run(e, s, [RedisFails(0, c), CountRows(0)]).readers == map[0 := Counted(c, 0, None, 0)];
  }

  lemma CountThenFetch<Db, Item>(e: Engine<Db, Item>, t0: Db, t1: Db, c: Criteria)
    ensures var s := Run(e, Init<Db, Item>(t0), [RedisFails(0, c), CountRows(0), CommitWrite(0, t1), FetchRows(0)]);
            0 in s.readers && s.readers[0] == Fetched(c, 0, None, e.Direct(t0, t1, c))
  {
    var s := Init<Db, Item>(t0);
    var counting := [RedisFails(0, c), CountRows(0)];
    CountedFirst(e, t0, c);
    RunAppend(e, s, counting, CommitWrite(0, t1));
    RunAppend(e, s, counting + [CommitWrite(0, t1)], FetchRows(0));
    assert counting + [CommitWrite(0, t1)] + [FetchRows(0)]
        == [RedisFails(0, c), CountRows(0), CommitWrite(0, t1), FetchRows(0)];
  }

  /** The count and the rows are two statements, so one answer can mix two tables.  It is then the answer of
      neither table exactly when the two differ both in the number of matches and in the rows of the page. */
  lemma CountAndRowsMayDiffer<Db, Item>(e: Engine<Db, Item>, t0: Db, t1: Db, c: Criteria)
    ensures var s := Run(e, Init<Db, Item>(t0), [RedisFails(0, c), CountRows(0), CommitWrite(0, t1), FetchRows(0)]);
            0 in s.readers && s.readers[0] == Fetched(c, 0, None, e.Direct(t0, t1, c))
    ensures e.Direct(t0, t1, c) != e.Direct(t0, t0, c) && e.Direct(t0, t1, c) != e.Direct(t1, t1, c)
            <==> |e.ranked(t0, c)| != |e.ranked(t1, c)| && e.Direct(t0, t0, c).items != e.Direct(t1, t1, c).items
  {
    CountThenFetch(e, t0, t1, c);
    MixedPageIsNeither(e, t0, t1, c);
  }

  /** A table with at most one listing, which every search finds. */
  function OneListing(): Engine<bool, bool> {
    Engine((listed: bool, c: Criteria) => if listed then [true] else [])
  }

  /** It happens: a first listing is committed between count and rows, and the first page shows it beside a
      total of zero, which neither the empty table nor the new one answers. */
  lemma AnswerOfNeitherTable(c: Criteria)
    requires c.page <= 1
    ensures var e := OneListing();
            var run := [RedisFails(0, c), CountRows(0), CommitWrite(0, true), FetchRows(0)];
            var s := Run(e, Init<bool, bool>(false), run);
            && 0 in s.readers && s.readers[0].Fetched? && s.readers[0].page.total == 0 && s.readers[0].page.items == [true]
            && s.readers[0].page != e.Direct(false, false, c) && s.readers[0].page != e.Direct(true, true, c)
  {
    var e := OneListing();
    CountAndRowsMayDiffer(e, false, true, c);
    assert Rows([true], Clamp(c.pageSize, 1, MAX_PAGE_SIZE), 0) == [true];
  }

  /** The reader has counted the newest table, or its page is a direct search on that one table. */
  ghost predicate FromOneTable<Db, Item>(e: Engine<Db, Item>, s: State<Db, Item>, r: nat, c: Criteria, t: Db) {
    && r in s.readers && s.history != [] && s.history[|s.history| - 1] == t
    && match s.readers[r]
       case Counted(c', _, _, i) => c' == c && i == |s.history| - 1
       case Fetched(c', _, _, page) => c' == c && page == e.Direct(t, t, c)
       case Answered(c', _, page) => c' == c && page == e.Direct(t, t, c)
       case _ => false
  }

  lemma OnlyCommitsChangeTables<Db, Item>(e: Engine<Db, Item>, s: State<Db, Item>, a: Action<Db>)
    requires !a.CommitWrite?
    ensures Step(e, s, a).history == s.history
  {
  }

  /** A reader that has counted moves only by its own fetch and store. */
  predicate HasCounted<Db, Item>(s: State<Db, Item>, r: nat) {
    r in s.readers && (s.readers[r].Counted? || s.readers[r].Fetched? || s.readers[r].Answered?)
  }

  lemma CountedStays<Db, Item>(e: Engine<Db, Item>, s: State<Db, Item>, a: Action<Db>, r: nat)
    requires HasCounted(s, r) && !a.FetchRows? && !a.StoreResult?
    ensures r in Step(e, s, a).readers && Step(e, s, a).readers[r] == s.readers[r]
  {
    if a.RedisFails? {
      assert a.reader == r ==> Step(e, s, a) == s;
    } else if a.CountRows? || a.LookUp? {
      assert a.reader == r ==> Step(e, s, a) == s;
    }
  }

  lemma {:induction false} StepKeepsOneTable<Db, Item>(e: Engine<Db, Item>, s: State<Db, Item>, a: Action<Db>, r: nat, c: Criteria, t: Db)
    requires FromOneTable(e, s, r, c, t) && !a.CommitWrite?
    ensures FromOneTable(e, Step(e, s, a), r, c, t)
  {
    OnlyCommitsChangeTables(e, s, a);
    if !a.FetchRows? && !a.StoreResult? {
      CountedStays(e, s, a, r);
    }
  }

  lemma {:induction false} NoCommitKeepsOneTable<Db, Item>(e: Engine<Db, Item>, s: State<Db, Item>,
                                                           actions: seq<Action<Db>>, r: nat, c: Criteria, t: Db)
    requires FromOneTable(e, s, r, c, t) && forall a | a in actions :: !a.CommitWrite?
    ensures FromOneTable(e, Run(e, s, actions), r, c, t)
    decreases |actions|
  {
    if actions != [] {
      var n := |actions| - 1;
      assert forall a | a in actions[..n] :: a in actions;
      NoCommitKeepsOneTable(e, s, actions[..n], r, c, t);
      assert actions[n] in actions;
      StepKeepsOneTable(e, Run(e, s, actions[..n]), actions[n], r, c, t);
    }
  }

  lemma CountIsOfOneTable<Db, Item>(e: Engine<Db, Item>, s: State<Db, Item>, r: nat)
    requires s.history != [] && r in s.readers && s.readers[r].Querying?
    ensures FromOneTable(e, Step(e, s, CountRows(r)), r, s.readers[r].criteria, s.history[|s.history| - 1])
  {
  }

  /** The reader has its page, a direct search on one table. */
  ghost predicate HasPageOf<Db, Item>(e: Engine<Db, Item>, s: State<Db, Item>, r: nat, c: Criteria, t: Db) {
    r in s.readers && (s.readers[r].Fetched? || s.readers[r].Answered?) && s.readers[r].page == e.Direct(t, t, c)
  }

  lemma FetchIsOfOneTable<Db, Item>(e: Engine<Db, Item>, s: State<Db, Item>, r: nat, c: Criteria, t: Db)
    requires FromOneTable(e, s, r, c, t)
    ensures HasPageOf(e, Step(e, s, FetchRows(r)), r, c, t)
  {
  }

  lemma CountedAndFetched<Db, Item>(e: Engine<Db, Item>, s: State<Db, Item>, between: seq<Action<Db>>, r: nat)
    requires s.history != [] && r in s.readers && s.readers[r].Querying?
    requires forall a | a in between :: !a.CommitWrite?
    ensures HasPageOf(e, Step(e, Run(e, Step(e, s, CountRows(r)), between), FetchRows(r)), r, s.readers[r].criteria,
                      s.history[|s.history| - 1])
  {
    var t := s.history[|s.history| - 1];
    var c := s.readers[r].criteria;
    CountIsOfOneTable(e, s, r);
    NoCommitKeepsOneTable(e, Step(e, s, CountRows(r)), between, r, c, t);
    FetchIsOfOneTable(e, Run(e, Step(e, s, CountRows(r)), between), r, c, t);
  }

  lemma RunAround<Db, Item>(e: Engine<Db, Item>, s: State<Db, Item>, a: Action<Db>, between: seq<Action<Db>>, b: Action<Db>)
    ensures Run(e, s, [a] + between + [b]) == Step(e, Run(e, Step(e, s, a), between), b)
  {
    RunAppend(e, s, [], a);
    assert [] + [a] == [a];
    RunConcat(e, s, [a], between);
    RunAppend(e, s, [a] + between, b);
  }

  lemma UndisturbedFrom<Db, Item>(e: Engine<Db, Item>, s: State<Db, Item>, between: seq<Action<Db>>, r: nat)
    requires s.history != [] && r in s.readers && s.readers[r].Querying?
    requires forall a | a in between :: !a.CommitWrite?
    ensures HasPageOf(e, Run(e, s, [CountRows(r)] + between + [FetchRows(r)]), r, s.readers[r].criteria,
                      s.history[|s.history| - 1])
  {
    RunAround(e, s, CountRows(r), between, FetchRows(r));
    CountedAndFetched(e, s, between, r);
  }

  /** In every run: when nothing is committed between a reader's count and its fetch, its page is a direct
      search on one committed table, the newest at its count, whatever else happens in between. */
  lemma {:induction false} UndisturbedAnswerIsOfOneTable<Db, Item>(e: Engine<Db, Item>, table: Db, before: seq<Action<Db>>,
                                                between: seq<Action<Db>>, r: nat)
    requires var s := Run(e, Init<Db, Item>(table), before);
             r in s.readers && s.readers[r].Querying?
    requires forall a | a in between :: !a.CommitWrite?
    ensures var s := Run(e, Init<Db, Item>(table), before);
            && s.history != []
            && HasPageOf(e, Run(e, Init<Db, Item>(table), before + ([CountRows(r)] + between + [FetchRows(r)])), r,
                         s.readers[r].criteria, s.history[|s.history| - 1])
  {
    var s := Run(e, Init<Db, Item>(table), before);
    assert s.history != [] by {
      RunKeepsInv(e, table, before);
    }
    RunConcat(e, Init<Db, Item>(table), before, [CountRows(r)] + between + [FetchRows(r)]);
    UndisturbedFrom(e, s, between, r);
  }

  // ---------------------------------------------------------------- one caller at a time

  /** The cache client and its table when calls do not overlap.  Entries may disappear between calls. */
  class SearchService<Db(==), Item(==)> {
    const engine: Engine<Db, Item>
    var table: Db
    var version: Option<nat>
    var entries: map<CacheKey, Page<Item>>

    /** Every entry under the current version is a direct search on the current table, and no entry
        is under a version still to come. */
    ghost predicate Valid()
      reads this
    {
      forall key | key in entries ::
        && version.Some? && key.version <= version.value
        && (key.version == version.value ==> entries[key] == engine.Direct(table, table, key.criteria))
    }

    constructor (engine: Engine<Db, Item>, table: Db)
      ensures Valid() && this.engine == engine && this.table == table
    {
      this.engine, this.table := engine, table;
      version, entries := None, map[];
    }

    method GetVersion() returns (current: nat)
      requires Valid()
      modifies this`version
      ensures Valid() && version == Some(current)
      ensures current == if old(version).Some? then old(version).value else 1
    {
      if version.None? {
        version := Some(1);
      }
      current := version.value;
    }

    /** `search` with the cache available. */
    method Search(c: Criteria) returns (page: Page<Item>)
      requires Valid()
      modifies this`version, this`entries
      ensures Valid()
      ensures page == engine.Direct(table, table, c)
      ensures version == Some(if old(version).Some? then old(version).value else 1)
      ensures entries == old(entries)[CacheKey(version.value, c) := page]
    {
      var v := GetVersion();
      var key := CacheKey(v, c);
      if key in entries {
        assert entries == entries[key := entries[key]];
        return entries[key];
      }
      page := engine.Direct(table, table, c);
      entries := entries[key := page];
    }

    /** A writer: commit, then increment. */
    method Write(newTable: Db) returns (newVersion: nat)
      requires Valid()
      modifies this`table, this`version
      ensures Valid() && table == newTable
      ensures newVersion == (if old(version).Some? then old(version).value + 1 else 1)
      ensures version == Some(newVersion) && forall key | key in entries :: key.version < newVersion
    {
      table := newTable;
      newVersion := if version.None? then 1 else version.value + 1;
      version := Some(newVersion);
    }
  }
}
