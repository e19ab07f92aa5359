/** Text normalisation and cache keys of application/marketplace/search_service.py, and the
    sanitisers of fastapi_app/repositories.py that the normalised text reaches. */
module SearchText {
  import opened Common
  datatype Result<T> = Ok(value: T) | ValueError

  /** The Unicode facts the code relies on: `str.isspace`, `str.isprintable` and the lower-case
      mapping of one character, which may be several characters long. */
  datatype Alphabet = Alphabet(isSpace: char -> bool, isPrintable: char -> bool, lower: char -> string) {
    ghost predicate Valid() {
      && isSpace(' ')
      && (forall c :: isSpace(c) ==> lower(c) == [c])
      && (forall c :: !isSpace(c) ==> lower(c) != [] && forall d | d in lower(c) :: !isSpace(d))
      && (forall c, d | d in lower(c) :: lower(d) == [d])
    }

    function Lower(s: string): string {
      if s == [] then [] else lower(s[0]) + Lower(s[1..])
    }

    function DropSpaces(s: string): (r: string)
      ensures |r| <= |s| && (r != [] ==> !isSpace(r[0]))
    {
      if s != [] && isSpace(s[0]) then DropSpaces(s[1..]) else s
    }

    function DropTrailingSpaces(s: string): (r: string)
      ensures r <= s && (r != [] ==> !isSpace(r[|r| - 1]))
    {
      if s != [] && isSpace(s[|s| - 1]) then DropTrailingSpaces(s[..|s| - 1]) else s
    }

    /** `s.strip()` */
    function Strip(s: string): string {
      DropTrailingSpaces(DropSpaces(s))
    }

    /** `re.sub(r"\s+", " ", s)` */
    function CollapseRuns(s: string): string
      decreases |s|
    {
      if s == [] then []
      else if isSpace(s[0]) then " " + CollapseRuns(DropSpaces(s[1..]))
      else [s[0]] + CollapseRuns(s[1..])
    }

    /** The longest prefix without white space. */
    function Word(s: string): (w: string)
      ensures w <= s && forall c | c in w :: !isSpace(c)
      ensures |w| < |s| ==> isSpace(s[|w|])
    {
      if s == [] || isSpace(s[0]) then [] else [s[0]] + Word(s[1..])
    }

    /** `s.split()` */
    function Split(s: string): seq<string>
      decreases |s|
    {
      var t := DropSpaces(s);
      if t == [] then [] else
        var w := Word(t);
        [w] + Split(t[|w|..])
    }

    predicate IsWord(w: string) {
      w != [] && forall c | c in w :: !isSpace(c)
    }

    /** `re.sub(r"\s+", " ", s.strip()).lower()` */
    function Normalize(s: string): string {
      Lower(CollapseRuns(Strip(s)))
    }

    /** `" ".join(s.strip().split()).lower()[:n]` */
    function Sanitize(s: string, n: nat): string {
      Truncate(Lower(Join(Split(Strip(s)))), n)
    }

    function LowerWords(words: seq<string>): (r: seq<string>)
      ensures |r| == |words|
    {
      if words == [] then [] else [Lower(words[0])] + LowerWords(words[1..])
    }

    // ------------------------------------------------------------ regex against split/join

    lemma {:induction false} CollapseWord(s: string)
      ensures var w := Word(s); CollapseRuns(s) == w + CollapseRuns(s[|w|..])
      decreases |s|
    {
      if s == [] || isSpace(s[0]) {
        assert s[0..] == s;
      } else {
        CollapseWord(s[1..]);
        var w := Word(s[1..]);
        assert s[1..][|w|..] == s[|[s[0]] + w|..];
      }
    }

    lemma SplitSkipsLeading(s: string)
      ensures Split(s) == Split(DropSpaces(s))
    {
      assert DropSpaces(DropSpaces(s)) == DropSpaces(s);
    }

    lemma SplitStep(s: string)
      requires s != [] && !isSpace(s[0])
      ensures Split(s) == [Word(s)] + Split(s[|Word(s)|..]) && Word(s) != []
    {
    }

    lemma {:induction false} SplitIntoWords(s: string)
      ensures forall w | w in Split(s) :: IsWord(w)
      decreases |s|
    {
      var t := DropSpaces(s);
      if t != [] {
        SplitIntoWords(t[|Word(t)|..]);
      }
    }

    lemma {:induction false} DropSpacesKeepsEnd(s: string)
      requires s != [] && !isSpace(s[|s| - 1])
      ensures DropSpaces(s) != [] && DropSpaces(s)[|DropSpaces(s)| - 1] == s[|s| - 1]
    {
      if isSpace(s[0]) {
        DropSpacesKeepsEnd(s[1..]);
      }
    }

    lemma {:induction false} CollapseIsJoin(s: string)
      requires s != [] ==> !isSpace(s[0]) && !isSpace(s[|s| - 1])
      ensures CollapseRuns(s) == Join(Split(s))
      decreases |s|
    {
      if s != [] {
        var w := Word(s);
        var rest := s[|w|..];
        CollapseWord(s);
        SplitStep(s);
        if rest == [] {
          assert Split(rest) == [];
        } else {
          var t := DropSpaces(rest);
          DropSpacesKeepsEnd(rest);
          SplitSkipsLeading(rest);
          CollapseIsJoin(t);
          SplitStep(t);
        }
      }
    }

    /** The regular expression of the service and the split/join of the repository compute the
        same text, on every string. */
    lemma RegexEqualsSplitJoin(s: string)
      ensures CollapseRuns(Strip(s)) == Join(Split(Strip(s)))
    {
      var d := DropSpaces(s);
      var t := Strip(s);
      if t != [] {
        assert t[0] == d[0];
      }
      CollapseIsJoin(t);
    }

    // ------------------------------------------------------------ idempotence

    lemma {:induction false} LowerConcat(s: string, t: string)
      ensures Lower(s + t) == Lower(s) + Lower(t)
    {
      if s == [] {
        assert s + t == t;
      } else {
        assert (s + t)[1..] == s[1..] + t;
        LowerConcat(s[1..], t);
      }
    }

    lemma {:induction false} LowerFixed(s: string)
      requires forall c | c in s :: lower(c) == [c]
      ensures Lower(s) == s
    {
      if s != [] {
        LowerFixed(s[1..]);
      }
    }

    lemma {:induction false} LowerOfWord(w: string)
      requires Valid() && forall c | c in w :: !isSpace(c)
      ensures forall c | c in Lower(w) :: !isSpace(c) && lower(c) == [c]
      ensures w != [] ==> Lower(w) != []
    {
      if w != [] {
        assert w[0] in w;
        LowerOfWord(w[1..]);
      }
    }

    lemma LowerOfSpaced(w: string, t: string)
      requires Valid()
      ensures Lower(w + " " + t) == Lower(w) + " " + Lower(t)
    {
      LowerConcat(w + " ", t);
      LowerConcat(w, " ");
      assert " "[1..] == [] && Lower(" ") == lower(' ') + Lower([]);
    }

    lemma {:induction false} LowerWordsAreWords(words: seq<string>)
      requires Valid() && forall w | w in words :: IsWord(w)
      ensures forall w | w in LowerWords(words) :: IsWord(w) && Lower(w) == w
    {
      if words != [] {
        assert words[0] in words;
        LowerOfWord(words[0]);
        LowerFixed(Lower(words[0]));
        LowerWordsAreWords(words[1..]);
      }
    }

    lemma {:induction false} LowerOfJoin(words: seq<string>)
      requires Valid()
      ensures Lower(Join(words)) == Join(LowerWords(words))
      decreases |words|
    {
      if |words| == 1 {
        assert LowerWords(words) == [Lower(words[0])] + LowerWords(words[1..]);
        assert LowerWords(words[1..]) == [];
      } else if words != [] {
        LowerOfJoin(words[1..]);
        LowerOfSpaced(words[0], Join(words[1..]));
      }
    }

    lemma {:induction false} LowerWordsFixed(words: seq<string>)
      requires forall w | w in words :: Lower(w) == w
      ensures LowerWords(words) == words
    {
      if words != [] {
        assert words[0] in words;
        LowerWordsFixed(words[1..]);
      }
    }

    lemma {:induction false} WordOfPrefix(w: string, t: string)
      requires (forall c | c in w :: !isSpace(c)) && (t != [] ==> isSpace(t[0]))
      ensures Word(w + t) == w
    {
      if w == [] {
        assert w + t == t;
      } else {
        assert w[0] in w;
        assert (w + t)[1..] == w[1..] + t;
        WordOfPrefix(w[1..], t);
      }
    }

    lemma JoinShape(words: seq<string>)
      requires words != [] && forall w | w in words :: IsWord(w)
      ensures Join(words) != [] && !isSpace(Join(words)[0])
    {
      assert words[0] in words;
      assert Join(words)[0] == words[0][0];
    }

    lemma SplitWordAnd(w: string, rest: string)
      requires IsWord(w) && (rest != [] ==> isSpace(rest[0]))
      ensures Split(w + rest) == [w] + Split(rest)
    {
      assert (w + rest)[0] in w;
      WordOfPrefix(w, rest);
      SplitStep(w + rest);
      assert (w + rest)[|w|..] == rest;
    }

    lemma SplitSpaced(w: string, t: string)
      requires Valid() && IsWord(w) && t != [] && !isSpace(t[0])
      ensures Split(w + " " + t) == [w] + Split(t)
    {
      assert w + " " + t == w + (" " + t);
      assert (" " + t)[0] == ' ' && (" " + t)[1..] == t;
      SplitWordAnd(w, " " + t);
      SplitSkipsLeading(" " + t);
      SplitSkipsLeading(t);
    }

    /** Splitting undoes joining. */
    lemma {:induction false} SplitOfJoin(words: seq<string>)
      requires Valid() && forall w | w in words :: IsWord(w)
      ensures Split(Join(words)) == words
      decreases |words|
    {
      if |words| == 1 {
        assert words[0] in words;
        SplitWordAnd(words[0], []);
        assert words[0] + [] == words[0];
      } else if words != [] {
        assert words[0] in words;
        SplitOfJoin(words[1..]);
        JoinShape(words[1..]);
        SplitSpaced(words[0], Join(words[1..]));
      }
    }

    lemma {:induction false} JoinEndsInWord(words: seq<string>)
      requires words != [] && forall w | w in words :: IsWord(w)
      ensures Join(words) != [] && !isSpace(Join(words)[|Join(words)| - 1])
      decreases |words|
    {
      assert words[0] in words;
      if |words| == 1 {
        assert Join(words)[|Join(words)| - 1] in words[0];
      } else {
        JoinEndsInWord(words[1..]);
      }
    }

    lemma StripOfJoin(words: seq<string>)
      requires forall w | w in words :: IsWord(w)
      ensures Strip(Join(words)) == Join(words)
    {
      if words != [] {
        JoinShape(words);
        JoinEndsInWord(words);
      }
    }

    /** The normal form is the lower-cased words separated by single spaces. */
    lemma NormalizeIsJoinedWords(s: string) returns (words: seq<string>)
      requires Valid()
      ensures words == LowerWords(Split(Strip(s))) && Normalize(s) == Join(words)
      ensures forall w | w in words :: IsWord(w) && Lower(w) == w
    {
      RegexEqualsSplitJoin(s);
      SplitIntoWords(Strip(s));
      LowerOfJoin(Split(Strip(s)));
      LowerWordsAreWords(Split(Strip(s)));
      words := LowerWords(Split(Strip(s)));
    }

    /** Normalising twice is normalising once. */
    lemma NormalizeIdempotent(s: string)
      requires Valid()
      ensures Normalize(Normalize(s)) == Normalize(s)
    {
      var words := NormalizeIsJoinedWords(s);
      StripOfJoin(words);
      RegexEqualsSplitJoin(Join(words));
      SplitOfJoin(words);
      LowerOfJoin(words);
      LowerWordsFixed(words);
    }

    /** The repository's sanitiser agrees with the service's normaliser up to its truncation, both
        on raw text and on text the service has already normalised. */
    lemma SanitizeAgrees(s: string, n: nat)
      requires Valid()
      ensures Sanitize(s, n) == Truncate(Normalize(s), n)
      ensures Sanitize(Normalize(s), n) == Truncate(Normalize(s), n)
    {
      RegexEqualsSplitJoin(s);
      NormalizeIdempotent(s);
      RegexEqualsSplitJoin(Normalize(s));
    }

    // ------------------------------------------------------------ criteria and keys

    function NormalizeOptional(text: Option<string>): Option<string> {
      if text.None? || text.value == "" then None else
        var t := Normalize(text.value);
        if t == "" then None else Some(t)
    }

    /** `_normalize_text`: refuses unprintable characters. */
    function NormalizeText(text: Option<string>): Result<Option<string>> {
      if text.None? || text.value == "" then Ok(None)
      else if exists c | c in text.value :: !isPrintable(c) then ValueError
      else Ok(NormalizeOptional(text))
    }

    function SanitizeOptional(text: Option<string>, n: nat): Option<string> {
      if text.None? || text.value == "" then None else
        var t := Sanitize(text.value, n);
        if t == "" then None else Some(t)
    }

    function NormalizeCriteria(c: Criteria): Result<Criteria> {
      var query := NormalizeText(c.query);
      var category := NormalizeText(c.category);
      var location := NormalizeText(c.location);
      if query.ValueError? || category.ValueError? || location.ValueError? then ValueError
      else Ok(c.(query := query.value, category := category.value, location := location.value,
                 page := Clamp(c.page, 1, MAX_PAGE_NUMBER),
                 pageSize := Clamp(c.pageSize, 1, MAX_PAGE_SIZE)))
    }

    /** `build_cache_key`, with the digest of the JSON text taken as injective. */
    function BuildCacheKey(c: Criteria, version: nat): CacheKey {
      CacheKey(version, c.(query := NormalizeOptional(c.query),
                           category := NormalizeOptional(c.category),
                           location := NormalizeOptional(c.location)))
    }

    /** The arguments that decide what the repository's two statements return. */
    function RepositoryQuery(c: Criteria): (q: Query)
      ensures q.offset >= 0 && 1 <= q.limit <= 50
    {
      var limit := Clamp(c.pageSize, 1, MAX_PAGE_SIZE);
      Query(SanitizeOptional(c.query, 128), SanitizeOptional(c.category, 64), SanitizeOptional(c.location, 64),
            c.minRating, c.minPrice, c.maxPrice,
            Clamp(limit, 1, MAX_PAGE_SIZE), if (c.page - 1) * limit < 0 then 0 else (c.page - 1) * limit)
    }

    lemma NormalizeOptionalIdempotent(text: Option<string>)
      requires Valid()
      ensures NormalizeOptional(NormalizeOptional(text)) == NormalizeOptional(text)
    {
      if text.Some? {
        NormalizeIdempotent(text.value);
      }
    }

    lemma KeyOfNormalised(c: Criteria, version: nat)
      requires Valid() && NormalizeCriteria(c).Ok?
      ensures BuildCacheKey(NormalizeCriteria(c).value, version) == CacheKey(version, NormalizeCriteria(c).value)
    {
      NormalizeOptionalIdempotent(c.query);
      NormalizeOptionalIdempotent(c.category);
      NormalizeOptionalIdempotent(c.location);
      var n := NormalizeCriteria(c).value;
      assert NormalizeOptional(n.query) == n.query;
      assert NormalizeOptional(n.category) == n.category;
      assert NormalizeOptional(n.location) == n.location;
    }

    // ------------------------------------------------------------ what a search asks for

    lemma {:induction false} DropSpacesBefore(s: string, space: char)
      requires isSpace(space)
      ensures DropSpaces(s + [space]) == if DropSpaces(s) == [] then [] else DropSpaces(s) + [space]
    {
      if s == [] {
        assert [space][1..] == [];
      } else if isSpace(s[0]) {
        assert (s + [space])[1..] == s[1..] + [space];
        DropSpacesBefore(s[1..], space);
      }
    }

    lemma {:induction false} WordBefore(s: string, space: char)
      requires isSpace(space)
      ensures Word(s + [space]) == Word(s)
    {
      if s != [] && !isSpace(s[0]) {
        assert (s + [space])[1..] == s[1..] + [space];
        WordBefore(s[1..], space);
      }
    }

    lemma {:induction false} SplitIgnoresLast(s: string, space: char)
      requires isSpace(space)
      ensures Split(s + [space]) == Split(s)
      decreases |s|
    {
      DropSpacesBefore(s, space);
      var t := DropSpaces(s);
      if t != [] {
        WordBefore(t, space);
        SplitIgnoresLast(t[|Word(t)|..], space);
        assert (t + [space])[|Word(t)|..] == t[|Word(t)|..] + [space];
      }
    }

    lemma {:induction false} SplitIgnoresTrailing(s: string)
      ensures Split(DropTrailingSpaces(s)) == Split(s)
      decreases |s|
    {
      if s != [] && isSpace(s[|s| - 1]) {
        SplitIgnoresTrailing(s[..|s| - 1]);
        SplitIgnoresLast(s[..|s| - 1], s[|s| - 1]);
        assert s == s[..|s| - 1] + [s[|s| - 1]];
      }
    }

    lemma SplitIgnoresStrip(s: string)
      ensures Split(Strip(s)) == Split(s)
    {
      SplitIgnoresTrailing(DropSpaces(s));
      SplitSkipsLeading(s);
    }

    predicate IsUnprintable(text: Option<string>) {
      text.Some? && exists c | c in text.value :: !isPrintable(c)
    }

    /** The lower-case words of a text, one space apart; nothing for a text without words. */
    function WordsOf(text: Option<string>): Option<string> {
      if text.None? || Split(text.value) == [] then None else Some(Join(LowerWords(Split(text.value))))
    }

    lemma NormalizeOptionalMeans(text: Option<string>)
      requires Valid()
      ensures NormalizeOptional(text) == WordsOf(text)
    {
      if text.Some? {
        var words := NormalizeIsJoinedWords(text.value);
        SplitIgnoresStrip(text.value);
        if words != [] {
          JoinShape(words);
        }
      }
    }

    lemma NormalizeTextMeans(text: Option<string>)
      requires Valid()
      ensures NormalizeText(text).ValueError? <==> IsUnprintable(text)
      ensures NormalizeText(text).Ok? ==> NormalizeText(text).value == WordsOf(text)
    {
      NormalizeOptionalMeans(text);
    }

    /** Criteria are refused exactly for an unprintable character in one of their texts; otherwise each text is
        reduced to the words of its own, page and size are moved into 1 to 1000 and 1 to 50, and the other
        filters are left alone. */
    lemma NormalizeCriteriaMeans(c: Criteria)
      requires Valid()
      ensures NormalizeCriteria(c).ValueError? <==>
                IsUnprintable(c.query) || IsUnprintable(c.category) || IsUnprintable(c.location)
      ensures NormalizeCriteria(c).Ok? ==>
                var n := NormalizeCriteria(c).value;
                && n.query == WordsOf(c.query) && n.category == WordsOf(c.category) && n.location == WordsOf(c.location)
                && n.minRating == c.minRating && n.minPrice == c.minPrice && n.maxPrice == c.maxPrice
                && n.page == (if c.page < 1 then 1 else if c.page > 1000 then 1000 else c.page)
                && n.pageSize == (if c.pageSize < 1 then 1 else if c.pageSize > 50 then 50 else c.pageSize)
    {
      NormalizeTextMeans(c.query);
      NormalizeTextMeans(c.category);
      NormalizeTextMeans(c.location);
    }

    /** At most the first n characters are asked for. */
    predicate IsStartOf(asked: Option<string>, text: Option<string>, n: nat) {
      && (asked.Some? <==> text.Some?)
      && (asked.Some? ==> asked.value <= text.value && |asked.value| == if |text.value| < n then |text.value| else n)
    }

    lemma SanitizeOptionalMeans(text: Option<string>, n: nat)
      requires Valid() && n > 0
      ensures IsStartOf(SanitizeOptional(WordsOf(text), n), WordsOf(text), n)
    {
      if WordsOf(text).Some? {
        NormalizeOptionalMeans(text);
        SanitizeAgrees(text.value, n);
      }
    }

    /** The repository is asked for each text of the criteria under its own name, cut to its column's length, for
        the other filters as they came, and for the rows of the page. */
    lemma SearchAsksForItsCriteria(c: Criteria)
      requires Valid() && NormalizeCriteria(c).Ok?
      ensures var n := NormalizeCriteria(c).value;
              var q := RepositoryQuery(n);
              && IsStartOf(q.text, WordsOf(c.query), 128)
              && IsStartOf(q.category, WordsOf(c.category), 64) && IsStartOf(q.location, WordsOf(c.location), 64)
              && q.minRating == c.minRating && q.minPrice == c.minPrice && q.maxPrice == c.maxPrice
              && q.limit == n.pageSize && q.offset == (n.page - 1) * n.pageSize
    {
      NormalizeCriteriaMeans(c);
      SanitizeOptionalMeans(c.query, 128);
      SanitizeOptionalMeans(c.category, 64);
      SanitizeOptionalMeans(c.location, 64);
      var n := NormalizeCriteria(c).value;
      MulMonotone(0, n.page - 1, n.pageSize);
    }

    /** For any criteria, normalised or not: the key holds the words of each text under its own name. */
    lemma KeyHoldsTheWords(c: Criteria, version: nat)
      requires Valid()
      ensures var key := BuildCacheKey(c, version);
              && key.version == version && key.criteria.query == WordsOf(c.query)
              && key.criteria.category == WordsOf(c.category) && key.criteria.location == WordsOf(c.location)
              && key.criteria.(query := c.query, category := c.category, location := c.location) == c
    {
      NormalizeOptionalMeans(c.query);
      NormalizeOptionalMeans(c.category);
      NormalizeOptionalMeans(c.location);
    }

    /** Cache transparency: two requests share a key exactly when they read the same version and
        have the same normalised criteria, and then they send the repository the same query. */
    lemma EqualKeysEqualQueries(c1: Criteria, c2: Criteria, v1: nat, v2: nat)
      requires Valid()
      requires NormalizeCriteria(c1).Ok? && NormalizeCriteria(c2).Ok?
      ensures var n1, n2 := NormalizeCriteria(c1).value, NormalizeCriteria(c2).value;
              && (BuildCacheKey(n1, v1) == BuildCacheKey(n2, v2) <==> v1 == v2 && n1 == n2)
              && (BuildCacheKey(n1, v1) == BuildCacheKey(n2, v2) ==> RepositoryQuery(n1) == RepositoryQuery(n2))
    {
      KeyOfNormalised(c1, v1);
      KeyOfNormalised(c2, v2);
    }
  }

  function Join(words: seq<string>): string {
    if words == [] then []
    else if |words| == 1 then words[0]
    else words[0] + " " + Join(words[1..])
  }

  function Truncate(s: string, n: nat): string {
    if |s| <= n then s else s[..n]
  }

  const MAX_PAGE_SIZE := 50
  const MAX_PAGE_NUMBER := 1000

  /** `max(lo, min(x, hi))` */
  function Clamp(x: int, lo: int, hi: int): int {
    var m := if x < hi then x else hi;
    if lo > m then lo else m
  }

  /** An exact decimal number: digits * 10^exponent. */
  datatype Decimal = Decimal(digits: int, exponent: int)

  datatype Criteria = Criteria(
    query: Option<string>, category: Option<string>, location: Option<string>,
    minRating: Option<real>, minPrice: Option<Decimal>, maxPrice: Option<Decimal>,
    page: int, pageSize: int)

  datatype CacheKey = CacheKey(version: nat, criteria: Criteria)

  datatype Query = Query(
    text: Option<string>, category: Option<string>, location: Option<string>,
    minRating: Option<real>, minPrice: Option<Decimal>, maxPrice: Option<Decimal>,
    limit: int, offset: int)
}
