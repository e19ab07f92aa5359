/** Page arithmetic of application/marketplace/search_service.py over a fixed database snapshot, and
    the payload that carries a result through the cache.

    A snapshot is the ranked list of matching listings: fastapi_app/repositories.py orders the rows
    by rank and then by id, so the list has no repeated row. */
module SearchPages {
  import opened Common
  import opened SearchText

  datatype Page<T> = Page(items: seq<T>, total: nat, page: int, pageSize: int, totalPages: int)

  /** `LIMIT limit OFFSET offset` */
  function Rows<T>(ranked: seq<T>, limit: nat, offset: nat): (rows: seq<T>)
    ensures |rows| <= limit
  {
    var lo := if offset < |ranked| then offset else |ranked|;
    var hi := if offset + limit < |ranked| then offset + limit else |ranked|;
    ranked[lo..hi]
  }

  /** `_normalize_criteria` followed by `_execute_search`.  The count and the rows come from two
      statements, so they are given their own snapshots. */
  function ExecuteSearch<T>(counted: seq<T>, ranked: seq<T>, page: int, pageSize: int): Page<T> {
    var p := Clamp(page, 1, MAX_PAGE_NUMBER);
    var limit := Clamp(pageSize, 1, MAX_PAGE_SIZE);
    var offset := (p - 1) * limit;
    var total := |counted|;
    Page(Rows(ranked, limit, offset), total, p, limit, if total == 0 then 0 else (total + limit - 1) / limit)
  }

  /** The rows of a page are those that the repository's query asks for. */
  lemma PageHoldsTheRowsOfItsQuery<T>(a: Alphabet, c: Criteria, counted: seq<T>, ranked: seq<T>)
    requires a.Valid() && a.NormalizeCriteria(c).Ok?
    ensures var q := a.RepositoryQuery(a.NormalizeCriteria(c).value);
            && q.limit >= 0 && q.offset >= 0
            && ExecuteSearch(counted, ranked, c.page, c.pageSize).items == Rows(ranked, q.limit, q.offset)
  {
    a.SearchAsksForItsCriteria(c);
    var n := a.NormalizeCriteria(c).value;
    MulMonotone(0, n.page - 1, n.pageSize);
  }

  /** What a client reads by asking for pages 1 to n. */
  function ReadPages<T>(ranked: seq<T>, pageSize: int, n: nat): seq<T> {
    if n == 0 then [] else ReadPages(ranked, pageSize, n - 1) + ExecuteSearch(ranked, ranked, n, pageSize).items
  }

  lemma RowsContinue<T>(ranked: seq<T>, m: nat, limit: nat)
    ensures Rows(ranked, m, 0) + Rows(ranked, limit, m) == Rows(ranked, m + limit, 0)
  {
  }

  lemma {:induction false} ReadPagesIsPrefix<T>(ranked: seq<T>, pageSize: int, n: nat)
    requires n <= MAX_PAGE_NUMBER
    ensures ReadPages(ranked, pageSize, n) == Rows(ranked, n * Clamp(pageSize, 1, MAX_PAGE_SIZE), 0)
  {
    var limit := Clamp(pageSize, 1, MAX_PAGE_SIZE);
    if n > 0 {
      ReadPagesIsPrefix(ranked, pageSize, n - 1);
      RowsContinue(ranked, (n - 1) * limit, limit);
    }
  }

  lemma {:induction false} ReadPagesGrows<T>(ranked: seq<T>, pageSize: int, n: nat, m: nat)
    requires n <= m
    ensures ReadPages(ranked, pageSize, n) <= ReadPages(ranked, pageSize, m)
    decreases m
  {
    if n < m {
      ReadPagesGrows(ranked, pageSize, n, m - 1);
    }
  }

  lemma CeilingBounds(total: nat, limit: int)
    requires limit >= 1
    ensures var q := (total + limit - 1) / limit; (q - 1) * limit < total <= q * limit
  {
    var up := total + limit - 1;
    assert up == limit * (up / limit) + up % limit;
    assert (up / limit - 1) * limit == limit * (up / limit) - limit;
  }

  lemma PastTheLast(total: nat, limit: nat, pages: int, page: int)
    requires (pages - 1) * limit < total <= pages * limit
    ensures (page - 1) * limit >= total <==> page > pages
  {
    if page > pages {
      MulMonotone(pages, page - 1, limit);
    } else {
      MulMonotone(page - 1, pages - 1, limit);
    }
  }

  /** The page count is the exact ceiling, and exactly the pages past it are empty. */
  lemma TotalPagesIsCeiling<T>(ranked: seq<T>, page: int, pageSize: int)
    ensures var r := ExecuteSearch(ranked, ranked, page, pageSize);
            && r.total == |ranked| && 1 <= r.page <= 1000 && 1 <= r.pageSize <= 50
            && (1 <= page <= 1000 ==> r.page == page) && (1 <= pageSize <= 50 ==> r.pageSize == pageSize)
            && (r.totalPages - 1) * r.pageSize < |ranked| <= r.totalPages * r.pageSize
            && (r.items == [] <==> r.page > r.totalPages)
  {
    var r := ExecuteSearch(ranked, ranked, page, pageSize);
    MulMonotone(0, r.page - 1, r.pageSize);
    if ranked != [] {
      CeilingBounds(|ranked|, r.pageSize);
      PastTheLast(|ranked|, r.pageSize, r.totalPages, r.page);
    }
  }

  lemma PagesWithinBound<T>(ranked: seq<T>, pageSize: int)
    ensures ExecuteSearch(ranked, ranked, 1, pageSize).totalPages <= MAX_PAGE_NUMBER
            <==> |ranked| <= MAX_PAGE_NUMBER * Clamp(pageSize, 1, MAX_PAGE_SIZE)
    ensures ExecuteSearch(ranked, ranked, 1, pageSize).totalPages >= 0
  {
    TotalPagesIsCeiling(ranked, 1, pageSize);
    var r := ExecuteSearch(ranked, ranked, 1, pageSize);
    if r.totalPages <= MAX_PAGE_NUMBER {
      MulMonotone(r.totalPages, MAX_PAGE_NUMBER, r.pageSize);
    } else {
      MulMonotone(MAX_PAGE_NUMBER, r.totalPages - 1, r.pageSize);
    }
    if r.totalPages < 0 {
      MulMonotone(r.totalPages, -1, r.pageSize);
    }
  }

  /** Reading every page in turn yields the ranked list once and in order exactly when the list
      fits in the 1000 addressable pages. */
  lemma PagesTile<T(!new)>(ranked: seq<T>, pageSize: int)
    requires Distinct(ranked)
    ensures ExecuteSearch(ranked, ranked, 1, pageSize).totalPages >= 0
    ensures ReadPages(ranked, pageSize, ExecuteSearch(ranked, ranked, 1, pageSize).totalPages) == ranked
            <==> |ranked| <= MAX_PAGE_NUMBER * Clamp(pageSize, 1, MAX_PAGE_SIZE)
  {
    PagesWithinBound(ranked, pageSize);
    var pages := ExecuteSearch(ranked, ranked, 1, pageSize).totalPages;
    if pages <= MAX_PAGE_NUMBER {
      TotalPagesIsCeiling(ranked, 1, pageSize);
      ReadPagesIsPrefix(ranked, pageSize, pages);
    } else {
      var limit := Clamp(pageSize, 1, MAX_PAGE_SIZE);
      PageAfterLastRepeats(ranked, pageSize);
      ReadPagesGrows(ranked, pageSize, MAX_PAGE_NUMBER + 1, pages);
      assert ReadPages(ranked, pageSize, pages)[1000 * limit] == ranked[999 * limit];
      assert ranked[999 * limit] != ranked[1000 * limit];
    }
  }

  /** Page 1001 is clamped to page 1000, so its first row is a row already shown. */
  lemma PageAfterLastRepeats<T>(ranked: seq<T>, pageSize: int)
    requires |ranked| > MAX_PAGE_NUMBER * Clamp(pageSize, 1, MAX_PAGE_SIZE)
    ensures var limit := Clamp(pageSize, 1, MAX_PAGE_SIZE);
            var read := ReadPages(ranked, pageSize, MAX_PAGE_NUMBER + 1);
            |read| > 1000 * limit && read[1000 * limit] == ranked[999 * limit]
  {
    var limit := Clamp(pageSize, 1, MAX_PAGE_SIZE);
    ReadPagesIsPrefix(ranked, pageSize, MAX_PAGE_NUMBER);
    var extra := ExecuteSearch(ranked, ranked, MAX_PAGE_NUMBER + 1, pageSize).items;
    assert extra == ranked[999 * limit..1000 * limit];
    assert |ReadPages(ranked, pageSize, MAX_PAGE_NUMBER)| == 1000 * limit;
  }

  // ---------------------------------------------------------------- the cached payload

  datatype ListingDTO = ListingDTO(
    id: string, businessName: string, category: string, description: string, serviceArea: string,
    coverImageUrl: Option<string>, averageRating: real, totalReviews: int, isVerified: bool,
    startingPrice: Option<Decimal>, minPackagePrice: Option<Decimal>, maxPackagePrice: Option<Decimal>,
    currency: Option<string>)

  /** An item of the cached payload: prices travel as text. */
  datatype ItemPayload = ItemPayload(
    id: string, businessName: string, category: string, description: string, serviceArea: string,
    coverImageUrl: Option<string>, averageRating: real, totalReviews: int, isVerified: bool,
    startingPrice: Option<string>, minPackagePrice: Option<string>, maxPackagePrice: Option<string>,
    currency: Option<string>)

  /** `str(Decimal)` and `Decimal(str)`. */
  datatype DecimalText = DecimalText(render: Decimal -> string, parse: string -> Decimal) {
    ghost predicate Valid() {
      forall d :: parse(render(d)) == d
    }

    function Render(price: Option<Decimal>): Option<string> {
      if price.None? then None else Some(render(price.value))
    }

    function Parse(text: Option<string>): Option<Decimal> {
      if text.None? then None else Some(parse(text.value))
    }

    function EncodeItem(i: ListingDTO): ItemPayload {
      ItemPayload(i.id, i.businessName, i.category, i.description, i.serviceArea, i.coverImageUrl,
                  i.averageRating, i.totalReviews, i.isVerified,
                  Render(i.startingPrice), Render(i.minPackagePrice), Render(i.maxPackagePrice), i.currency)
    }

    /** `_serialize_result` */
    method SerializeResult(result: Page<ListingDTO>) returns (payload: Page<ItemPayload>)
      ensures IsPayloadOf(payload, result)
    {
      var items: seq<ItemPayload> := [];
      for i := 0 to |result.items|
        invariant |items| == i && forall k | 0 <= k < i :: items[k] == EncodeItem(result.items[k])
      {
        items := items + [EncodeItem(result.items[i])];
      }
      payload := Page(items, result.total, result.page, result.pageSize, result.totalPages);
    }

    ghost predicate IsPayloadOf(payload: Page<ItemPayload>, result: Page<ListingDTO>) {
      && |payload.items| == |result.items|
      && (forall k | 0 <= k < |result.items| :: payload.items[k] == EncodeItem(result.items[k]))
      && payload.total == result.total && payload.page == result.page
      && payload.pageSize == result.pageSize && payload.totalPages == result.totalPages
    }

    /** `_payload_to_result` gives back the result the payload was made from. */
    method PayloadToResult(payload: Page<ItemPayload>) returns (result: Page<ListingDTO>)
      requires Valid()
      ensures forall original: Page<ListingDTO> | IsPayloadOf(payload, original) :: result == original
    {
      var items: seq<ListingDTO> := [];
      for i := 0 to |payload.items|
        invariant |items| == i
        invariant forall k, original: ListingDTO | 0 <= k < i && payload.items[k] == EncodeItem(original) ::
                    items[k] == original
      {
        var p := payload.items[i];
        items := items + [ListingDTO(p.id, p.businessName, p.category, p.description, p.serviceArea, p.coverImageUrl,
                                     p.averageRating, p.totalReviews, p.isVerified,
                                     Parse(p.startingPrice), Parse(p.minPackagePrice), Parse(p.maxPackagePrice),
                                     p.currency)];
      }
      result := Page(items, payload.total, payload.page, payload.pageSize, payload.totalPages);
      forall original: Page<ListingDTO> | IsPayloadOf(payload, original)
        ensures result == original
      {
        assert items == original.items;
      }
    }
  }
}
