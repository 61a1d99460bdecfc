/** Properties of the search-result wrapper that relate several of its
    operations: where the current page lies among all pages, how the next
    and previous pages move between requests, and that the response hash
    reads back as supplied. */
module PagingProperties {
  import opened Wrappers
  import opened RubyArith
  import opened ActsAsSolr

  /** The usual pagination request: integer `:start` at or past 0 and a
      positive integer `:rows`. */
  predicate Paged<D, F, S, T>(sr: SearchResults<D, F, S, T>) {
    sr.HasInt(StartKey) && sr.IntAt(StartKey) >= 0 &&
    sr.HasInt(RowsKey) && sr.IntAt(RowsKey) > 0
  }

  /** A paged request that also carries a non-negative integer `:total`. */
  predicate Counted<D, F, S, T>(sr: SearchResults<D, F, S, T>) {
    Paged(sr) && sr.HasInt(TotalKey) && sr.IntAt(TotalKey) >= 0
  }

  /** Each field supplied to the hash reads back unchanged through its
      accessor, and each field left out reads back as nil. */
  lemma ReadBack<D, F, S, T>(
    docs: Option<seq<D>>, total: Option<int>, facets: Option<F>,
    maxScore: Option<S>, queryTime: Option<T>, start: Option<int>, rows: Option<int>)
    ensures var sr := SearchResults(Hash(docs, total, facets, maxScore, queryTime, start, rows));
      && sr.Results() == (if docs.Some? then Some(DocList(docs.value)) else None)
      && sr.Total() == (if total.Some? then Some(Int(total.value)) else None)
      && sr.Facets() == (if facets.Some? then Some(FacetData(facets.value)) else None)
      && sr.MaxScore() == (if maxScore.Some? then Some(ScoreValue(maxScore.value)) else None)
      && sr.QueryTime() == (if queryTime.Some? then Some(TimeValue(queryTime.value)) else None)
      && sr.Offset() == (if start.Some? then Some(Int(start.value)) else None)
      && sr.PerPage() == (if rows.Some? then Some(Int(rows.value)) else None)
  {
  }

  /** A page that holds one of the results is never past the last page. */
  lemma ResultPageInRange<D, F, S, T>(sr: SearchResults<D, F, S, T>)
    requires Counted(sr) && sr.IntAt(StartKey) < sr.IntAt(TotalKey)
    ensures sr.CurrentPage().Ok? && sr.TotalPages().Ok?
    ensures 1 <= sr.CurrentPage().value <= sr.TotalPages().value
  {
    var rows := sr.IntAt(RowsKey);
    var current, pages := sr.CurrentPage().value, sr.TotalPages().value;
    if pages < current - 1 {
      TimesStrictMono(pages, current - 1, rows);
    }
  }

  /** The last result (offset total - 1) lies on the last page. */
  lemma LastResultOnLastPage<D, F, S, T>(sr: SearchResults<D, F, S, T>)
    requires sr.HasInt(TotalKey) && sr.IntAt(TotalKey) > 0
    requires sr.HasInt(RowsKey) && sr.IntAt(RowsKey) > 0
    ensures sr.WithStart(sr.IntAt(TotalKey) - 1).CurrentPage() == sr.TotalPages()
  {
    var total, rows := sr.IntAt(TotalKey), sr.IntAt(RowsKey);
    var pages := sr.TotalPages().value;
    TimesStep(pages - 1, rows);
    FloorDivUnique(total - 1, rows, pages - 1);
  }

  /** While the offset holds a result, there is a next page exactly when the
      offset lies before the last page, and that next page is a real page. */
  lemma NextPageWithinTotal<D, F, S, T>(sr: SearchResults<D, F, S, T>)
    requires Counted(sr) && sr.IntAt(StartKey) < sr.IntAt(TotalKey)
    ensures sr.NextPage().Ok?
    ensures sr.NextPage().value.None? <==>
      sr.IntAt(StartKey) >= Times(sr.TotalPages().value - 1, sr.IntAt(RowsKey))
    ensures sr.NextPage().value.Some? ==> sr.NextPage().value.value <= sr.TotalPages().value
  {
    ResultPageInRange(sr);
    var start, rows := sr.IntAt(StartKey), sr.IntAt(RowsKey);
    var current, pages := sr.CurrentPage().value, sr.TotalPages().value;
    if current != pages {
      if current < pages - 1 {
        TimesStrictMono(current, pages - 1, rows);
      }
    }
  }

  /** `next_page` only tests equality with `total_pages`: from an offset
      past the last page it still offers a next page, further away. */
  lemma NextPageBeyondLastPage<D, F, S, T>(sr: SearchResults<D, F, S, T>)
    requires Counted(sr)
    requires sr.IntAt(StartKey) >= Times(sr.TotalPages().value, sr.IntAt(RowsKey))
    ensures sr.CurrentPage().value > sr.TotalPages().value
    ensures sr.NextPage() == Ok(Some(sr.CurrentPage().value + 1))
  {
    var rows := sr.IntAt(RowsKey);
    var current, pages := sr.CurrentPage().value, sr.TotalPages().value;
    if current < pages {
      TimesStrictMono(current, pages, rows);
    }
  }

  /** On a paged request there is no previous page exactly on the first
      page, and a previous page is never numbered below 1. */
  lemma PreviousPageOnFirstPage<D, F, S, T>(sr: SearchResults<D, F, S, T>)
    requires Paged(sr)
    ensures sr.PreviousPage().Ok?
    ensures sr.PreviousPage().value.None? <==> sr.IntAt(StartKey) < sr.IntAt(RowsKey)
    ensures sr.PreviousPage().value.Some? ==> sr.PreviousPage().value.value >= 1
  {
    var start, rows := sr.IntAt(StartKey), sr.IntAt(RowsKey);
    var current := sr.CurrentPage().value;
    if current > 2 {
      TimesStrictMono(1, current - 1, rows);
    }
  }

  /** Requesting the results `rows` further on moves to the next page, and
      from there the previous page is the one left. */
  lemma StepForward<D, F, S, T>(sr: SearchResults<D, F, S, T>)
    requires Paged(sr)
    ensures var later := sr.WithStart(sr.IntAt(StartKey) + sr.IntAt(RowsKey));
      && later.CurrentPage() == Ok(sr.CurrentPage().value + 1)
      && later.PreviousPage() == Ok(Some(sr.CurrentPage().value))
    ensures sr.NextPage().Ok? && sr.NextPage().value.Some? ==>
      sr.WithStart(sr.IntAt(StartKey) + sr.IntAt(RowsKey)).CurrentPage() == Ok(sr.NextPage().value.value)
  {
    var start, rows := sr.IntAt(StartKey), sr.IntAt(RowsKey);
    var later := sr.WithStart(start + rows);
    var q := FloorDiv(start, rows);
    TimesStep(q, rows);
    TimesStep(q + 1, rows);
    FloorDivUnique(start + rows, rows, q + 1);
    assert sr.CurrentPage() == Ok(q + 1);
    assert later.HasInt(StartKey) && later.HasInt(RowsKey) && later.IntAt(RowsKey) == rows;
    assert later.CurrentPage() == Ok(q + 2);
  }

  /** Requesting the results `rows` earlier moves to the previous page, and
      from there the next page is the one left. */
  lemma StepBack<D, F, S, T>(sr: SearchResults<D, F, S, T>)
    requires Counted(sr) && sr.IntAt(RowsKey) <= sr.IntAt(StartKey) < sr.IntAt(TotalKey)
    ensures sr.PreviousPage() == Ok(Some(sr.CurrentPage().value - 1))
    ensures var earlier := sr.WithStart(sr.IntAt(StartKey) - sr.IntAt(RowsKey));
      && earlier.CurrentPage() == Ok(sr.CurrentPage().value - 1)
      && earlier.NextPage() == Ok(Some(sr.CurrentPage().value))
  {
    var start, rows := sr.IntAt(StartKey), sr.IntAt(RowsKey);
    PreviousPageOnFirstPage(sr);
    ResultPageInRange(sr);
    var q := FloorDiv(start, rows);
    TimesStep(q - 1, rows);
    FloorDivUnique(start - rows, rows, q - 1);
  }

  /** Worked examples of the pagination rules on concrete response hashes. */
  lemma Scenarios()
    // two documents on a single page of ten
    ensures var sr := SearchResults(Hash<char, int, int, int>(Some(['A', 'B']), Some(2), None, None, None, Some(0), Some(10)));
      && sr.CurrentPage() == Ok(1) && sr.TotalPages() == Ok(1)
      && sr.NextPage() == Ok(None) && sr.PreviousPage() == Ok(None)
      && sr.IsEmpty() == Ok(false) && sr.Size() == Ok(2)
    // no results still make one page
    ensures var sr := SearchResults(Hash<char, int, int, int>(Some([]), Some(0), None, None, None, Some(0), Some(10)));
      && sr.TotalPages() == Ok(1) && sr.IsEmpty() == Ok(true)
    // 25 results, second page of ten
    ensures var sr := SearchResults(Hash<char, int, int, int>(None, Some(25), None, None, None, Some(10), Some(10)));
      && sr.CurrentPage() == Ok(2) && sr.TotalPages() == Ok(3)
      && sr.NextPage() == Ok(Some(3)) && sr.PreviousPage() == Ok(Some(1))
    // 25 results, last page of ten
    ensures var sr := SearchResults(Hash<char, int, int, int>(None, Some(25), None, None, None, Some(20), Some(10)));
      && sr.CurrentPage() == Ok(3) && sr.TotalPages() == Ok(3) && sr.NextPage() == Ok(None)
    // 25 results, offset past the last page
    ensures var sr := SearchResults(Hash<char, int, int, int>(None, Some(25), None, None, None, Some(30), Some(10)));
      && sr.CurrentPage() == Ok(4) && sr.TotalPages() == Ok(3) && sr.NextPage() == Ok(Some(5))
    // a negative page size: the ceiling of 25 / -10.0 is -2
    ensures var sr := SearchResults(Hash<char, int, int, int>(None, Some(25), None, None, None, Some(0), Some(-10)));
      && sr.TotalPages() == Ok(-2)
    // no page size
    ensures var sr := SearchResults(Hash<char, int, int, int>(None, Some(25), None, None, None, Some(0), None));
      && sr.CurrentPage() == Err(TypeError(RowsKey)) && sr.TotalPages() == Err(FloatDomainError)
    // page size zero
    ensures var sr := SearchResults(Hash<char, int, int, int>(None, Some(25), None, None, None, Some(0), Some(0)));
      && sr.CurrentPage() == Err(ZeroDivisionError) && sr.TotalPages() == Err(FloatDomainError)
  {
    FloorDivIsDivision(0, 10);
    FloorDivIsDivision(-2, 10);
    FloorDivIsDivision(10, 10);
    FloorDivIsDivision(20, 10);
    FloorDivIsDivision(30, 10);
    FloorDivIsDivision(-25, 10);
    FloorDivIsDivision(25, 10);
  }
}
