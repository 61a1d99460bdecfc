/** The search-result wrapper of acts_as_solr: a response hash fetched from
    Solr, read through named accessors, with pagination derived from the
    `:start`, `:rows` and `:total` entries. The wrapper never reassigns its
    hash after construction, so it is modelled as a value and every
    operation as a function of that value. */
module ActsAsSolr {
  import opened Wrappers
  import opened RubyArith

  /** The symbol keys the response hash is read by
      (`:docs`, `:total`, `:facets`, `:max_score`, `:query_time`, `:start`, `:rows`). */
  datatype Key = DocsKey | TotalKey | FacetsKey | MaxScoreKey | QueryTimeKey | StartKey | RowsKey

  /** A value stored in the response hash. The documents, the facet
      breakdown, the score and the query time are opaque to the wrapper. */
  datatype Value<Doc, Facet, Score, Time> =
    | DocList(docs: seq<Doc>)
    | Int(n: int)
    | FacetData(facets: Facet)
    | ScoreValue(score: Score)
    | TimeValue(time: Time)

  /** The exceptions the pagination arithmetic and the delegated calls raise. */
  datatype Error =
    | NoMethodError(receiver: Key)  // a message sent to nil: the key was absent
    | TypeError(operand: Key)       // nil given to Integer#/ as the divisor
    | ZeroDivisionError             // Integer#/ by zero
    | FloatDomainError              // Float#ceil of Infinity or NaN (division by 0.0)
    | UnexpectedType(field: Key)    // the key holds a value of another kind

  /** The hash a caller passes in, built from the fields it supplies;
      `None` leaves the key out. */
  function Hash<Doc, Facet, Score, Time>(
    docs: Option<seq<Doc>>, total: Option<int>, facets: Option<Facet>,
    maxScore: Option<Score>, queryTime: Option<Time>,
    start: Option<int>, rows: Option<int>): map<Key, Value<Doc, Facet, Score, Time>>
  {
    var m := map[];
    var m := if docs.Some? then m[DocsKey := DocList(docs.value)] else m;
    var m := if total.Some? then m[TotalKey := Int(total.value)] else m;
    var m := if facets.Some? then m[FacetsKey := FacetData(facets.value)] else m;
    var m := if maxScore.Some? then m[MaxScoreKey := ScoreValue(maxScore.value)] else m;
    var m := if queryTime.Some? then m[QueryTimeKey := TimeValue(queryTime.value)] else m;
    var m := if start.Some? then m[StartKey := Int(start.value)] else m;
    if rows.Some? then m[RowsKey := Int(rows.value)] else m
  }

  /** `SearchResults.new(solr_data)`: the wrapper holds the hash as given. */
  datatype SearchResults<Doc, Facet, Score, Time> =
    SearchResults(solrData: map<Key, Value<Doc, Facet, Score, Time>>)
  {
    /** `@solr_data[key]`: nil when the key is absent. */
    function Get(k: Key): Option<Value<Doc, Facet, Score, Time>> {
      if k in solrData then Some(solrData[k]) else None
    }

    predicate HasInt(k: Key) {
      k in solrData && solrData[k].Int?
    }

    function IntAt(k: Key): int
      requires HasInt(k)
    {
      solrData[k].n
    }

    /** The same response with `:start` replaced: the request for another page. */
    function WithStart(start: int): SearchResults<Doc, Facet, Score, Time> {
      SearchResults(solrData[StartKey := Int(start)])
    }

    // ---- accessors ----

    function Results(): (r: Option<Value<Doc, Facet, Score, Time>>)
      ensures r.Some? <==> DocsKey in solrData
      ensures r.Some? ==> r.value == solrData[DocsKey]
    {
      Get(DocsKey)
    }

    function Total(): (r: Option<Value<Doc, Facet, Score, Time>>)
      ensures r.Some? <==> TotalKey in solrData
      ensures r.Some? ==> r.value == solrData[TotalKey]
    {
      Get(TotalKey)
    }

    function Facets(): (r: Option<Value<Doc, Facet, Score, Time>>)
      ensures r.Some? <==> FacetsKey in solrData
      ensures r.Some? ==> r.value == solrData[FacetsKey]
    {
      Get(FacetsKey)
    }

    function MaxScore(): (r: Option<Value<Doc, Facet, Score, Time>>)
      ensures r.Some? <==> MaxScoreKey in solrData
      ensures r.Some? ==> r.value == solrData[MaxScoreKey]
    {
      Get(MaxScoreKey)
    }

    function QueryTime(): (r: Option<Value<Doc, Facet, Score, Time>>)
      ensures r.Some? <==> QueryTimeKey in solrData
      ensures r.Some? ==> r.value == solrData[QueryTimeKey]
    {
      Get(QueryTimeKey)
    }

    /** `offset` reads `:start`. */
    function Offset(): (r: Option<Value<Doc, Facet, Score, Time>>)
      ensures r.Some? <==> StartKey in solrData
      ensures r.Some? ==> r.value == solrData[StartKey]
    {
      Get(StartKey)
    }

    /** `per_page` reads `:rows`. */
    function PerPage(): (r: Option<Value<Doc, Facet, Score, Time>>)
      ensures r.Some? <==> RowsKey in solrData
      ensures r.Some? ==> r.value == solrData[RowsKey]
    {
      Get(RowsKey)
    }

    // ---- aliases ----

    function Docs(): (r: Option<Value<Doc, Facet, Score, Time>>)
      ensures r == Results()
    {
      Results()
    }

    function Records(): (r: Option<Value<Doc, Facet, Score, Time>>)
      ensures r == Results()
    {
      Results()
    }

    function NumFound(): (r: Option<Value<Doc, Facet, Score, Time>>)
      ensures r == Total()
    {
      Total()
    }

    function TotalHits(): (r: Option<Value<Doc, Facet, Score, Time>>)
      ensures r == Total()
    {
      Total()
    }

    function TotalEntries(): (r: Option<Value<Doc, Facet, Score, Time>>)
      ensures r == Total()
    {
      Total()
    }

    function HighestScore(): (r: Option<Value<Doc, Facet, Score, Time>>)
      ensures r == MaxScore()
    {
      MaxScore()
    }

    // ---- pagination ----

    /** `(offset / per_page).to_i + 1`: the 1-based number of the page that
        holds the result at `offset`, under Integer#/ (floor division). */
    function CurrentPage(): (r: Result<int, Error>)
      ensures r.Ok? <==> HasInt(StartKey) && HasInt(RowsKey) && IntAt(RowsKey) != 0
      ensures StartKey !in solrData ==> r == Err(NoMethodError(StartKey))
      ensures HasInt(StartKey) && RowsKey !in solrData ==> r == Err(TypeError(RowsKey))
      ensures HasInt(StartKey) && HasInt(RowsKey) && IntAt(RowsKey) == 0 ==> r == Err(ZeroDivisionError)
      // with a positive page size: page r covers offsets [(r - 1) * rows, r * rows)
      ensures r.Ok? && IntAt(RowsKey) > 0 ==>
        Times(r.value - 1, IntAt(RowsKey)) <= IntAt(StartKey) < Times(r.value, IntAt(RowsKey))
      // with a negative page size Integer#/ still rounds toward negative infinity
      ensures r.Ok? && IntAt(RowsKey) < 0 ==>
        Times(r.value, IntAt(RowsKey)) < IntAt(StartKey) <= Times(r.value - 1, IntAt(RowsKey))
      ensures r.Ok? && IntAt(RowsKey) > 0 ==> (r.value >= 1 <==> IntAt(StartKey) >= 0)
    {
      if StartKey !in solrData then Err(NoMethodError(StartKey))
      else if !solrData[StartKey].Int? then Err(UnexpectedType(StartKey))
      else if RowsKey !in solrData then Err(TypeError(RowsKey))
      else if !solrData[RowsKey].Int? then Err(UnexpectedType(RowsKey))
      else if IntAt(RowsKey) == 0 then Err(ZeroDivisionError)
      else
        var q := FloorDiv(IntAt(StartKey), IntAt(RowsKey));
        TimesStep(q, IntAt(RowsKey));
        Ok(q + 1)
    }

    /** `(total / per_page.to_f).ceil`, with 0 replaced by 1: the number of
        pages needed for `total` results, and never fewer than one. */
    function TotalPages(): (r: Result<int, Error>)
      ensures r.Ok? <==> HasInt(TotalKey) && HasInt(RowsKey) && IntAt(RowsKey) != 0
      ensures TotalKey !in solrData && (RowsKey in solrData ==> HasInt(RowsKey)) ==>
        r == Err(NoMethodError(TotalKey))
      // nil.to_f is 0.0, and so is 0.to_f: the quotient is infinite or NaN
      ensures HasInt(TotalKey) && (RowsKey !in solrData || (HasInt(RowsKey) && IntAt(RowsKey) == 0)) ==>
        r == Err(FloatDomainError)
      ensures r.Ok? ==> r.value != 0
      ensures r.Ok? && r.value != 1 ==> r.value == CeilDiv(IntAt(TotalKey), IntAt(RowsKey))
      ensures r.Ok? && r.value == 1 ==> 0 <= CeilDiv(IntAt(TotalKey), IntAt(RowsKey)) <= 1
      // with a non-negative total and a positive page size: the fewest pages
      // (at least one) of `rows` results that hold all `total` results
      ensures r.Ok? && IntAt(TotalKey) >= 0 && IntAt(RowsKey) > 0 ==>
        && r.value >= 1
        && IntAt(TotalKey) <= Times(r.value, IntAt(RowsKey))
        && (r.value == 1 || Times(r.value - 1, IntAt(RowsKey)) < IntAt(TotalKey))
    {
      if RowsKey in solrData && !solrData[RowsKey].Int? then Err(UnexpectedType(RowsKey))
      else if TotalKey !in solrData then Err(NoMethodError(TotalKey))
      else if !solrData[TotalKey].Int? then Err(UnexpectedType(TotalKey))
      else if RowsKey !in solrData || IntAt(RowsKey) == 0 then Err(FloatDomainError)
      else
        var pages := CeilDiv(IntAt(TotalKey), IntAt(RowsKey));
        TimesStep(pages - 1, IntAt(RowsKey));
        Ok(if pages == 0 then 1 else pages)
    }

    /** `current_page + 1 unless current_page == total_pages`. */
    function NextPage(): (r: Result<Option<int>, Error>)
      ensures r.Ok? <==> CurrentPage().Ok? && TotalPages().Ok?
      ensures CurrentPage().Err? ==> r == Err(CurrentPage().error)
      ensures CurrentPage().Ok? && TotalPages().Err? ==> r == Err(TotalPages().error)
      ensures r.Ok? ==> (r.value.None? <==> CurrentPage().value == TotalPages().value)
      ensures r.Ok? && r.value.Some? ==> r.value.value == CurrentPage().value + 1
    {
      match CurrentPage()
      case Err(e) => Err(e)
      case Ok(current) =>
        match TotalPages()
        case Err(e) => Err(e)
        case Ok(pages) => Ok(if current == pages then None else Some(current + 1))
    }

    /** `current_page - 1 unless current_page == 1`. */
    function PreviousPage(): (r: Result<Option<int>, Error>)
      ensures r.Ok? <==> CurrentPage().Ok?
      ensures CurrentPage().Err? ==> r == Err(CurrentPage().error)
      ensures r.Ok? ==> (r.value.None? <==> CurrentPage().value == 1)
      ensures r.Ok? && r.value.Some? ==> r.value.value == CurrentPage().value - 1
      ensures r.Ok? && r.value.Some? && IntAt(RowsKey) > 0 ==> (r.value.value >= 1 <==> IntAt(StartKey) >= 0)
    {
      match CurrentPage()
      case Err(e) => Err(e)
      case Ok(current) => Ok(if current == 1 then None else Some(current - 1))
    }

    // ---- calls forwarded to the document list (method_missing) ----

    /** `results.length`. */
    function Size(): (r: Result<nat, Error>)
      ensures r.Ok? <==> DocsKey in solrData && solrData[DocsKey].DocList?
      ensures DocsKey !in solrData ==> r == Err(NoMethodError(DocsKey))
      ensures r.Ok? ==> r.value == |solrData[DocsKey].docs|
    {
      match Results()
      case None => Err(NoMethodError(DocsKey))
      case Some(v) => if v.DocList? then Ok(|v.docs|) else Err(UnexpectedType(DocsKey))
    }

    /** `results.empty?`. */
    function IsEmpty(): (r: Result<bool, Error>)
      ensures r.Ok? <==> Size().Ok?
      ensures r.Err? ==> r.error == Size().error
      ensures r.Ok? ==> (r.value <==> Size().value == 0)
    {
      match Results()
      case None => Err(NoMethodError(DocsKey))
      case Some(v) => if v.DocList? then Ok(v.docs == []) else Err(UnexpectedType(DocsKey))
    }

    /** `results[i]`: nil out of range; a negative index counts from the end. */
    function At(i: int): (r: Result<Option<Doc>, Error>)
      ensures r.Ok? <==> Size().Ok?
      ensures r.Err? ==> r.error == Size().error
      ensures r.Ok? ==> (r.value.Some? <==> -(Size().value as int) <= i < Size().value)
      ensures r.Ok? && 0 <= i < Size().value ==> r.value == Some(solrData[DocsKey].docs[i])
      ensures r.Ok? && i < 0 && r.value.Some? ==> r.value == Some(solrData[DocsKey].docs[Size().value + i])
    {
      match Results()
      case None => Err(NoMethodError(DocsKey))
      case Some(v) =>
        if !v.DocList? then Err(UnexpectedType(DocsKey))
        else if 0 <= i < |v.docs| then Ok(Some(v.docs[i]))
        else if -|v.docs| <= i < 0 then Ok(Some(v.docs[|v.docs| + i]))
        else Ok(None)
    }
  }

  /** `SearchResults.new` with no argument: the hash defaults to `{}`. */
  function Default<Doc, Facet, Score, Time>(): (sr: SearchResults<Doc, Facet, Score, Time>)
    ensures sr.Results().None? && sr.Total().None? && sr.Facets().None?
    ensures sr.MaxScore().None? && sr.QueryTime().None?
    ensures sr.Offset().None? && sr.PerPage().None?
    ensures sr.CurrentPage() == Err(NoMethodError(StartKey))
    ensures sr.TotalPages() == Err(NoMethodError(TotalKey))
    ensures sr.NextPage() == Err(NoMethodError(StartKey))
    ensures sr.PreviousPage() == Err(NoMethodError(StartKey))
    ensures sr.Size() == Err(NoMethodError(DocsKey))
    ensures sr.IsEmpty() == Err(NoMethodError(DocsKey))
    ensures forall i :: sr.At(i) == Err(NoMethodError(DocsKey))
  {
    SearchResults(map[])
  }
}
