# acts_as_solr search results, modelled in Dafny

`ActsAsSolr::SearchResults` wraps the response hash of a Solr search. The hash
holds the matched documents (`:docs`), the total hit count (`:total`), the facet
breakdown (`:facets`), the top score (`:max_score`), the query time
(`:query_time`), the offset of the first returned document (`:start`) and the
page size (`:rows`). The wrapper reads these through named accessors and
aliases. It derives the current page, the total page count and the next and
previous page numbers with integer arithmetic. It forwards any other message
to the document list.

The wrapper never reassigns `@solr_data` after `initialize`, so the model is a
value (see "## Left out" for what that leaves out):

- `wrappers.dfy` (module `Wrappers`) has `Option` (Ruby's `nil`) and `Result`.
  A `Result` holds either a value or the exception that the Ruby method would raise.
- `ruby_arith.dfy` (module `RubyArith`) has Ruby's `Integer#/`, which rounds
  toward negative infinity for either sign of the divisor. It also has the
  ceiling of an exact quotient. Products in contracts are written `Times(q, b)`.
  That is q * b by repeated addition, so statements about page boundaries stay
  linear. `TimesIsProduct` proves that `Times` is multiplication.
- `search_results.dfy` (module `ActsAsSolr`) has the response hash as a
  `map<Key, Value>`. `Value` is a sum of the value kinds. The documents, facets,
  score and query time are opaque type parameters. This module also holds the
  `SearchResults` datatype with every accessor, alias and pagination rule, and
  the explicit forms of the forwarded calls.
- `paging_properties.dfy` (module `PagingProperties`) has the lemmas that relate
  several operations.

Every operation is a function of the stored hash, so no read through the
wrapper's own methods can change the stored data. The paging rules do not require their inputs to be present and
well-formed. Each failure the Ruby code would hit is returned as an `Error`:

- `NoMethodError`: a message was sent to nil.
- `TypeError`: nil was used as an `Integer#/` divisor.
- `ZeroDivisionError`: an integer division by zero.
- `FloatDomainError`: `ceil` of an infinite or NaN quotient. Both `nil.to_f` and
  `0.to_f` are `0.0`, so this is the error for a missing or zero `:rows`.

An invalid page size therefore surfaces as the exception the code raises, not
as a dedicated invalid-page-size error.

## Model

| member | source | states |
|---|---|---|
| `ActsAsSolr.SearchResults.Results` | lib/search_results.rb:36-38 | returns the stored `:docs` value unchanged, and nil exactly when the key is absent |
| `ActsAsSolr.SearchResults.Total` | lib/search_results.rb:42-44 | returns the stored `:total` unchanged, and nil exactly when the key is absent |
| `ActsAsSolr.SearchResults.Facets` | lib/search_results.rb:47-49 | returns the stored `:facets` unchanged, and nil exactly when the key is absent |
| `ActsAsSolr.SearchResults.MaxScore` | lib/search_results.rb:53-55 | returns the stored `:max_score` unchanged, and nil exactly when the key is absent |
| `ActsAsSolr.SearchResults.QueryTime` | lib/search_results.rb:57-59 | returns the stored `:query_time` unchanged, and nil exactly when the key is absent |
| `ActsAsSolr.SearchResults.Offset` | lib/search_results.rb:61-63 | `offset` is the stored `:start`, and nil exactly when the key is absent |
| `ActsAsSolr.SearchResults.PerPage` | lib/search_results.rb:65-67 | `per_page` is the stored `:rows`, and nil exactly when the key is absent |
| `ActsAsSolr.SearchResults.Docs` | lib/search_results.rb:86 | `docs` agrees with `results` |
| `ActsAsSolr.SearchResults.Records` | lib/search_results.rb:87 | `records` agrees with `results` |
| `ActsAsSolr.SearchResults.NumFound` | lib/search_results.rb:88 | `num_found` agrees with `total` |
| `ActsAsSolr.SearchResults.TotalHits` | lib/search_results.rb:89 | `total_hits` agrees with `total` |
| `ActsAsSolr.SearchResults.TotalEntries` | lib/search_results.rb:90 | `total_entries` agrees with `total` |
| `ActsAsSolr.SearchResults.HighestScore` | lib/search_results.rb:91 | `highest_score` agrees with `max_score` |
| `ActsAsSolr.SearchResults.CurrentPage` | lib/search_results.rb:68-70 | succeeds exactly when `:start` and a non-zero `:rows` are integers. For positive rows, page r covers offsets [(r-1)*rows, r*rows), and r >= 1 exactly when the offset is >= 0. For negative rows it rounds toward negative infinity. A nil start raises NoMethodError, nil rows raises TypeError and zero rows raises ZeroDivisionError |
| `ActsAsSolr.SearchResults.TotalPages` | lib/search_results.rb:77-80 | succeeds exactly when `:total` and a non-zero `:rows` are integers, and is never 0. It is 1 exactly when the exact ceiling of total/rows is 0 or 1, and that ceiling otherwise (so total 25 and rows -10 give -2). For total >= 0 and rows > 0 it is the fewest pages, at least one, that hold all results. A nil total raises NoMethodError; nil or zero rows raises FloatDomainError |
| `ActsAsSolr.SearchResults.NextPage` | lib/search_results.rb:71-73 | fails with the error of `current_page`, and after that with the error of `total_pages`. It is absent exactly when the current page equals the total pages, and is the current page + 1 otherwise |
| `ActsAsSolr.SearchResults.PreviousPage` | lib/search_results.rb:74-76 | fails exactly when `current_page` fails. It is absent exactly on page 1, and is the current page - 1 otherwise. For a positive page size it is >= 1 exactly when the offset is >= 0 |
| `ActsAsSolr.SearchResults.Size` | lib/search_results.rb:82-84 | a forwarded `length`: the length of the document list. It raises NoMethodError when `:docs` is absent |
| `ActsAsSolr.SearchResults.IsEmpty` | lib/search_results.rb:82-84 | a forwarded `empty?`: it fails exactly when `length` fails, and is true exactly when the length is 0 |
| `ActsAsSolr.SearchResults.At` | lib/search_results.rb:82-84 | a forwarded `[i]`: it is present exactly for -length <= i < length. It is the i-th document for i >= 0 and counts from the end for negative i |
| `ActsAsSolr.Default` | lib/search_results.rb:30-32 | `SearchResults.new` with the default `{}`: every accessor is nil and every paging rule and forwarded call raises NoMethodError |
| `RubyArith.FloorDiv` | lib/search_results.rb:69 | Ruby's `Integer#/`: q*b <= a < q*b + b for b > 0, and q*b + b < a <= q*b for b < 0. For b > 0, q >= 0 exactly when a >= 0, and q <= 0 when a < b |
| `RubyArith.FloorDivIsDivision` | lib/search_results.rb:69 | for a positive divisor, `Integer#/` equals Dafny's Euclidean division |
| `RubyArith.CeilDiv` | lib/search_results.rb:78 | the ceiling of the exact quotient: c*b - b < a <= c*b for b > 0, and the mirror image for b < 0. For b > 0, c == 0 when a == 0 and c > 0 when a > 0 |
| `RubyArith.FloorDivUnique` | lib/search_results.rb:69 | for a positive divisor, the floor quotient is the only q with q*b <= a < q*b + b |
| `PagingProperties.ReadBack` | lib/search_results.rb:30-66 | a hash built from supplied fields reads back each field unchanged through its accessor, and nil for each field left out |
| `PagingProperties.ResultPageInRange` | lib/search_results.rb:68-80 | when 0 <= offset < total and rows > 0: 1 <= current_page <= total_pages |
| `PagingProperties.LastResultOnLastPage` | lib/search_results.rb:68-80 | the result at offset total - 1 lies on page `total_pages` |
| `PagingProperties.NextPageWithinTotal` | lib/search_results.rb:71-80 | when the offset holds a result, there is no next page exactly when the offset is on the last page. A next page is never past `total_pages` |
| `PagingProperties.NextPageBeyondLastPage` | lib/search_results.rb:71-73 | from an offset past the last page, `current_page > total_pages` and `next_page` is still present, as current + 1. Only equality is tested |
| `PagingProperties.PreviousPageOnFirstPage` | lib/search_results.rb:74-76 | for offset >= 0 and rows > 0, there is no previous page exactly when offset < rows. A previous page is >= 1 |
| `PagingProperties.StepForward` | lib/search_results.rb:68-76 | requesting offset + rows gives page current + 1, which equals `next_page` when that is present. Its previous page is the page left |
| `PagingProperties.StepBack` | lib/search_results.rb:68-80 | when rows <= offset < total: requesting offset - rows gives `previous_page`. Its next page is the page left |
| `PagingProperties.Scenarios` | lib/search_results.rb:68-80 | worked examples. With 2 docs on one page of 10, page 1 of 1 has neither next nor previous. 0 results still give 1 page. With 25 results and 10 rows: start 10 gives page 2 of 3 with next 3 and previous 1. Start 20 gives page 3 of 3 with no next. Start 30 gives page 4 of 3 with next 5. Rows -10 give -2 total pages. Missing or zero rows give the errors above |

## Left out

- `method_missing` (lib/search_results.rb:82-84) forwards any message to the document list. Only `length`, `empty?` and `[i]` are modelled, as `Size`, `IsEmpty` and `At`. Arbitrary dynamic dispatch cannot be stated.
- `ActsAsSolr.SearchResults.TotalPages`: computes the exact ceiling of total/rows. Ruby divides by `rows.to_f` in floating point, which can round differently for totals beyond 2^53. Floating point is not modelled.
- `ActsAsSolr.SearchResults.CurrentPage`: a `:start`, `:rows` or `:total` that holds a non-integer gives `UnexpectedType` here and in `TotalPages`. Ruby's coercions of such values (Float arithmetic, `String#to_f`, the TypeError of a failed coercion) are not modelled.
- In-place change is not captured. The value model does not show the stored documents or hash changing through forwarding or aliasing. Forwarded mutators such as `pop`, `clear`, `<<` or `sort!` change the `:docs` Array in place. `results` hands that same Array to callers. `initialize` keeps the caller's hash by reference, so a later `h[:start] = 20` changes `current_page`. Each model value is one snapshot of the hash.
- `ActsAsSolr.SearchResults.Size`: a `:docs` value that is not a document list gives `UnexpectedType`. Ruby would forward the message to that object, whatever it is.
- The contents of `:facets`, `:max_score` and `:query_time` are opaque type parameters. No arithmetic on them is modelled.
- A key bound to nil (`{start: nil}`) is represented by leaving the key out. Ruby's `Hash#[]` returns nil for both, and every method of the wrapper treats the two alike, so "nil exactly when the key is absent" in the rows above reads "absent or bound to nil" for Ruby.
- Hash keys other than the seven the wrapper reads are not represented. No accessor reads them.
- The Solr query, the `find_by_solr` lookup that builds the hash, and all network I/O are not part of this model.
