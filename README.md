# Ski-home search backend, modelled in Dafny

This project models the search core of the backend of a ski-trip planner. The backend's
`/api/search` endpoint:

1. reads the caller's bearer token;
2. reads the search request;
3. narrows a catalog of ski resorts by region, resort name and three minimum statistics;
4. pages through the home-exchange service's GraphQL search around every selected resort;
5. tags every home found with its resort;
6. asks a routing service for the driving time;
7. merges the rows of one home into a single entry with its list of resorts and its least
   driving time;
8. ranks the homes by that time;
9. answers only the homes with an availability window that overlaps the searched dates,
   each with just those windows.

The model is in nine modules, one file each:

| module | file | what it holds |
|---|---|---|
| `Common` | `common.dfy` | `Option`, and `IsSubseq`, an order-preserving selection |
| `Dates` | `dates.dfy` | calendar dates; `relativedelta(months=1)`; the monthly chunks of `make_monthly_date_ranges` and its loop; ISO-8601 timestamps with their parser and round trip |
| `Catalog` | `catalog.dfy` | the resort catalog and the selection chain, both as one predicate and as the source's filter-after-filter steps |
| `Explore` | `explore.dfy` | the query variables of `explore_map_once`; the page loop of `explore_map_multiple` (the pet filter, the row projection, the requests sent, the rows kept); its specification on the upstream's responses |
| `Sorting` | `sorting.dfy` | the stable sort by an optional key with missing keys last; `float('inf')` becomes "None sorts after every number" |
| `Merge` | `merge.dfy` | tagging; driving-time annotation; the dictionary-based deduplication loop with its specification per home id; the two sorts |
| `Resorts` | `resorts.dfy` | `resort_map_multiple` as a whole |
| `Availability` | `availability.dfy` | the overlap filter and the result entries |
| `Search` | `search.dfy` | the `Authorization` header; the request defaults; the handler `search` with its 401, 400, 500 and 200 answers |

Everything outside the program is a parameter, bundled in `Resorts.Upstream`:

- `fetch`: the GraphQL call. It takes the token and the query variables, and gives None when the request fails, which raises in the source.
- `polygonOf`: `make_polygon`.
- `drive`: `get_driving_time`.
- `stamps`: the `sortedAt` timestamp taken for the search around the i-th resort.
- `clock`: the `now()` that `explore_map_once` reads.

Loops the source runs over state become methods with loop invariants. Each is proved equal to a
specification function, and the lemmas state that function's properties.

## Model

| member | source | states |
|---|---|---|
| Search.ExtractBearerToken | backend/backend_api.py:73-78 | a token is found exactly when the header is present, at least 7 characters long and starts with "Bearer "; the header is then "Bearer " followed by the token |
| Search.BearerRoundTrip | backend/backend_api.py:58-70 | the Authorization value `_build_headers` sends (the given token, else the stored one, after "Bearer ") is read back by `_get_token_from_request` as that same token |
| Search.ParamsOf | backend/backend_api.py:666-684 | the parameters passed on carry the given dates and ask for page size 50; `dateType`, `minNights`, `numberOfPeople` and `petsAllowed` are passed through when given and otherwise default to "flexible", 0, 0 and false |
| Search.HandleSearch | backend/backend_api.py:655-782 | status 401 exactly when the bearer token is missing or empty; status 400 exactly when it is present and either date is missing; status 200 only with a token and both dates; empty results, with no search at all, when no resort is selected; 500 exactly when a date does not exist or a resort's search fails after the earlier ones succeeded; otherwise the results are `Listings` of the ranked homes; every listed home has at least one window, and every window it lists overlaps the searched dates |
| Search.ListingsOverlap | backend/backend_api.py:739-749 | every listing has a non-empty list of windows, each overlapping the searched dates |
| Catalog.SelectResorts | backend/backend_api.py:688-715 | the chain of five filters (regions, resort names, three thresholds applied only when given and positive) yields exactly `Admitted`, the catalog's resorts admitted by all active filters together, in catalog order |
| Catalog.AdmittedIsOrderedSelection | backend/backend_api.py:690-712 | a resort is selected if and only if it is in the catalog and passes every active filter; the selection keeps catalog order |
| Catalog.NoFilterSelectsAll | backend/backend_api.py:690-712 | with no lists and no thresholds, the whole catalog is searched |
| Catalog.KeepNarrows | backend/backend_api.py:690-712 | filtering the selection once more by one criterion is the selection under the filter extended by that criterion |
| Catalog.AdmittedSameFilter | backend/backend_api.py:690-712 | two filters admitting the same resorts select the same list |
| Dates.DaysInMonth | backend/backend_api.py:291 | month lengths 28..31; 29 exactly for February of a Gregorian leap year |
| Dates.AddMonth | backend/backend_api.py:291 | `relativedelta(months=1)` lands in the next calendar month, later than the date, on the same day or clamped to the last day of that month; valid while the year stays at most 9999 |
| Dates.Earlier | backend/backend_api.py:292 | `min` of two dates is one of them and after neither |
| Dates.MonthlyChunks | backend/backend_api.py:282-295 | every chunk is a pair of valid dates |
| Dates.MonthlyChunksCover | backend/backend_api.py:282-295 | no chunks exactly when start is not before end; otherwise the first chunk starts at the start, the last ends at the end, and each chunk starts where the previous one ended |
| Dates.FirstChunkSpan | backend/backend_api.py:290-294 | the first chunk is non-empty and at most one month long, and exactly one month when more chunks follow |
| Dates.ChunkSpan | backend/backend_api.py:290-294 | the i-th chunk is non-empty and at most one month long, and exactly one month unless it is the last |
| Dates.MonthlyChunksSpan | backend/backend_api.py:290-294 | every chunk is non-empty and at most one month long; every chunk but the last is exactly one month |
| Dates.MonthlyChunksStep | backend/backend_api.py:290-294 | one loop step emits the first chunk's ISO pair and continues from its end, which lies strictly later and not after the end date |
| Dates.MakeMonthlyDateRanges | backend/backend_api.py:282-295 | the loop returns the ISO pairs of exactly the monthly chunks |
| Dates.IsoTimestamp | backend/backend_api.py:266-279 | the `%Y-%m-%dT%H:%M:%S.000Z` text of a midnight date is 24 characters, with dashes at 4 and 7 and the midnight suffix from 10 on |
| Dates.ParseIsoTimestamp | backend/backend_api.py:266-279 | a parsed timestamp is always a valid date |
| Dates.IsoRoundTrip | backend/backend_api.py:266-279 | parsing the ISO text of a valid date gives back that date |
| Dates.IsoTimestampInjective | backend/backend_api.py:266-279 | two valid dates with the same ISO text are equal |
| Dates.FourDigitsRoundTrip | backend/backend_api.py:269 | the zero-padded four-digit year reads back as the year |
| Dates.TwoDigitsRoundTrip | backend/backend_api.py:269 | the zero-padded two-digit month and day read back as themselves |
| Dates.IsoDateRange | backend/backend_api.py:266-279 | `to_iso_date_range` gives two strings that parse back to the start and the end |
| Dates.IsoRangesElementwise | backend/backend_api.py:282-295 | the rendered list has one ISO pair per chunk, in order |
| Explore.ExploreMapOnceFields | backend/backend_api.py:298-337 | trip type is EXACT_DATES if and only if dateType is "exact"; minimumNights is present if and only if dateType is "flexible"; the pet preferences are ["YES","MAYBE"] if and only if pets are allowed, else empty, and never contain "NO"; polygon, date ranges, guests, page, page size and timestamp are passed through |
| Explore.SortedAtOverride | backend/backend_api.py:353-365 | overwriting `sortedAt` after `explore_map_once` is the same as building page 0 with that timestamp and then changing the page number |
| Explore.PageRequestIsFirstWithPage | backend/backend_api.py:353-365 | the request for any page is the page-0 request with only the page number changed; it keeps the search's timestamp |
| Explore.PageRequestsNumbered | backend/backend_api.py:353-404 | the i-th request sent asks for page i and carries the same `sortedAt` as the first |
| Explore.PetFilterDropsExactlyRefusals | backend/backend_api.py:370-378 | with pets allowed, a home is kept if and only if neither pet field is "NO"; without, every home is kept; the kept homes keep their order |
| Explore.RowsOfAppend | backend/backend_api.py:384-398 | rows are made home by home, so rows of joined home lists are the joined rows |
| Explore.KeepPetCompatible | backend/backend_api.py:370-398 | the loop over one page's homes returns exactly the rows of the homes the pet filter keeps |
| Explore.FormatDateRanges | backend/backend_api.py:348-351 | "flexible" searches send the monthly chunks, other date types the single ISO pair |
| Explore.PageQuery | backend/backend_api.py:354-365 | the variables sent for page n are the first page's with page n |
| Explore.FetchPage | backend/backend_api.py:354-398 | one page: the variables sent, the upstream's answer to them and the rows kept from it |
| Explore.PageStep | backend/backend_api.py:353-404 | a response with more pages extends the paged-so-far state by one page; a stopping response completes the run with exactly page+1 requests and all rows so far |
| Explore.PagedUntilUnique | backend/backend_api.py:400-401 | the number of requests a search sends is determined by the responses |
| Explore.PagingEndsHasEnd | backend/backend_api.py:353-404 | when some page stops the loop, there is a first one |
| Explore.ContinuesOrStopped | backend/backend_api.py:353-404 | after m pages the loop has either continued through all of them or already stopped |
| Explore.ContinuesThroughEach | backend/backend_api.py:400-403 | every page before the loop stops answered `hasMore` |
| Explore.PageCount | backend/backend_api.py:353-404 | the number of requests of a run that ends is the one after which the loop stops |
| Explore.RequestPages | backend/backend_api.py:353-406 | the loop sends pages 0, 1, ... up to the first page that fails or has no more; it fails exactly when that last request failed; otherwise it returns the kept rows of all pages in page order |
| Explore.PagedRunIsOutcome | backend/backend_api.py:353-406 | such a run is the one `SearchOutcome` describes |
| Explore.ExploreMapMultiple | backend/backend_api.py:340-406 | the whole search around one resort sends exactly `PageCount` requests with one timestamp and returns `SearchOutcome` |
| Sorting.InsertByPermutes | backend/backend_api.py:484-489 | inserting into a sorted list adds exactly the element |
| Sorting.InsertByBounded | backend/backend_api.py:484-489 | inserting keeps every key at or above a common lower bound |
| Sorting.InsertBySorted | backend/backend_api.py:484-489 | inserting into a sorted list keeps it sorted, missing keys last |
| Sorting.InsertByStable | backend/backend_api.py:484-489 | inserting keeps the relative order of the elements with equal keys |
| Sorting.PassingKeepsOrder | backend/backend_api.py:484-489 | one insertion step past an element of another key keeps the equal-key order |
| Sorting.SortByIsSorted | backend/backend_api.py:484-489 | `list.sort` with the None-last key yields a list sorted by that key |
| Sorting.SortByPermutes | backend/backend_api.py:484-489 | the sorted list is a permutation of the input |
| Sorting.SortByStable | backend/backend_api.py:484-489 | the sort is stable: equal keys stay in input order |
| Merge.TagAll | backend/backend_api.py:429-435 | every row of one resort's search is tagged with that resort's name, state, region and coordinates, one tagged row per row |
| Merge.AnnotateDrivingTimes | backend/backend_api.py:441-448 | every row gets the routing service's time from its resort to the home, and no time when the home's latitude or longitude is missing or zero |
| Merge.Annotated | backend/backend_api.py:441-448 | the annotation keeps every row |
| Merge.FirstSeenIdsExactly | backend/backend_api.py:450-480 | an id is a dictionary key if and only if some row carries it as a truthy id, if and only if it has a first row |
| Merge.FirstSeenIdsDistinct | backend/backend_api.py:450-480 | no home id appears twice among the keys |
| Merge.FirstRowForIsFirst | backend/backend_api.py:456-459 | the copied row of a home is its earliest row; no earlier row has its id |
| Merge.EntriesForExactly | backend/backend_api.py:460-474 | a home's resort list holds exactly the entries of the rows with its id, non-empty when it has any |
| Merge.LeastTimeIsLeast | backend/backend_api.py:466-479 | min_driving_time is None exactly when no entry has a time; otherwise it is one of the times and at most every known time |
| Merge.MergedHomeFor | backend/backend_api.py:456-479 | the merged entry of an id is its first row, the entries of all its rows and their least time |
| Merge.Merged | backend/backend_api.py:482 | one merged home per distinct id, in first-seen order |
| Merge.MergeStep | backend/backend_api.py:452-479 | one more row adds its id to the keys only when it is new, appends its entry to its own id only, and never changes a first row already found |
| Merge.LeastTimeStep | backend/backend_api.py:476-479 | updating the minimum with one more time agrees with the least time of the longer list |
| Merge.SkipKeepsRepresentation | backend/backend_api.py:453-455 | a row without a truthy id leaves the dictionary a faithful merge of the rows so far |
| Merge.NewIdMerges | backend/backend_api.py:457-466 | the copy of a new id's first row with its single entry and own time is that id's merge so far |
| Merge.NewIdExtendsRepresentation | backend/backend_api.py:457-466 | adding a new id keeps the dictionary and its key order a faithful merge |
| Merge.SeenIdUpdatesRepresentation | backend/backend_api.py:467-479 | appending the entry and lowering the minimum for a known id keeps the dictionary a faithful merge |
| Merge.ValuesInOrder | backend/backend_api.py:482 | the values come out in key order, one per key |
| Merge.RepresentedIsMerged | backend/backend_api.py:482 | a dictionary that faithfully merges all rows lists exactly the merged homes |
| Merge.MergeRow | backend/backend_api.py:452-479 | one pass of the deduplication loop keeps the dictionary a faithful merge of one more row |
| Merge.MergeByHome | backend/backend_api.py:450-482 | the deduplication loop returns exactly `Merged` of the annotated rows |
| Merge.SortResortsOfEach | backend/backend_api.py:485-486 | each home's resort list is sorted by driving time; nothing else changes |
| Merge.SortedFirstIsLeast | backend/backend_api.py:485-486 | after sorting, a home's first resort carries its min_driving_time |
| Merge.SortedResortsStartWithLeast | backend/backend_api.py:485-486 | the first resort of a sorted resort list has the list's least time |
| Merge.SortEach | backend/backend_api.py:485-486 | sorting resort lists keeps every home |
| Merge.SortedMergedHome | backend/backend_api.py:450-486 | a merged home with its resorts sorted is a ranked home of its id |
| Merge.SortEachRanked | backend/backend_api.py:450-486 | every home after the per-home sort is a ranked home |
| Merge.RankedHomes | backend/backend_api.py:450-489 | the returned homes are sorted by min_driving_time with unknown times last, a permutation of the merged homes, one per distinct id, no two with the same id; each holds exactly its rows' entries, sorted, with the least time first |
| Merge.DistinctIdsOccurOnce | backend/backend_api.py:450-482 | in a list of homes with distinct ids each home occurs at most once |
| Merge.DistinctIdsPermutation | backend/backend_api.py:489 | reordering a list of homes with distinct ids keeps the ids distinct |
| Merge.SortEachIds | backend/backend_api.py:450-486 | the merged homes, with their resorts sorted, are one per first-seen id, in first-seen order, so no two share an id |
| Resorts.Fates | backend/backend_api.py:413-427 | one fate per selected resort: the outcome of its search when its paging ends |
| Resorts.CollectSucceedsIffAllSucceed | backend/backend_api.py:413-435 | the rows are collected exactly as long as every search so far has succeeded |
| Resorts.FailurePersists | backend/backend_api.py:413-427 | once a search has failed, the call fails whatever the searches after it would do, which are never run |
| Resorts.CollectFailsIffSomeSearchFails | backend/backend_api.py:413-427 | when every search the loop reaches ends, the call fails exactly when some resort's search fails after all earlier ones succeeded |
| Resorts.CollectedRowsAreTagged | backend/backend_api.py:429-435 | every collected row carries the tags of one of the resorts searched and no driving time yet |
| Resorts.AppendTagged | backend/backend_api.py:429-435 | the loop appends one resort's rows, tagged, after those already collected |
| Resorts.ReachedSearchEnds | backend/backend_api.py:413-427 | when every reached search ends, the search the loop reaches after the earlier ones succeeded has a known fate |
| Resorts.SearchResort | backend/backend_api.py:416-427 | one resort's search returns the outcome of its paging from the resort's polygon |
| Resorts.GatherResults | backend/backend_api.py:413-435 | the per-resort loop collects exactly `Gathered`: each resort's rows in selection order, or failure |
| Resorts.ResortMapMultiple | backend/backend_api.py:408-491 | the result is `ResortMapResult`; it fails exactly when some resort's search fails after all earlier ones succeeded; otherwise it is sorted by min_driving_time, one home per distinct id among the annotated rows, no two with the same id, each a ranked home of exactly its rows |
| Availability.OverlapsIffShareADay | backend/backend_api.py:745 | for well-ordered windows the overlap test holds if and only if the window and the searched dates share a day |
| Availability.MatchingWindowsExactly | backend/backend_api.py:739-746 | a window is kept if and only if it overlaps the searched dates; kept windows keep their order |
| Availability.MatchingWindowsStep | backend/backend_api.py:740-746 | one window step keeps the window exactly when it overlaps |
| Availability.MatchingFromSuffix | backend/backend_api.py:739-746 | the loop's remaining windows match the specification on the remaining suffix |
| Availability.MatchAvailabilities | backend/backend_api.py:739-746 | the window loop returns exactly the overlapping windows |
| Availability.Format | backend/backend_api.py:750-775 | a result lists the given windows, the home's id and its page URL, and the home's resort list when it has one; the image URL is never empty |
| Availability.AvailableHomesExactly | backend/backend_api.py:734-749 | a home is listed if and only if one of its windows overlaps; listed homes keep the ranking order |
| Availability.FormatAllElementwise | backend/backend_api.py:750-775 | each listed home is formatted with its own matching windows |
| Availability.ListingsOfAvailableHomes | backend/backend_api.py:734-775 | one result per available home, with that home's id and exactly its non-empty overlapping windows |
| Availability.ListingsStep | backend/backend_api.py:734-775 | the results of a suffix are the next home's (if it matches) followed by the rest |
| Availability.ListHome | backend/backend_api.py:735-775 | one home gives one result, or none when no window overlaps |
| Availability.ListingsFromSuffix | backend/backend_api.py:734-775 | the loop's remaining results match the specification on the remaining homes |
| Availability.FilterByAvailability | backend/backend_api.py:734-775 | the result loop returns exactly `Listings`: the formatted available homes in ranking order |

## Left out

- HTTP, Flask routing, CORS, JSON parsing, environment variables, logging and `print` are not modelled. The request body arrives as a `RequestBody` with optional fields.
- A body that is not a JSON object raises in the source and answers 500. The model's typed body cannot express it.
- Search.ParamsOf: the typed `RequestBody` does not tell an explicit JSON `null` from a missing field. The source sends an explicit `null` for `minNights` or `numberOfPeople` upstream as null, not as the default 0; the model gives the default. `petsAllowed` is a bool in the model; the source uses any value by its truthiness and never raises for one. Other fields of an unexpected type are not modelled.
- Dates are `Date` values. A string that is not a real date is a `Date` that is not `ValidDate`, and the handler answers 500 for it as `strptime` would. Text that is not in the YYYY-MM-DD shape at all is not modelled separately.
- Availability windows whose own dates do not parse raise 500 in the source. Windows are modelled as dates and never fail to parse.
- A home whose `availabilitiesWithoutBookedDates` is an explicit JSON `null` makes the window loop raise (backend/backend_api.py:735-739), and the handler answers 500. The model always has a list of windows, so this error path is not modelled.
- `make_polygon` (trigonometry on floats), `get_driving_time` (HTTP to a routing service) and `post_graphql` (HTTP to the GraphQL endpoint) are oracle parameters. The GraphQL text and the OTP, token-refresh and validation endpoints are not part of this model.
- Coordinates and bathroom counts are `real`. Floating-point rounding is not modelled.
- `float('inf')` as a sort key is modelled as "None sorts last".
- `datetime.now()`, the timestamp text and `time.sleep` are parameters or are left out. The sleep between pages has no effect on the result.
- `token_box` is the `stored` parameter of `Search.AuthorizationValue`; its refresh is not modelled.
- The "distance" text of a result (`f"{...:.1f} min"`) is not modelled.
- pandas is modelled as sequences of `Resort` records. A missing statistic (NaN) never passes a threshold and a missing state is None.
- Explore.ExploreMapMultiple: requires that its paging reaches a page that fails or says `hasMore` is false; the source loops forever otherwise. Resorts.ResortMapMultiple asks this only of the searches its loop reaches, those whose earlier searches all succeeded; a search after a failed one is never run.
- Dates.AddMonth: for a date in December 9999 the result has year 10000. Python raises ValueError (year 10000 is out of range) there; the model does not.
- Dates.IsoTimestamp: years are rendered with four zero-padded digits. Some C libraries print fewer digits for years below 1000.
- The fields of a home that the result copies through unchanged (title, bedrooms, bathrooms, guests, coordinates, pet fields) are carried as they are. Their `or` and `.get` defaults are applied as the source writes them, and no contract states them.

Behaviour of the code a reader might not expect, which the model follows:

- the region list and the resort-name list are applied one after the other, so the selection is their intersection;
- a merged home keeps the first-seen row's availability windows and fields; only the resort list and the minimum time are combined;
- homes with equal driving times keep first-seen order, because the sort is stable;
- a flexible search whose start is not before its end sends an empty list of date ranges.
