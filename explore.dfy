/**
 * One polygon search against the marketplace: the query variables of a page request
 * (explore_map_once) and the loop that requests pages until the upstream says there are
 * no more (explore_map_multiple), dropping pet-incompatible homes on the way.
 */
module Explore {
  import opened Common
  import opened Dates

  datatype Point = Point(lat: real, lon: real)

  /** The search polygon around a resort; its construction (trigonometry on floats) is not modelled. */
  type Polygon = seq<Point>

  /** One availability window of a home, both ends inclusive. */
  datatype Window = Window(startDate: Date, endDate: Date)

  /** The fields of a marketplace home that the backend reads; a missing field is None. */
  datatype Home = Home(
    id: Option<string>,
    title: Option<string>,
    destinationName: Option<string>,
    lat: Option<real>,
    lon: Option<real>,
    availabilities: seq<Window>,
    maxGuestsLimit: Option<int>,
    petPreference: Option<string>,
    petHostingDetails: Option<string>,
    bedroomsCount: Option<int>,
    bathrooms: Option<real>,
    thumbnails: seq<Option<string>>)

  /** One page of getHomesWithSearchCriteria: its homes and whether more pages follow. */
  datatype Page = Page(homes: seq<Home>, hasMore: bool)

  /** The flat record the backend keeps per home found (homeId is always a copy of id). */
  datatype Row = Row(
    id: Option<string>,
    title: Option<string>,
    destination: Option<string>,
    lat: Option<real>,
    lon: Option<real>,
    availabilities: seq<Window>,
    maxGuestsLimit: Option<int>,
    petPreference: Option<string>,
    petHostingDetails: Option<string>,
    bedroomsCount: Option<int>,
    bathrooms: Option<real>,
    imageUrl: Option<string>)

  /** The variables of one exploreList request that are the same for every page of a search. */
  datatype Criteria = Criteria(
    tripLengthsV2: seq<string>,
    minimumNights: Option<int>,
    dateRanges: seq<seq<string>>,
    includeCloseDates: bool,
    isFavoriteHomesOnly: bool,
    onboardingSort: bool,
    polygon: Polygon,
    matchTypes: seq<string>,
    minBedrooms: int,
    minBathrooms: int,
    minBeds: int,
    totalGuests: int,
    amenityFilters: seq<string>,
    bedTypeFilters: seq<string>,
    compositeFilters: seq<string>,
    petPreferences: seq<string>,
    width: int,
    avatarWidth: int)

  /** The variables of one exploreList request: the search criteria and the page asked for. */
  datatype QueryVars = QueryVars(criteria: Criteria, page: int, pageSize: int, sortedAt: string)

  /** What one resort's search is asked for. */
  datatype SearchParams = SearchParams(
    dates: DateRange,
    dateType: string,
    minNights: int,
    pageSize: int,
    totalGuests: int,
    petsAllowed: bool)

  /**
   * explore_map_once: the variables for one page. `now` is the timestamp the source reads
   * from the clock for sortedAt.
   */
  function ExploreMapOnce(polygon: Polygon, dateRanges: seq<seq<string>>, dateType: string, minNights: int,
                          page: int, pageSize: int, totalGuests: int, petsAllowed: bool, now: string): QueryVars
  {
    var tripType := if dateType == "exact" then "EXACT_DATES" else "MINIMUM_NIGHTS";
    var petPreferences := if petsAllowed then ["YES", "MAYBE"] else [];
    QueryVars(
      Criteria(
        [tripType],
        if dateType == "flexible" then Some(minNights) else None,
        dateRanges, false, false, false, polygon, ["SWAP", "AVAILABILITY"], 0, 0, 0, totalGuests,
        [], [], [], petPreferences, 720, 90),
      page, pageSize, now)
  }

  /**
   * The variables of one page: exact dates ask for EXACT_DATES and flexible ones for a
   * minimum number of nights; pets widen the accepted pet preferences to YES and MAYBE and
   * never admit NO; everything else is passed through.
   */
  lemma ExploreMapOnceFields(polygon: Polygon, dateRanges: seq<seq<string>>, dateType: string, minNights: int,
                             page: int, pageSize: int, totalGuests: int, petsAllowed: bool, now: string)
    ensures var v := ExploreMapOnce(polygon, dateRanges, dateType, minNights, page, pageSize, totalGuests, petsAllowed, now);
      && (v.criteria.tripLengthsV2 == ["EXACT_DATES"] <==> dateType == "exact")
      && (v.criteria.tripLengthsV2 == ["MINIMUM_NIGHTS"] <==> dateType != "exact")
      && (v.criteria.minimumNights == (if dateType == "flexible" then Some(minNights) else None))
      && (v.criteria.petPreferences == ["YES", "MAYBE"] <==> petsAllowed)
      && (v.criteria.petPreferences == [] <==> !petsAllowed)
      && ("NO" !in v.criteria.petPreferences)
      && (v.criteria.dateRanges == dateRanges && v.criteria.polygon == polygon && v.criteria.totalGuests == totalGuests)
      && (v.page == page && v.pageSize == pageSize && v.sortedAt == now)
  {
  }

  /** The date ranges explore_map_multiple sends: monthly chunks when flexible, else the single range. */
  function FormattedDateRanges(dates: DateRange, dateType: string): seq<seq<string>>
    requires ValidRange(dates)
  {
    if dateType == "flexible" then IsoRanges(MonthlyChunks(dates.start, dates.end))
    else [IsoDateRange(dates)]
  }

  /** The request for page `page` of one resort's search: every page shares one sortedAt. */
  function PageRequest(p: SearchParams, polygon: Polygon, sortedAt: string, page: int): QueryVars
    requires ValidRange(p.dates)
  {
    ExploreMapOnce(polygon, FormattedDateRanges(p.dates, p.dateType), p.dateType, p.minNights,
                   page, p.pageSize, p.totalGuests, p.petsAllowed, sortedAt)
  }

  /** Every page's request is the first page's request with another page number. */
  lemma PageRequestIsFirstWithPage(p: SearchParams, polygon: Polygon, sortedAt: string, page: int)
    requires ValidRange(p.dates)
    ensures PageRequest(p, polygon, sortedAt, page) == PageRequest(p, polygon, sortedAt, 0).(page := page)
    ensures PageRequest(p, polygon, sortedAt, page).page == page
    ensures PageRequest(p, polygon, sortedAt, page).sortedAt == sortedAt
  {
  }

  /** The requests for pages 0 .. n-1 of the search whose first request is `first`, in the order they are sent. */
  function PageRequests(first: QueryVars, n: nat): (rs: seq<QueryVars>)
    ensures |rs| == n
  {
    if n == 0 then [] else PageRequests(first, n - 1) + [first.(page := n - 1)]
  }

  /** Request i asks for page i and is otherwise the first request: same sortedAt, same search. */
  lemma {:induction false} PageRequestsNumbered(first: QueryVars, n: nat)
    ensures forall i :: 0 <= i < n ==> PageRequests(first, n)[i] == first.(page := i)
    ensures forall i :: 0 <= i < n ==> PageRequests(first, n)[i].page == i
    ensures forall i :: 0 <= i < n ==> PageRequests(first, n)[i].sortedAt == first.sortedAt
  {
    if n > 0 {
      PageRequestsNumbered(first, n - 1);
      forall i | 0 <= i < n - 1
        ensures PageRequests(first, n)[i] == first.(page := i)
      {
        assert PageRequests(first, n)[i] == PageRequests(first, n - 1)[i];
      }
    }
  }

  /** The upstream's answer to the request for page `page`. */
  function PageResponse(fetch: (string, QueryVars) -> Option<Page>, token: string, first: QueryVars, page: int): Option<Page> {
    fetch(token, first.(page := page))
  }

  /** A response after which the loop asks for no further page: a failure or hasMore false. */
  predicate Stops(response: Option<Page>) {
    response.None? || !response.value.hasMore
  }

  /** The upstream eventually ends the page sequence (otherwise the source loops forever). */
  ghost predicate PagingEnds(fetch: (string, QueryVars) -> Option<Page>, token: string, first: QueryVars) {
    exists k: nat :: Stops(PageResponse(fetch, token, first, k))
  }

  /** Pages 0 .. n-1 all answered with more pages to come. */
  ghost predicate ContinuesThrough(fetch: (string, QueryVars) -> Option<Page>, token: string, first: QueryVars, n: nat) {
    n == 0 || (ContinuesThrough(fetch, token, first, n - 1) && !Stops(PageResponse(fetch, token, first, n - 1)))
  }

  /** Pages 0 .. n-2 continue and page n-1 stops: the loop sends exactly n requests. */
  ghost predicate PagedUntil(fetch: (string, QueryVars) -> Option<Page>, token: string, first: QueryVars, n: nat) {
    n > 0 && ContinuesThrough(fetch, token, first, n - 1) && Stops(PageResponse(fetch, token, first, n - 1))
  }

  /** Every page before a continuing prefix's end continues. */
  lemma {:induction false} ContinuesThroughEach(fetch: (string, QueryVars) -> Option<Page>, token: string, first: QueryVars, n: nat, i: nat)
    requires ContinuesThrough(fetch, token, first, n)
    requires i < n
    ensures !Stops(PageResponse(fetch, token, first, i))
  {
    if i < n - 1 {
      ContinuesThroughEach(fetch, token, first, n - 1, i);
    }
  }

  /** There is only one page at which the loop can stop. */
  lemma PagedUntilUnique(fetch: (string, QueryVars) -> Option<Page>, token: string, first: QueryVars, n: nat, m: nat)
    requires PagedUntil(fetch, token, first, n) && PagedUntil(fetch, token, first, m)
    ensures n == m
  {
    if n < m {
      ContinuesThroughEach(fetch, token, first, m - 1, n - 1);
    } else if m < n {
      ContinuesThroughEach(fetch, token, first, n - 1, m - 1);
    }
  }

  /** A home survives the pets filter unless pets are wanted and either pet field says "NO". */
  predicate PetCompatible(h: Home, petsAllowed: bool) {
    !(petsAllowed && (h.petPreference == Some("NO") || h.petHostingDetails == Some("NO")))
  }

  /** The homes of a page that survive the pets filter, in page order. */
  function PetCompatibleHomes(homes: seq<Home>, petsAllowed: bool): seq<Home> {
    if homes == [] then []
    else (if PetCompatible(homes[0], petsAllowed) then [homes[0]] else []) + PetCompatibleHomes(homes[1..], petsAllowed)
  }

  /**
   * With pets wanted a home is dropped exactly when one of its pet fields is "NO"; without,
   * nothing is dropped; the survivors keep their order.
   */
  lemma {:induction false} PetFilterDropsExactlyRefusals(homes: seq<Home>, petsAllowed: bool)
    ensures forall h :: h in PetCompatibleHomes(homes, petsAllowed) <==>
      h in homes && (petsAllowed ==> h.petPreference != Some("NO") && h.petHostingDetails != Some("NO"))
    ensures IsSubseq(PetCompatibleHomes(homes, petsAllowed), homes)
    ensures !petsAllowed ==> PetCompatibleHomes(homes, petsAllowed) == homes
  {
    if homes != [] {
      PetFilterDropsExactlyRefusals(homes[1..], petsAllowed);
      var r := PetCompatibleHomes(homes, petsAllowed);
      var rest := PetCompatibleHomes(homes[1..], petsAllowed);
      assert homes == [homes[0]] + homes[1..];
      if PetCompatible(homes[0], petsAllowed) {
        assert r[0] == homes[0] && r[1..] == rest;
      } else if r != [] {
        assert r == rest;
        assert r[0] in rest;
        assert r[0] != homes[0];
      }
    }
  }

  /** The record the loop appends for a kept home; imageUrl is the first media item's thumbnail. */
  function ToRow(h: Home): Row {
    Row(h.id, h.title, h.destinationName, h.lat, h.lon, h.availabilities, h.maxGuestsLimit,
        h.petPreference, h.petHostingDetails, h.bedroomsCount, h.bathrooms,
        if |h.thumbnails| > 0 then h.thumbnails[0] else None)
  }

  function RowsOf(homes: seq<Home>): seq<Row> {
    if homes == [] then [] else [ToRow(homes[0])] + RowsOf(homes[1..])
  }

  /** What one page contributes to the result. */
  function PageRows(response: Option<Page>, petsAllowed: bool): seq<Row> {
    match response
    case None => []
    case Some(pg) => RowsOf(PetCompatibleHomes(pg.homes, petsAllowed))
  }

  /** The kept rows of pages 0 .. n-1, page after page. */
  function PagedRows(fetch: (string, QueryVars) -> Option<Page>, token: string, first: QueryVars,
                     petsAllowed: bool, n: nat): seq<Row>
  {
    if n == 0 then []
    else PagedRows(fetch, token, first, petsAllowed, n - 1)
         + PageRows(PageResponse(fetch, token, first, n - 1), petsAllowed)
  }

  /** Up to any page, either every page so far continued or the loop has already stopped. */
  lemma {:induction false} ContinuesOrStopped(fetch: (string, QueryVars) -> Option<Page>, token: string, first: QueryVars, m: nat)
    ensures ContinuesThrough(fetch, token, first, m) || exists n: nat :: n <= m && PagedUntil(fetch, token, first, n)
  {
    if m > 0 {
      ContinuesOrStopped(fetch, token, first, m - 1);
      if ContinuesThrough(fetch, token, first, m - 1) && Stops(PageResponse(fetch, token, first, m - 1)) {
        assert PagedUntil(fetch, token, first, m);
      }
    }
  }

  /** When some page stops the loop, a first such page exists. */
  lemma PagingEndsHasEnd(fetch: (string, QueryVars) -> Option<Page>, token: string, first: QueryVars)
    requires PagingEnds(fetch, token, first)
    ensures exists n: nat :: PagedUntil(fetch, token, first, n)
  {
    var k: nat :| Stops(PageResponse(fetch, token, first, k));
    ContinuesOrStopped(fetch, token, first, k);
    if ContinuesThrough(fetch, token, first, k) {
      assert PagedUntil(fetch, token, first, k + 1);
    }
  }

  /** The number of requests the loop sends. */
  ghost function PageCount(fetch: (string, QueryVars) -> Option<Page>, token: string, first: QueryVars): (n: nat)
    requires PagingEnds(fetch, token, first)
    ensures PagedUntil(fetch, token, first, n)
  {
    PagingEndsHasEnd(fetch, token, first);
    var n: nat :| PagedUntil(fetch, token, first, n);
    n
  }

  /**
   * What a whole search of one resort yields: None when its last request failed, else the
   * kept rows of all its pages.
   */
  ghost function SearchOutcome(fetch: (string, QueryVars) -> Option<Page>, token: string, first: QueryVars,
                               petsAllowed: bool): Option<seq<Row>>
    requires PagingEnds(fetch, token, first)
  {
    var n := PageCount(fetch, token, first);
    if PageResponse(fetch, token, first, n - 1).None? then None
    else Some(PagedRows(fetch, token, first, petsAllowed, n))
  }

  /** Rows are made home by home, so the rows of two runs of homes are the two runs of rows. */
  lemma {:induction false} RowsOfAppend(a: seq<Home>, b: seq<Home>)
    ensures RowsOf(a + b) == RowsOf(a) + RowsOf(b)
  {
    if a != [] {
      assert (a + b)[1..] == a[1..] + b;
      RowsOfAppend(a[1..], b);
    } else {
      assert a + b == b;
    }
  }

  /** Peeling home `j` off the rows of the pet-compatible homes from `j` on. */
  lemma KeptRowsStep(homes: seq<Home>, j: int, petsAllowed: bool)
    requires 0 <= j < |homes|
    ensures RowsOf(PetCompatibleHomes(homes[j..], petsAllowed))
      == (if PetCompatible(homes[j], petsAllowed) then [ToRow(homes[j])] else []) + RowsOf(PetCompatibleHomes(homes[j + 1..], petsAllowed))
  {
    var hs := homes[j..];
    assert hs[0] == homes[j] && hs[1..] == homes[j + 1..];
    var rest := PetCompatibleHomes(hs[1..], petsAllowed);
    if PetCompatible(hs[0], petsAllowed) {
      RowsOfAppend([hs[0]], rest);
      assert RowsOf([hs[0]]) == [ToRow(hs[0])];
    } else {
      assert PetCompatibleHomes(hs, petsAllowed) == rest;
    }
  }

  /** The rows the homes from index j on contribute. */
  function KeptFrom(homes: seq<Home>, j: nat, petsAllowed: bool): seq<Row>
    requires j <= |homes|
    decreases |homes| - j
  {
    if j == |homes| then []
    else (if PetCompatible(homes[j], petsAllowed) then [ToRow(homes[j])] else []) + KeptFrom(homes, j + 1, petsAllowed)
  }

  lemma {:induction false} KeptFromSuffix(homes: seq<Home>, j: nat, petsAllowed: bool)
    requires j <= |homes|
    ensures KeptFrom(homes, j, petsAllowed) == RowsOf(PetCompatibleHomes(homes[j..], petsAllowed))
    decreases |homes| - j
  {
    if j < |homes| {
      KeptFromSuffix(homes, j + 1, petsAllowed);
      KeptRowsStep(homes, j, petsAllowed);
    } else {
      assert homes[j..] == [];
    }
  }

  /** The body of the `for rec in homeRecs` loop over one page: the rows of the pet-compatible homes. */
  method KeepPetCompatible(homes: seq<Home>, petsAllowed: bool) returns (kept: seq<Row>)
    ensures kept == RowsOf(PetCompatibleHomes(homes, petsAllowed))
  {
    kept := [];
    for j := 0 to |homes|
      invariant kept + KeptFrom(homes, j, petsAllowed) == KeptFrom(homes, 0, petsAllowed)
    {
      if !PetCompatible(homes[j], petsAllowed) {
        continue;
      }
      ghost var rest := KeptFrom(homes, j + 1, petsAllowed);
      assert kept + ([ToRow(homes[j])] + rest) == (kept + [ToRow(homes[j])]) + rest;
      kept := kept + [ToRow(homes[j])];
    }
    KeptFromSuffix(homes, 0, petsAllowed);
    assert homes[0..] == homes;
  }

  /** Overwriting the clock's timestamp with a fixed sortedAt gives the first page's query with another page number. */
  lemma SortedAtOverride(polygon: Polygon, dateRanges: seq<seq<string>>, dateType: string, minNights: int,
                         page: int, pageSize: int, totalGuests: int, petsAllowed: bool, now: string, sortedAt: string)
    ensures ExploreMapOnce(polygon, dateRanges, dateType, minNights, page, pageSize, totalGuests, petsAllowed, now).(sortedAt := sortedAt)
         == ExploreMapOnce(polygon, dateRanges, dateType, minNights, 0, pageSize, totalGuests, petsAllowed, sortedAt).(page := page)
  {
  }

  /** The date ranges sent with every page: monthly chunks for a flexible search, the one range otherwise. */
  method FormatDateRanges(dates: DateRange, dateType: string) returns (formatted: seq<seq<string>>)
    requires ValidRange(dates)
    ensures formatted == FormattedDateRanges(dates, dateType)
  {
    if dateType == "flexible" {
      formatted := MakeMonthlyDateRanges(dates.start, dates.end);
    } else {
      formatted := [IsoDateRange(dates)];
    }
  }

  /** The request for page 0 of a search whose date ranges are already formatted. */
  function FirstRequest(p: SearchParams, polygon: Polygon, formatted: seq<seq<string>>, sortedAt: string): QueryVars {
    ExploreMapOnce(polygon, formatted, p.dateType, p.minNights, 0, p.pageSize, p.totalGuests, p.petsAllowed, sortedAt)
  }

  /** The variables of one page as the loop builds them: explore_map_once, then sortedAt overwritten. */
  method PageQuery(p: SearchParams, polygon: Polygon, formatted: seq<seq<string>>, sortedAt: string,
                   clock: int -> string, page: int) returns (vars: QueryVars)
    ensures vars == FirstRequest(p, polygon, formatted, sortedAt).(page := page)
  {
    vars := ExploreMapOnce(polygon, formatted, p.dateType, p.minNights, page, p.pageSize,
                           p.totalGuests, p.petsAllowed, clock(page));
    SortedAtOverride(polygon, formatted, p.dateType, p.minNights, page, p.pageSize,
                     p.totalGuests, p.petsAllowed, clock(page), sortedAt);
    vars := vars.(sortedAt := sortedAt);
  }

  /**
   * One pass of the `while True` loop: build the page's variables, send the request and
   * keep the pet-compatible homes of the answer.
   */
  method FetchPage(p: SearchParams, polygon: Polygon, formatted: seq<seq<string>>, token: string,
                   fetch: (string, QueryVars) -> Option<Page>, sortedAt: string, clock: int -> string, page: nat)
    returns (response: Option<Page>, vars: QueryVars, kept: seq<Row>)
    ensures vars == FirstRequest(p, polygon, formatted, sortedAt).(page := page)
    ensures response == PageResponse(fetch, token, FirstRequest(p, polygon, formatted, sortedAt), page)
    ensures kept == PageRows(response, p.petsAllowed)
  {
    vars := PageQuery(p, polygon, formatted, sortedAt, clock, page);
    response := fetch(token, vars);
    if response.None? {
      kept := [];
    } else {
      kept := KeepPetCompatible(response.value.homes, p.petsAllowed);
    }
  }

  /** The loop's state after `page` pages that all said more pages follow. */
  ghost predicate PagedSoFar(fetch: (string, QueryVars) -> Option<Page>, token: string, first: QueryVars,
                             petsAllowed: bool, page: nat, requests: seq<QueryVars>, allRows: seq<Row>) {
    && requests == PageRequests(first, page)
    && ContinuesThrough(fetch, token, first, page)
    && allRows == PagedRows(fetch, token, first, petsAllowed, page)
  }

  /** One more page: the loop goes on after a continuing page and has sent exactly its requests after a stopping one. */
  lemma PageStep(fetch: (string, QueryVars) -> Option<Page>, token: string, first: QueryVars, petsAllowed: bool,
                 page: nat, requests: seq<QueryVars>, allRows: seq<Row>,
                 response: Option<Page>, vars: QueryVars, kept: seq<Row>)
    requires PagedSoFar(fetch, token, first, petsAllowed, page, requests, allRows)
    requires vars == first.(page := page) && response == PageResponse(fetch, token, first, page)
    requires kept == PageRows(response, petsAllowed)
    ensures !Stops(response) ==> PagedSoFar(fetch, token, first, petsAllowed, page + 1, requests + [vars], allRows + kept)
    ensures Stops(response) ==>
      && PagedUntil(fetch, token, first, page + 1)
      && requests + [vars] == PageRequests(first, page + 1)
      && allRows + kept == PagedRows(fetch, token, first, petsAllowed, page + 1)
  {
  }

  /**
   * The `while True` loop of explore_map_multiple: request pages 0, 1, ... with one sortedAt
   * until a page says hasMore is false, keeping the pet-compatible homes of every page in
   * order. A failed request (None) aborts the search, as the exception does in the source.
   * Every request differs from the first one only in its page number.
   */
  method RequestPages(p: SearchParams, polygon: Polygon, formatted: seq<seq<string>>, token: string,
                      fetch: (string, QueryVars) -> Option<Page>, sortedAt: string, clock: int -> string)
    returns (rows: Option<seq<Row>>, requests: seq<QueryVars>)
    requires PagingEnds(fetch, token, FirstRequest(p, polygon, formatted, sortedAt))
    ensures PagedUntil(fetch, token, FirstRequest(p, polygon, formatted, sortedAt), |requests|)
    ensures requests == PageRequests(FirstRequest(p, polygon, formatted, sortedAt), |requests|)
    ensures rows.None? <==> PageResponse(fetch, token, FirstRequest(p, polygon, formatted, sortedAt), |requests| - 1).None?
    ensures rows.Some? ==> rows.value == PagedRows(fetch, token, FirstRequest(p, polygon, formatted, sortedAt), p.petsAllowed, |requests|)
  {
    ghost var first := FirstRequest(p, polygon, formatted, sortedAt);
    ghost var last: nat :| Stops(PageResponse(fetch, token, first, last));
    var allRows: seq<Row> := [];
    var page := 0;
    requests := [];
    while true
      invariant page <= last
      invariant PagedSoFar(fetch, token, first, p.petsAllowed, page, requests, allRows)
      decreases last - page
    {
      var response, vars, kept := FetchPage(p, polygon, formatted, token, fetch, sortedAt, clock, page);
      PageStep(fetch, token, first, p.petsAllowed, page, requests, allRows, response, vars, kept);
      requests := requests + [vars];
      allRows := allRows + kept;
      if Stops(response) {
        rows := if response.None? then None else Some(allRows);
        return;
      }
      assert page != last;
      page := page + 1;
    }
  }

  /** A run of pages that stops at page n-1 is the whole search: n pages, and its outcome. */
  lemma PagedRunIsOutcome(fetch: (string, QueryVars) -> Option<Page>, token: string, first: QueryVars, petsAllowed: bool,
                          n: nat, rows: Option<seq<Row>>)
    requires PagingEnds(fetch, token, first)
    requires PagedUntil(fetch, token, first, n)
    requires rows.None? <==> PageResponse(fetch, token, first, n - 1).None?
    requires rows.Some? ==> rows.value == PagedRows(fetch, token, first, petsAllowed, n)
    ensures n == PageCount(fetch, token, first)
    ensures rows == SearchOutcome(fetch, token, first, petsAllowed)
  {
    PagedUntilUnique(fetch, token, first, n, PageCount(fetch, token, first));
  }

  /**
   * explore_map_multiple: format the date ranges once, then page through the results of
   * the search that starts with the page-0 request.
   */
  method ExploreMapMultiple(p: SearchParams, polygon: Polygon, token: string,
                            fetch: (string, QueryVars) -> Option<Page>, sortedAt: string, clock: int -> string)
    returns (rows: Option<seq<Row>>, requests: seq<QueryVars>)
    requires ValidRange(p.dates)
    requires PagingEnds(fetch, token, PageRequest(p, polygon, sortedAt, 0))
    ensures requests == PageRequests(PageRequest(p, polygon, sortedAt, 0), PageCount(fetch, token, PageRequest(p, polygon, sortedAt, 0)))
    ensures rows == SearchOutcome(fetch, token, PageRequest(p, polygon, sortedAt, 0), p.petsAllowed)
  {
    var formatted := FormatDateRanges(p.dates, p.dateType);
    ghost var first := PageRequest(p, polygon, sortedAt, 0);
    assert first == FirstRequest(p, polygon, formatted, sortedAt);
    rows, requests := RequestPages(p, polygon, formatted, token, fetch, sortedAt, clock);
    PagedRunIsOutcome(fetch, token, first, p.petsAllowed, |requests|, rows);
  }
}
