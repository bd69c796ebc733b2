/**
 * The `/api/search` endpoint: the bearer token of the request, the required dates, the
 * resort selection, the search around every selected resort and the availability filter,
 * answered in the order the handler checks them.
 */
module Search {
  import opened Common
  import opened Dates
  import opened Catalog
  import opened Explore
  import opened Merge
  import opened Sorting
  import opened Resorts
  import opened Availability

  const BearerPrefix: string := "Bearer "

  /**
   * _get_token_from_request: the rest of the Authorization header after "Bearer ", or None
   * when the header is absent or has another scheme. The token found is exactly what
   * follows the prefix.
   */
  function ExtractBearerToken(header: Option<string>): (token: Option<string>)
    ensures token.Some? <==> header.Some? && |header.value| >= 7 && header.value[..7] == BearerPrefix
    ensures token.Some? ==> header == Some(BearerPrefix + token.value)
  {
    var h := if header.Some? then header.value else "";
    if |h| >= 7 && h[..7] == BearerPrefix then
      assert h == h[..7] + h[7..];
      Some(h[7..])
    else None
  }

  /**
   * The authorization header _build_headers sends upstream: the caller's token, or the
   * stored access token (`stored`) when the caller gives none.
   */
  function AuthorizationValue(token: string, stored: string): string {
    BearerPrefix + (if token != "" then token else stored)
  }

  /** The token the backend forwards upstream is the token a client sending that header would be read as. */
  lemma BearerRoundTrip(token: string, stored: string)
    ensures ExtractBearerToken(Some(AuthorizationValue(token, stored))) == Some(if token != "" then token else stored)
  {
    var h := AuthorizationValue(token, stored);
    assert h[..7] == BearerPrefix;
    assert h[7..] == (if token != "" then token else stored);
  }

  /** `if not token`: a missing header, another scheme and an empty token are all refused. */
  predicate HasToken(header: Option<string>) {
    var token := ExtractBearerToken(header);
    token.Some? && token.value != ""
  }

  /** The JSON body of a search request; a field the client leaves out is None, and so is a falsy date. */
  datatype RequestBody = RequestBody(
    startDate: Option<Date>,
    endDate: Option<Date>,
    regions: Option<seq<string>>,
    resorts: Option<seq<string>>,
    mileRange: Option<int>,
    dateType: Option<string>,
    minNights: Option<int>,
    minSkiableAcres: Option<int>,
    minVerticalDrop: Option<int>,
    minAnnualSnowfall: Option<int>,
    numberOfPeople: Option<int>,
    petsAllowed: Option<bool>)

  /** `data.get(key, default)`. */
  function GetOr<T>(x: Option<T>, default: T): T {
    if x.Some? then x.value else default
  }

  const DefaultMileRange := 35
  const DefaultDateType := "flexible"
  /** The page size `search` asks resort_map_multiple for. */
  const SearchPageSize := 50

  /** The selection part of the body. */
  function FilterOf(body: RequestBody): ResortFilter {
    ResortFilter(GetOr(body.regions, []), GetOr(body.resorts, []),
                 body.minSkiableAcres, body.minVerticalDrop, body.minAnnualSnowfall)
  }

  predicate HasDates(body: RequestBody) {
    body.startDate.Some? && body.endDate.Some?
  }

  /** The searched dates. */
  function SearchDates(body: RequestBody): DateRange
    requires HasDates(body)
  {
    DateRange(body.startDate.value, body.endDate.value)
  }

  /** The search parameters passed to resort_map_multiple. */
  function ParamsOf(body: RequestBody): (p: SearchParams)
    requires HasDates(body)
    ensures p.dates.start == body.startDate.value && p.dates.end == body.endDate.value
    ensures p.pageSize == SearchPageSize
    ensures body.dateType.Some? ==> p.dateType == body.dateType.value
    ensures body.dateType.None? ==> p.dateType == DefaultDateType
    ensures body.minNights.Some? ==> p.minNights == body.minNights.value
    ensures body.minNights.None? ==> p.minNights == 0
    ensures body.numberOfPeople.Some? ==> p.totalGuests == body.numberOfPeople.value
    ensures body.numberOfPeople.None? ==> p.totalGuests == 0
    ensures body.petsAllowed.Some? ==> p.petsAllowed == body.petsAllowed.value
    ensures body.petsAllowed.None? ==> !p.petsAllowed
  {
    SearchParams(SearchDates(body), GetOr(body.dateType, DefaultDateType), GetOr(body.minNights, 0),
                 SearchPageSize, GetOr(body.numberOfPeople, 0), GetOr(body.petsAllowed, false))
  }

  /** The response: an error with its HTTP status, or the `results` list. */
  datatype SearchResponse = AuthenticationRequired | DatesRequired | ServerError | Results(listings: seq<Listing>)

  /** The HTTP status code `search` answers with. */
  function Status(r: SearchResponse): int {
    match r
    case AuthenticationRequired => 401
    case DatesRequired => 400
    case ServerError => 500
    case Results(_) => 200
  }

  /**
   * When the request gets as far as searching, every resort's search the loop reaches comes
   * to an end (a page without more results, or a failed request).
   */
  ghost predicate SearchesEnd(header: Option<string>, body: RequestBody, catalog: seq<Resort>, up: Upstream) {
    HasToken(header) && HasDates(body) && ValidRange(SearchDates(body)) ==>
      EverySearchEnds(ParamsOf(body), Admitted(catalog, FilterOf(body)), GetOr(body.mileRange, DefaultMileRange),
                      ExtractBearerToken(header).value, up)
  }

  /** The homes resort_map_multiple returns for the request, or None when it raises. */
  ghost function RankedResult(header: Option<string>, body: RequestBody, catalog: seq<Resort>, up: Upstream)
    : Option<seq<MergedHome>>
    requires HasToken(header) && HasDates(body) && ValidRange(SearchDates(body))
  {
    ResortMapResult(ParamsOf(body), Admitted(catalog, FilterOf(body)), GetOr(body.mileRange, DefaultMileRange),
                    ExtractBearerToken(header).value, up)
  }

  /**
   * The search handler. A missing or empty bearer token is refused first (401), then
   * missing dates (400); an empty selection answers no results without any request; an
   * unparseable date or a failed upstream request is a server error (500); otherwise the
   * results are the ranked homes with a window overlapping the dates, each with only its
   * overlapping windows.
   */
  method HandleSearch(header: Option<string>, body: RequestBody, catalog: seq<Resort>, up: Upstream)
    returns (response: SearchResponse)
    requires SearchesEnd(header, body, catalog, up)
    ensures response.AuthenticationRequired? <==> !HasToken(header)
    ensures response.DatesRequired? <==> HasToken(header) && !HasDates(body)
    ensures Status(response) == 200 ==> HasToken(header) && HasDates(body)
    ensures HasToken(header) && HasDates(body) && Admitted(catalog, FilterOf(body)) == [] ==> response == Results([])
    ensures HasToken(header) && HasDates(body) && Admitted(catalog, FilterOf(body)) != [] ==>
      (response.ServerError? <==>
        !ValidRange(SearchDates(body)) || RankedResult(header, body, catalog, up).None?)
    ensures response.Results? && Admitted(catalog, FilterOf(body)) != [] ==>
      && ValidRange(SearchDates(body))
      && RankedResult(header, body, catalog, up).Some?
      && response.listings == Listings(RankedResult(header, body, catalog, up).value,
                                       body.startDate.value, body.endDate.value)
    ensures response.Results? ==> forall l :: l in response.listings ==>
      && l.availabilities != []
      && forall w :: w in l.availabilities ==> Overlaps(w, body.startDate.value, body.endDate.value)
  {
    var token := ExtractBearerToken(header);
    if token.None? || token.value == "" {
      return AuthenticationRequired;
    }
    if body.startDate.None? || body.endDate.None? {
      return DatesRequired;
    }
    var selected := SelectResorts(catalog, FilterOf(body));
    if selected == [] {
      return Results([]);
    }
    var dates := DateRange(body.startDate.value, body.endDate.value);
    if !ValidRange(dates) {
      // strptime raises on a date that does not exist.
      return ServerError;
    }
    var p := ParamsOf(body);
    var homes := ResortMapMultiple(p, selected, GetOr(body.mileRange, DefaultMileRange), token.value, up);
    if homes.None? {
      return ServerError;
    }
    var listings := FilterByAvailability(homes.value, dates.start, dates.end);
    ListingsOverlap(homes.value, dates.start, dates.end);
    response := Results(listings);
  }

  /** Every listed window overlaps the searched dates, and every listing has one. */
  lemma ListingsOverlap(homes: seq<MergedHome>, searchStart: Date, searchEnd: Date)
    ensures forall l :: l in Listings(homes, searchStart, searchEnd) ==>
      && l.availabilities != []
      && forall w :: w in l.availabilities ==> Overlaps(w, searchStart, searchEnd)
  {
    var avail := AvailableHomes(homes, searchStart, searchEnd);
    var ls := Listings(homes, searchStart, searchEnd);
    ListingsOfAvailableHomes(homes, searchStart, searchEnd);
    forall l | l in ls
      ensures l.availabilities != [] && forall w :: w in l.availabilities ==> Overlaps(w, searchStart, searchEnd)
    {
      var k :| 0 <= k < |ls| && ls[k] == l;
      MatchingWindowsExactly(avail[k].home.row.availabilities, searchStart, searchEnd);
    }
  }
}
