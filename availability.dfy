/**
 * The last step of `search`: every ranked home keeps only the availability windows that
 * overlap the searched dates, a home without any such window is dropped, and each
 * remaining home is formatted for the frontend.
 */
module Availability {
  import opened Common
  import opened Dates
  import opened Explore
  import opened Merge

  /** Both ends inclusive: the window starts no later than the search ends and ends no earlier than it starts. */
  predicate Overlaps(w: Window, searchStart: Date, searchEnd: Date) {
    NotAfter(w.startDate, searchEnd) && NotAfter(searchStart, w.endDate)
  }

  /** Both inclusive date intervals contain a common day. */
  ghost predicate ShareADay(w: Window, searchStart: Date, searchEnd: Date) {
    exists d :: NotAfter(w.startDate, d) && NotAfter(d, w.endDate) && NotAfter(searchStart, d) && NotAfter(d, searchEnd)
  }

  /**
   * For well-formed intervals the endpoint test is the intersection of the two
   * intervals: the later start lies in both exactly when they overlap.
   */
  lemma OverlapsIffShareADay(w: Window, searchStart: Date, searchEnd: Date)
    requires NotAfter(w.startDate, w.endDate) && NotAfter(searchStart, searchEnd)
    ensures Overlaps(w, searchStart, searchEnd) <==> ShareADay(w, searchStart, searchEnd)
  {
    if Overlaps(w, searchStart, searchEnd) {
      var d := if Before(w.startDate, searchStart) then searchStart else w.startDate;
      assert NotAfter(w.startDate, d) && NotAfter(d, w.endDate) && NotAfter(searchStart, d) && NotAfter(d, searchEnd);
    }
  }

  /** The `matching_availabilities` list: the overlapping windows, in their original order. */
  function MatchingWindows(ws: seq<Window>, searchStart: Date, searchEnd: Date): seq<Window> {
    if ws == [] then []
    else (if Overlaps(ws[0], searchStart, searchEnd) then [ws[0]] else []) + MatchingWindows(ws[1..], searchStart, searchEnd)
  }

  /** A window is kept exactly when it overlaps the searched dates, and the kept ones keep their order. */
  lemma {:induction false} MatchingWindowsExactly(ws: seq<Window>, searchStart: Date, searchEnd: Date)
    ensures forall w :: w in MatchingWindows(ws, searchStart, searchEnd) <==> w in ws && Overlaps(w, searchStart, searchEnd)
    ensures IsSubseq(MatchingWindows(ws, searchStart, searchEnd), ws)
  {
    if ws != [] {
      MatchingWindowsExactly(ws[1..], searchStart, searchEnd);
      var r := MatchingWindows(ws, searchStart, searchEnd);
      var rest := MatchingWindows(ws[1..], searchStart, searchEnd);
      assert ws == [ws[0]] + ws[1..];
      if Overlaps(ws[0], searchStart, searchEnd) {
        assert r[0] == ws[0] && r[1..] == rest;
      } else if r != [] {
        assert r == rest;
        assert r[0] in rest;
        assert r[0] != ws[0];
      }
    }
  }

  lemma MatchingWindowsStep(ws: seq<Window>, j: int, searchStart: Date, searchEnd: Date)
    requires 0 <= j < |ws|
    ensures MatchingWindows(ws[j..], searchStart, searchEnd)
      == (if Overlaps(ws[j], searchStart, searchEnd) then [ws[j]] else []) + MatchingWindows(ws[j + 1..], searchStart, searchEnd)
  {
    assert ws[j..][0] == ws[j] && ws[j..][1..] == ws[j + 1..];
  }

  /** The windows from index j on that overlap the searched dates. */
  function MatchingFrom(ws: seq<Window>, j: nat, searchStart: Date, searchEnd: Date): seq<Window>
    requires j <= |ws|
    decreases |ws| - j
  {
    if j == |ws| then []
    else (if Overlaps(ws[j], searchStart, searchEnd) then [ws[j]] else []) + MatchingFrom(ws, j + 1, searchStart, searchEnd)
  }

  lemma {:induction false} MatchingFromSuffix(ws: seq<Window>, j: nat, searchStart: Date, searchEnd: Date)
    requires j <= |ws|
    ensures MatchingFrom(ws, j, searchStart, searchEnd) == MatchingWindows(ws[j..], searchStart, searchEnd)
    decreases |ws| - j
  {
    if j < |ws| {
      MatchingFromSuffix(ws, j + 1, searchStart, searchEnd);
      MatchingWindowsStep(ws, j, searchStart, searchEnd);
    } else {
      assert ws[j..] == [];
    }
  }

  /** The inner `for avail in availabilities` loop. */
  method MatchAvailabilities(ws: seq<Window>, searchStart: Date, searchEnd: Date) returns (matching: seq<Window>)
    ensures matching == MatchingWindows(ws, searchStart, searchEnd)
  {
    matching := [];
    for j := 0 to |ws|
      invariant matching + MatchingFrom(ws, j, searchStart, searchEnd) == MatchingFrom(ws, 0, searchStart, searchEnd)
    {
      var avail := ws[j];
      if NotAfter(avail.startDate, searchEnd) && NotAfter(searchStart, avail.endDate) {
        ghost var rest := MatchingFrom(ws, j + 1, searchStart, searchEnd);
        assert matching + ([avail] + rest) == (matching + [avail]) + rest;
        matching := matching + [avail];
      }
    }
    MatchingFromSuffix(ws, 0, searchStart, searchEnd);
    assert ws[0..] == ws;
  }

  /** The `resorts` field of a result: the home's resorts list, or the single-resort fallback when that list is empty. */
  datatype ResortsField = Entries(entries: seq<ResortEntry>) | Fallback(resort: string, drivingTime: Option<int>)

  /** One element of the `results` array sent to the frontend (the "distance" text is not modelled). */
  datatype Listing = Listing(
    id: Option<string>,
    name: Option<string>,
    resort: string,
    resorts: ResortsField,
    driveTime: Option<int>,
    bedrooms: Option<int>,
    bathrooms: Option<real>,
    maxGuests: Option<int>,
    imageUrl: string,
    lat: Option<real>,
    lng: Option<real>,
    availabilities: seq<Window>,
    petPreference: Option<string>,
    petHostingDetails: Option<string>,
    homeUrl: string)

  const DefaultImageUrl: string := "https://images.unsplash.com/photo-1518780664697-55e3ad937233?w=800&q=80"
  const HomeUrlPrefix: string := "https://livekindred.com/home/"

  /** Python's text of an optional id in an f-string: the id itself, or "None". */
  function IdText(id: Option<string>): string {
    if id.Some? then id.value else "None"
  }

  /** The result entry of a home and its matching windows. */
  function Format(h: MergedHome, matching: seq<Window>): (l: Listing)
    ensures l.availabilities == matching
    ensures l.id == h.home.row.id && l.homeUrl == HomeUrlPrefix + IdText(h.home.row.id)
    ensures h.resorts != [] ==> l.resorts == Entries(h.resorts)
    ensures l.imageUrl != ""
  {
    var row := h.home.row;
    Listing(
      row.id, row.title, h.home.resort,
      if h.resorts != [] then Entries(h.resorts) else Fallback(h.home.resort, h.home.drivingTime),
      h.home.drivingTime, row.bedroomsCount, row.bathrooms, row.maxGuestsLimit,
      if row.imageUrl.Some? && row.imageUrl.value != "" then row.imageUrl.value else DefaultImageUrl,
      row.lat, row.lon, matching, row.petPreference, row.petHostingDetails,
      HomeUrlPrefix + IdText(row.id))
  }

  /** A home's windows that overlap the searched dates. */
  function Matching(h: MergedHome, searchStart: Date, searchEnd: Date): seq<Window> {
    MatchingWindows(h.home.row.availabilities, searchStart, searchEnd)
  }

  /** The homes that have at least one matching window, in ranking order. */
  function AvailableHomes(homes: seq<MergedHome>, searchStart: Date, searchEnd: Date): seq<MergedHome> {
    if homes == [] then []
    else
      (if Matching(homes[0], searchStart, searchEnd) != [] then [homes[0]] else [])
      + AvailableHomes(homes[1..], searchStart, searchEnd)
  }

  /** Each home formatted with its matching windows. */
  function FormatAll(homes: seq<MergedHome>, searchStart: Date, searchEnd: Date): seq<Listing> {
    if homes == [] then []
    else [Format(homes[0], Matching(homes[0], searchStart, searchEnd))] + FormatAll(homes[1..], searchStart, searchEnd)
  }

  /** The `formatted_results` list. */
  function Listings(homes: seq<MergedHome>, searchStart: Date, searchEnd: Date): seq<Listing> {
    FormatAll(AvailableHomes(homes, searchStart, searchEnd), searchStart, searchEnd)
  }

  /** A home is listed exactly when one of its windows overlaps the searched dates; the listed homes keep the ranking order. */
  lemma {:induction false} AvailableHomesExactly(homes: seq<MergedHome>, searchStart: Date, searchEnd: Date)
    ensures forall h :: h in AvailableHomes(homes, searchStart, searchEnd) <==>
      h in homes && exists w :: w in h.home.row.availabilities && Overlaps(w, searchStart, searchEnd)
    ensures IsSubseq(AvailableHomes(homes, searchStart, searchEnd), homes)
  {
    if homes != [] {
      AvailableHomesExactly(homes[1..], searchStart, searchEnd);
      MatchingWindowsExactly(homes[0].home.row.availabilities, searchStart, searchEnd);
      var r := AvailableHomes(homes, searchStart, searchEnd);
      var rest := AvailableHomes(homes[1..], searchStart, searchEnd);
      assert homes == [homes[0]] + homes[1..];
      var m := Matching(homes[0], searchStart, searchEnd);
      if m != [] {
        assert m[0] in m;
        assert r[0] == homes[0] && r[1..] == rest;
      } else {
        if r != [] {
          assert r == rest;
          assert r[0] in rest;
          assert r[0] != homes[0];
        }
      }
    }
  }

  /** Listing k is the k-th available home formatted with its matching windows. */
  lemma {:induction false} FormatAllElementwise(homes: seq<MergedHome>, searchStart: Date, searchEnd: Date)
    ensures |FormatAll(homes, searchStart, searchEnd)| == |homes|
    ensures forall k :: 0 <= k < |homes| ==>
      FormatAll(homes, searchStart, searchEnd)[k] == Format(homes[k], Matching(homes[k], searchStart, searchEnd))
  {
    if homes != [] {
      FormatAllElementwise(homes[1..], searchStart, searchEnd);
    }
  }

  /**
   * The result list: one entry per home with a matching window, in ranking order, carrying
   * the home's id and exactly its overlapping windows (never none).
   */
  lemma ListingsOfAvailableHomes(homes: seq<MergedHome>, searchStart: Date, searchEnd: Date)
    ensures var avail := AvailableHomes(homes, searchStart, searchEnd);
      && |Listings(homes, searchStart, searchEnd)| == |avail|
      && forall k :: 0 <= k < |avail| ==>
        var l := Listings(homes, searchStart, searchEnd)[k];
        && l.id == avail[k].home.row.id
        && l.availabilities == Matching(avail[k], searchStart, searchEnd)
        && l.availabilities != []
  {
    var avail := AvailableHomes(homes, searchStart, searchEnd);
    FormatAllElementwise(avail, searchStart, searchEnd);
    AvailableHomesExactly(homes, searchStart, searchEnd);
    forall k | 0 <= k < |avail|
      ensures Matching(avail[k], searchStart, searchEnd) != []
    {
      assert avail[k] in avail;
      var w :| w in avail[k].home.row.availabilities && Overlaps(w, searchStart, searchEnd);
      MatchingWindowsExactly(avail[k].home.row.availabilities, searchStart, searchEnd);
      assert w in Matching(avail[k], searchStart, searchEnd);
    }
  }

  /** What one home contributes to the result list. */
  function ListingFor(h: MergedHome, searchStart: Date, searchEnd: Date): seq<Listing> {
    var matching := Matching(h, searchStart, searchEnd);
    if matching != [] then [Format(h, matching)] else []
  }

  lemma ListingsStep(homes: seq<MergedHome>, j: int, searchStart: Date, searchEnd: Date)
    requires 0 <= j < |homes|
    ensures Listings(homes[j..], searchStart, searchEnd)
      == ListingFor(homes[j], searchStart, searchEnd) + Listings(homes[j + 1..], searchStart, searchEnd)
  {
    var hs := homes[j..];
    assert hs[0] == homes[j] && hs[1..] == homes[j + 1..];
    var rest := AvailableHomes(hs[1..], searchStart, searchEnd);
    if Matching(hs[0], searchStart, searchEnd) != [] {
      assert AvailableHomes(hs, searchStart, searchEnd) == [hs[0]] + rest;
      assert ([hs[0]] + rest)[1..] == rest;
    } else {
      assert AvailableHomes(hs, searchStart, searchEnd) == rest;
    }
  }

  /** The body of the `for r in results` loop: match the home's windows and format it when any match. */
  method ListHome(r: MergedHome, searchStart: Date, searchEnd: Date) returns (entry: seq<Listing>)
    ensures entry == ListingFor(r, searchStart, searchEnd)
  {
    var matching := MatchAvailabilities(r.home.row.availabilities, searchStart, searchEnd);
    if |matching| > 0 {
      entry := [Format(r, matching)];
    } else {
      entry := [];
    }
  }

  /** What the homes from index j on contribute to the result list. */
  function ListingsFrom(homes: seq<MergedHome>, j: nat, searchStart: Date, searchEnd: Date): seq<Listing>
    requires j <= |homes|
    decreases |homes| - j
  {
    if j == |homes| then [] else ListingFor(homes[j], searchStart, searchEnd) + ListingsFrom(homes, j + 1, searchStart, searchEnd)
  }

  lemma {:induction false} ListingsFromSuffix(homes: seq<MergedHome>, j: nat, searchStart: Date, searchEnd: Date)
    requires j <= |homes|
    ensures ListingsFrom(homes, j, searchStart, searchEnd) == Listings(homes[j..], searchStart, searchEnd)
    decreases |homes| - j
  {
    if j < |homes| {
      ListingsFromSuffix(homes, j + 1, searchStart, searchEnd);
      ListingsStep(homes, j, searchStart, searchEnd);
    }
  }

  /** The `for r in results` loop of `search`. */
  method FilterByAvailability(homes: seq<MergedHome>, searchStart: Date, searchEnd: Date) returns (listings: seq<Listing>)
    ensures listings == Listings(homes, searchStart, searchEnd)
  {
    listings := [];
    for j := 0 to |homes|
      invariant listings + ListingsFrom(homes, j, searchStart, searchEnd) == ListingsFrom(homes, 0, searchStart, searchEnd)
    {
      var entry := ListHome(homes[j], searchStart, searchEnd);
      ghost var rest := ListingsFrom(homes, j + 1, searchStart, searchEnd);
      assert listings + (entry + rest) == (listings + entry) + rest;
      listings := listings + entry;
    }
    ListingsFromSuffix(homes, 0, searchStart, searchEnd);
    assert homes[0..] == homes;
  }
}
