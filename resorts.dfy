/**
 * resort_map_multiple: one paged home search around every selected resort, the rows of
 * all of them collected in resort order and tagged with their resort, then driving times,
 * the merge per home id and the ranking by driving time.
 */
module Resorts {
  import opened Common
  import opened Dates
  import opened Catalog
  import opened Explore
  import opened Merge
  import opened Sorting

  /**
   * What the search reads from outside the program: the GraphQL endpoint (`fetch`, None
   * when a request fails), make_polygon (`polygonOf`), the routing service (`drive`), the
   * sortedAt timestamp taken for the search around the i-th resort (`stamps`) and the
   * timestamp explore_map_once reads for page n (`clock`).
   */
  datatype Upstream = Upstream(
    fetch: (string, QueryVars) -> Option<Page>,
    polygonOf: (real, real, int) -> Polygon,
    drive: (real, real, real, real) -> Option<int>,
    stamps: int -> string,
    clock: int -> string)

  /** The page-0 request of the search around `r`, the i-th resort searched. */
  function FirstFor(p: SearchParams, r: Resort, i: int, mileRange: int, up: Upstream): QueryVars
    requires ValidRange(p.dates)
  {
    PageRequest(p, up.polygonOf(r.latitude, r.longitude, mileRange), up.stamps(i), 0)
  }

  /**
   * The fate of the search around resort i: None when its paging never ends (the source
   * loops forever), Some(None) when it ends with a failed request, Some(Some(rows)) when it
   * returns rows.
   */
  ghost function Fates(p: SearchParams, resorts: seq<Resort>, mileRange: int, token: string, up: Upstream)
    : (fates: seq<Option<Option<seq<Row>>>>)
    requires ValidRange(p.dates)
    ensures |fates| == |resorts|
  {
    seq(|resorts|, i requires 0 <= i < |resorts| =>
      var first := FirstFor(p, resorts[i], i, mileRange, up);
      if PagingEnds(up.fetch, token, first) then Some(SearchOutcome(up.fetch, token, first, p.petsAllowed)) else None)
  }

  /** The first n searches all come to an end and none of them fails. */
  predicate SucceedsThrough(fates: seq<Option<Option<seq<Row>>>>, n: int) {
    n <= |fates| && forall k :: 0 <= k < n ==> fates[k].Some? && fates[k].value.Some?
  }

  /**
   * Every search the loop reaches comes to an end (a page without more results, or a failed
   * request): the search around resort i, once the searches before it have succeeded. A
   * search after a failed one is never run, so nothing is asked of it.
   */
  predicate SearchesReachedEnd(fates: seq<Option<Option<seq<Row>>>>) {
    forall i :: 0 <= i < |fates| && SucceedsThrough(fates, i) ==> fates[i].Some?
  }

  /** The search around resort i is the first to fail: the searches before it succeeded and it ended with a failed request. */
  predicate FailsAt(fates: seq<Option<Option<seq<Row>>>>, i: int) {
    0 <= i < |fates| && SucceedsThrough(fates, i) && fates[i] == Some(None)
  }

  /** Every search the loop over the selected resorts reaches comes to an end. */
  ghost predicate EverySearchEnds(p: SearchParams, resorts: seq<Resort>, mileRange: int, token: string, up: Upstream)
    requires ValidRange(p.dates)
  {
    SearchesReachedEnd(Fates(p, resorts, mileRange, token, up))
  }

  /**
   * results_full after the first n searches: each resort's rows tagged with it, in resort
   * order; None once a search has failed (or, for a search that never ends, which
   * `SearchesReachedEnd` rules out, also None).
   */
  function Collect(fates: seq<Option<Option<seq<Row>>>>, resorts: seq<Resort>, n: nat): Option<seq<Tagged>>
    requires n <= |fates| && n <= |resorts|
  {
    if n == 0 then Some([])
    else
      var before := Collect(fates, resorts, n - 1);
      if before.None? || fates[n - 1].None? || fates[n - 1].value.None? then None
      else Some(before.value + TagAll(fates[n - 1].value.value, resorts[n - 1]))
  }

  /** results_full once every selected resort has been searched, or None when a search failed. */
  ghost function Gathered(p: SearchParams, resorts: seq<Resort>, mileRange: int, token: string, up: Upstream)
    : Option<seq<Tagged>>
    requires ValidRange(p.dates)
  {
    Collect(Fates(p, resorts, mileRange, token, up), resorts, |resorts|)
  }

  /** The value resort_map_multiple returns, or None when it raises. */
  ghost function ResortMapResult(p: SearchParams, resorts: seq<Resort>, mileRange: int, token: string, up: Upstream)
    : Option<seq<MergedHome>>
    requires ValidRange(p.dates)
  {
    var all := Gathered(p, resorts, mileRange, token, up);
    if all.None? then None else Some(Ranked(Annotated(all.value, up.drive)))
  }

  /** The rows are collected exactly as long as every search so far has succeeded. */
  lemma {:induction false} CollectSucceedsIffAllSucceed(fates: seq<Option<Option<seq<Row>>>>, resorts: seq<Resort>, n: nat)
    requires n <= |fates| && n <= |resorts|
    ensures Collect(fates, resorts, n).Some? <==> SucceedsThrough(fates, n)
  {
    if n > 0 {
      CollectSucceedsIffAllSucceed(fates, resorts, n - 1);
    }
  }

  /** One failed search makes the whole call fail: the exception is not caught. */
  lemma {:induction false} FailurePersists(fates: seq<Option<Option<seq<Row>>>>, resorts: seq<Resort>, n: nat, m: nat)
    requires n <= m <= |fates| && m <= |resorts|
    requires Collect(fates, resorts, n).None?
    ensures Collect(fates, resorts, m).None?
    decreases m
  {
    if m > n {
      FailurePersists(fates, resorts, n, m - 1);
    }
  }

  /**
   * When every search the loop reaches ends, the call fails exactly when some search is
   * the first to fail.
   */
  lemma {:induction false} CollectFailsIffSomeSearchFails(fates: seq<Option<Option<seq<Row>>>>, resorts: seq<Resort>, n: nat)
    requires n <= |fates| && n <= |resorts| && SearchesReachedEnd(fates)
    ensures Collect(fates, resorts, n).None? <==> exists i :: 0 <= i < n && FailsAt(fates, i)
  {
    if n > 0 {
      CollectFailsIffSomeSearchFails(fates, resorts, n - 1);
      CollectSucceedsIffAllSucceed(fates, resorts, n - 1);
      if Collect(fates, resorts, n - 1).Some? && Collect(fates, resorts, n).None? {
        assert FailsAt(fates, n - 1);
      }
      if exists i :: 0 <= i < n && FailsAt(fates, i) {
        var i :| 0 <= i < n && FailsAt(fates, i);
        if i == n - 1 {
          assert Collect(fates, resorts, n).None?;
        }
      }
    }
  }

  /**
   * Every collected row carries the tags of one of the resorts searched so far and no
   * driving time yet.
   */
  lemma {:induction false} CollectedRowsAreTagged(fates: seq<Option<Option<seq<Row>>>>, resorts: seq<Resort>, n: nat)
    requires n <= |fates| && n <= |resorts|
    requires Collect(fates, resorts, n).Some?
    ensures forall t :: t in Collect(fates, resorts, n).value ==>
      t.drivingTime.None? &&
      exists i :: 0 <= i < n && t == Tag(t.row, resorts[i])
  {
    if n > 0 {
      var before := Collect(fates, resorts, n - 1).value;
      CollectedRowsAreTagged(fates, resorts, n - 1);
      var tagged := TagAll(fates[n - 1].value.value, resorts[n - 1]);
      forall t: Tagged | t in before + tagged
        ensures t.drivingTime.None? && exists i :: 0 <= i < n && t == Tag(t.row, resorts[i])
      {
        if t !in before {
          var k :| 0 <= k < |tagged| && tagged[k] == t;
          assert t == Tag(fates[n - 1].value.value[k], resorts[n - 1]);
        }
      }
    }
  }

  /** The `for result in results` loop: tag every row of one resort and append it. */
  method AppendTagged(all: seq<Tagged>, rows: seq<Row>, r: Resort) returns (extended: seq<Tagged>)
    ensures extended == all + TagAll(rows, r)
  {
    extended := all;
    for i := 0 to |rows|
      invariant |extended| == |all| + i
      invariant extended[..|all|] == all
      invariant forall k :: 0 <= k < i ==> extended[|all| + k] == Tag(rows[k], r)
    {
      var t := Tagged(rows[i], r.name, r.state, r.region, r.latitude, r.longitude, None);
      extended := extended + [t];
    }
    assert extended == all + TagAll(rows, r) by {
      var expected := all + TagAll(rows, r);
      assert |extended| == |expected|;
      forall k | 0 <= k < |extended|
        ensures extended[k] == expected[k]
      {
        if k < |all| {
          assert extended[k] == extended[..|all|][k];
        }
      }
    }
  }

  /** A search the loop reaches, after the earlier ones have succeeded, comes to an end. */
  lemma ReachedSearchEnds(fates: seq<Option<Option<seq<Row>>>>, resorts: seq<Resort>, i: nat)
    requires SearchesReachedEnd(fates) && i < |fates| && i <= |resorts|
    requires Collect(fates, resorts, i).Some?
    ensures fates[i].Some?
  {
    CollectSucceedsIffAllSucceed(fates, resorts, i);
  }

  /** The fate of a search: it is known exactly when its paging ends, and it is then the search's outcome. */
  lemma FateOf(p: SearchParams, resorts: seq<Resort>, mileRange: int, token: string, up: Upstream, i: nat)
    requires ValidRange(p.dates) && i < |resorts|
    ensures Fates(p, resorts, mileRange, token, up)[i].Some?
        <==> PagingEnds(up.fetch, token, FirstFor(p, resorts[i], i, mileRange, up))
    ensures Fates(p, resorts, mileRange, token, up)[i].Some? ==>
      Fates(p, resorts, mileRange, token, up)[i].value
        == SearchOutcome(up.fetch, token, FirstFor(p, resorts[i], i, mileRange, up), p.petsAllowed)
  {
  }

  /** The search around the i-th selected resort. */
  method SearchResort(p: SearchParams, resorts: seq<Resort>, mileRange: int, token: string, up: Upstream, i: nat)
    returns (found: Option<seq<Row>>)
    requires ValidRange(p.dates) && i < |resorts|
    requires PagingEnds(up.fetch, token, FirstFor(p, resorts[i], i, mileRange, up))
    ensures found == SearchOutcome(up.fetch, token, FirstFor(p, resorts[i], i, mileRange, up), p.petsAllowed)
  {
    var r := resorts[i];
    var polygon := up.polygonOf(r.latitude, r.longitude, mileRange);
    var requests;
    found, requests := ExploreMapMultiple(p, polygon, token, up.fetch, up.stamps(i), up.clock);
  }

  /** The per-resort loop: run each search in selection order, collect its tagged rows, and stop at the first failure. */
  method GatherResults(p: SearchParams, resorts: seq<Resort>, mileRange: int, token: string, up: Upstream)
    returns (all: Option<seq<Tagged>>)
    requires ValidRange(p.dates) && EverySearchEnds(p, resorts, mileRange, token, up)
    ensures all == Gathered(p, resorts, mileRange, token, up)
  {
    ghost var fates := Fates(p, resorts, mileRange, token, up);
    var collected: seq<Tagged> := [];
    for idx := 0 to |resorts|
      invariant Collect(fates, resorts, idx) == Some(collected)
    {
      ReachedSearchEnds(fates, resorts, idx);
      FateOf(p, resorts, mileRange, token, up, idx);
      var found := SearchResort(p, resorts, mileRange, token, up, idx);
      if found.None? {
        FailurePersists(fates, resorts, idx + 1, |resorts|);
        return None;
      }
      collected := AppendTagged(collected, found.value, resorts[idx]);
    }
    all := Some(collected);
  }

  /**
   * resort_map_multiple: gather, annotate with driving times, merge per home id, sort each
   * home's resorts and then the homes. The returned homes are sorted by min_driving_time
   * with unknown times last, one per distinct truthy id among the annotated rows (so no two
   * share an id), each the merge of exactly the rows with its id. The call fails exactly when
   * some resort's search fails after all the earlier ones succeeded.
   */
  method ResortMapMultiple(p: SearchParams, resorts: seq<Resort>, mileRange: int, token: string, up: Upstream)
    returns (homes: Option<seq<MergedHome>>)
    requires ValidRange(p.dates) && EverySearchEnds(p, resorts, mileRange, token, up)
    ensures homes == ResortMapResult(p, resorts, mileRange, token, up)
    ensures homes.None? <==> exists i :: 0 <= i < |resorts| && FailsAt(Fates(p, resorts, mileRange, token, up), i)
    ensures homes.Some? ==>
      var rows := Annotated(Gathered(p, resorts, mileRange, token, up).value, up.drive);
      && SortedBy(homes.value, HomeTime)
      && |homes.value| == |FirstSeenIds(rows)|
      && DistinctIds(homes.value)
      && forall h :: h in homes.value ==> RankedHomeOf(rows, h)
  {
    var all := GatherResults(p, resorts, mileRange, token, up);
    CollectFailsIffSomeSearchFails(Fates(p, resorts, mileRange, token, up), resorts, |resorts|);
    if all.None? {
      return None;
    }
    var annotated := AnnotateDrivingTimes(all.value, up.drive);
    assert annotated == Annotated(all.value, up.drive);
    var merged := MergeByHome(annotated);
    var each := SortResortsOfEach(merged);
    assert each == SortEach(merged);
    var ranked := SortBy(each, HomeTime);
    RankedHomes(annotated);
    homes := Some(ranked);
  }
}
