/**
 * The second half of resort_map_multiple: every row found near a resort is tagged with
 * that resort, annotated with a driving time, merged per home id in first-seen order, and
 * the merged homes are ranked by their shortest driving time.
 */
module Merge {
  import opened Common
  import opened Catalog
  import opened Explore
  import opened Sorting

  /** A row found near one resort, tagged with that resort and (later) its driving time. */
  datatype Tagged = Tagged(
    row: Row,
    resort: string,
    state: Option<string>,
    region: string,
    resortLat: real,
    resortLon: real,
    drivingTime: Option<int>)

  /** One element of a merged home's `resorts` list. */
  datatype ResortEntry = ResortEntry(resort: string, state: Option<string>, region: string, drivingTime: Option<int>)

  /** A value of homes_dict: the first-seen row, every resort it was found near, and the least driving time. */
  datatype MergedHome = MergedHome(home: Tagged, resorts: seq<ResortEntry>, minDrivingTime: Option<int>)

  /** The tags the loop over a resort's results adds; no driving time is known yet. */
  function Tag(row: Row, r: Resort): Tagged {
    Tagged(row, r.name, r.state, r.region, r.latitude, r.longitude, None)
  }

  function TagAll(rows: seq<Row>, r: Resort): (ts: seq<Tagged>)
    ensures |ts| == |rows|
    ensures forall i :: 0 <= i < |rows| ==> ts[i] == Tag(rows[i], r)
  {
    if rows == [] then [] else [Tag(rows[0], r)] + TagAll(rows[1..], r)
  }

  /** Python truthiness of an optional coordinate: present and non-zero. */
  predicate Truthy(x: Option<real>) {
    x.Some? && x.value != 0.0
  }

  /**
   * The driving time attached to a tagged row: the routing oracle `drive`, asked for the
   * trip from the resort to the home, when both of the home's coordinates are truthy;
   * None otherwise. The oracle itself answers None when routing fails.
   */
  function DrivingTimeFor(t: Tagged, drive: (real, real, real, real) -> Option<int>): Option<int> {
    if Truthy(t.row.lat) && Truthy(t.row.lon)
    then drive(t.resortLat, t.resortLon, t.row.lat.value, t.row.lon.value)
    else None
  }

  /** The `for result in results_full` loop that sets driving_time_minutes on every row. */
  method AnnotateDrivingTimes(ts: seq<Tagged>, drive: (real, real, real, real) -> Option<int>)
    returns (annotated: seq<Tagged>)
    ensures |annotated| == |ts|
    ensures forall i :: 0 <= i < |ts| ==> annotated[i] == ts[i].(drivingTime := DrivingTimeFor(ts[i], drive))
    ensures forall i :: 0 <= i < |ts| ==> !(Truthy(ts[i].row.lat) && Truthy(ts[i].row.lon)) ==> annotated[i].drivingTime.None?
  {
    annotated := [];
    for i := 0 to |ts|
      invariant |annotated| == i
      invariant forall k :: 0 <= k < i ==> annotated[k] == ts[k].(drivingTime := DrivingTimeFor(ts[k], drive))
    {
      var t := ts[i];
      var minutes: Option<int>;
      if Truthy(t.row.lat) && Truthy(t.row.lon) {
        minutes := drive(t.resortLat, t.resortLon, t.row.lat.value, t.row.lon.value);
      } else {
        minutes := None;
      }
      annotated := annotated + [t.(drivingTime := minutes)];
    }
  }

  /** The key homes_dict files a row under, when it has a truthy id. */
  function IdOf(t: Tagged): Option<string> {
    if t.row.id.Some? && t.row.id.value != "" then t.row.id else None
  }

  function EntryOf(t: Tagged): ResortEntry {
    ResortEntry(t.resort, t.state, t.region, t.drivingTime)
  }

  /** The keys of homes_dict after the rows `ts`, in insertion order. */
  function FirstSeenIds(ts: seq<Tagged>): seq<string> {
    if ts == [] then []
    else
      var ids := FirstSeenIds(ts[..|ts| - 1]);
      var id := IdOf(ts[|ts| - 1]);
      if id.Some? && id.value !in ids then ids + [id.value] else ids
  }

  /** The resort entries of the rows with id `id`, in row order. */
  function EntriesFor(ts: seq<Tagged>, id: string): seq<ResortEntry> {
    if ts == [] then []
    else EntriesFor(ts[..|ts| - 1], id) + (if IdOf(ts[|ts| - 1]) == Some(id) then [EntryOf(ts[|ts| - 1])] else [])
  }

  /** The first row with id `id`, if there is one. */
  function FirstRowFor(ts: seq<Tagged>, id: string): Option<Tagged> {
    if ts == [] then None
    else
      var first := FirstRowFor(ts[..|ts| - 1], id);
      if first.Some? then first
      else if IdOf(ts[|ts| - 1]) == Some(id) then Some(ts[|ts| - 1])
      else None
  }

  /** One update of min_driving_time: a known time replaces an unknown or a larger minimum. */
  function MinStep(current: Option<int>, t: Option<int>): Option<int> {
    if t.Some? && (current.None? || t.value < current.value) then t else current
  }

  /** min_driving_time over a resorts list, folded from the first entry on. */
  function LeastTime(es: seq<ResortEntry>): Option<int> {
    if es == [] then None else MinStep(LeastTime(es[..|es| - 1]), es[|es| - 1].drivingTime)
  }

  /** A merged home is what the rows `ts` say about home `id`. */
  predicate MergesRows(ts: seq<Tagged>, id: string, h: MergedHome) {
    && FirstRowFor(ts, id) == Some(h.home)
    && h.resorts == EntriesFor(ts, id)
    && h.minDrivingTime == LeastTime(h.resorts)
  }

  lemma {:induction false} FirstSeenIdsExactly(ts: seq<Tagged>)
    ensures forall id :: id in FirstSeenIds(ts) <==> exists i :: 0 <= i < |ts| && IdOf(ts[i]) == Some(id)
    ensures forall id :: id in FirstSeenIds(ts) <==> FirstRowFor(ts, id).Some?
  {
    if ts != [] {
      var init := ts[..|ts| - 1];
      FirstSeenIdsExactly(init);
      forall id
        ensures id in FirstSeenIds(ts) <==> exists i :: 0 <= i < |ts| && IdOf(ts[i]) == Some(id)
      {
        if id in FirstSeenIds(ts) && id !in FirstSeenIds(init) {
          assert IdOf(ts[|ts| - 1]) == Some(id);
        }
        if id in FirstSeenIds(init) {
          var i :| 0 <= i < |init| && IdOf(init[i]) == Some(id);
          assert ts[i] == init[i];
        }
        if exists i :: 0 <= i < |ts| && IdOf(ts[i]) == Some(id) {
          var i :| 0 <= i < |ts| && IdOf(ts[i]) == Some(id);
          if i < |ts| - 1 {
            assert init[i] == ts[i];
          }
        }
      }
    }
  }

  /** homes_dict has one entry per id: the ids are pairwise distinct. */
  lemma {:induction false} FirstSeenIdsDistinct(ts: seq<Tagged>)
    ensures forall i, j :: 0 <= i < j < |FirstSeenIds(ts)| ==> FirstSeenIds(ts)[i] != FirstSeenIds(ts)[j]
  {
    if ts != [] {
      FirstSeenIdsDistinct(ts[..|ts| - 1]);
    }
  }

  /** The copied row of a home is its first row: it carries the id and no earlier row does. */
  lemma {:induction false} FirstRowForIsFirst(ts: seq<Tagged>, id: string)
    ensures FirstRowFor(ts, id).Some? ==>
      exists i :: 0 <= i < |ts| && ts[i] == FirstRowFor(ts, id).value && IdOf(ts[i]) == Some(id)
        && forall j :: 0 <= j < i ==> IdOf(ts[j]) != Some(id)
    ensures FirstRowFor(ts, id).None? ==> forall i :: 0 <= i < |ts| ==> IdOf(ts[i]) != Some(id)
  {
    if ts != [] {
      var init := ts[..|ts| - 1];
      FirstRowForIsFirst(init, id);
      if FirstRowFor(init, id).Some? {
        var i :| 0 <= i < |init| && init[i] == FirstRowFor(init, id).value && IdOf(init[i]) == Some(id)
          && forall j :: 0 <= j < i ==> IdOf(init[j]) != Some(id);
        assert ts[i] == init[i];
        forall j | 0 <= j < i
          ensures IdOf(ts[j]) != Some(id)
        {
          assert ts[j] == init[j];
        }
      } else {
        forall i | 0 <= i < |ts| - 1
          ensures IdOf(ts[i]) != Some(id)
        {
          assert ts[i] == init[i];
        }
      }
    }
  }

  /** A home's resorts list holds exactly the entries of the rows with its id. */
  lemma {:induction false} EntriesForExactly(ts: seq<Tagged>, id: string)
    ensures forall e :: e in EntriesFor(ts, id) <==> exists i :: 0 <= i < |ts| && IdOf(ts[i]) == Some(id) && EntryOf(ts[i]) == e
    ensures (exists i :: 0 <= i < |ts| && IdOf(ts[i]) == Some(id)) <==> |EntriesFor(ts, id)| > 0
  {
    if ts != [] {
      var init := ts[..|ts| - 1];
      EntriesForExactly(init, id);
      forall e
        ensures e in EntriesFor(ts, id) <==> exists i :: 0 <= i < |ts| && IdOf(ts[i]) == Some(id) && EntryOf(ts[i]) == e
      {
        if e in EntriesFor(init, id) {
          var i :| 0 <= i < |init| && IdOf(init[i]) == Some(id) && EntryOf(init[i]) == e;
          assert ts[i] == init[i];
        }
        if exists i :: 0 <= i < |ts| && IdOf(ts[i]) == Some(id) && EntryOf(ts[i]) == e {
          var i :| 0 <= i < |ts| && IdOf(ts[i]) == Some(id) && EntryOf(ts[i]) == e;
          if i < |ts| - 1 {
            assert init[i] == ts[i];
          }
        }
      }
      if exists i :: 0 <= i < |ts| && IdOf(ts[i]) == Some(id) {
        var i :| 0 <= i < |ts| && IdOf(ts[i]) == Some(id);
        if i < |ts| - 1 {
          assert init[i] == ts[i];
        }
      }
      if |EntriesFor(ts, id)| > 0 {
        assert EntriesFor(ts, id)[0] in EntriesFor(ts, id);
      }
    }
  }

  /**
   * min_driving_time is the least known driving time of the list, and None exactly when
   * no driving time is known.
   */
  lemma {:induction false} LeastTimeIsLeast(es: seq<ResortEntry>)
    ensures LeastTime(es).None? <==> forall e :: e in es ==> e.drivingTime.None?
    ensures LeastTime(es).Some? ==> exists e :: e in es && e.drivingTime == LeastTime(es)
    ensures forall e :: e in es && e.drivingTime.Some? ==> LeastTime(es).Some? && LeastTime(es).value <= e.drivingTime.value
  {
    if es != [] {
      var init := es[..|es| - 1];
      LeastTimeIsLeast(init);
      assert es == init + [es[|es| - 1]];
      if LeastTime(init).Some? {
        var e :| e in init && e.drivingTime == LeastTime(init);
        assert e in es;
      }
    }
  }

  /** The merged value of home `id`, which exists for every first-seen id. */
  function MergedHomeFor(ts: seq<Tagged>, id: string): (h: MergedHome)
    requires FirstRowFor(ts, id).Some?
    ensures MergesRows(ts, id, h)
  {
    MergedHome(FirstRowFor(ts, id).value, EntriesFor(ts, id), LeastTime(EntriesFor(ts, id)))
  }

  /** `list(homes_dict.values())`: one merged home per first-seen id, in that order. */
  function Merged(ts: seq<Tagged>): (hs: seq<MergedHome>)
    ensures |hs| == |FirstSeenIds(ts)|
    ensures forall j :: 0 <= j < |hs| ==> MergesRows(ts, FirstSeenIds(ts)[j], hs[j])
  {
    FirstSeenIdsExactly(ts);
    var ids := FirstSeenIds(ts);
    seq(|ids|, j requires 0 <= j < |ids| => MergedHomeFor(ts, ids[j]))
  }

  /** One row's effect on the dictionary entry of its id, stated on the spec functions. */
  lemma MergeStep(ts: seq<Tagged>, i: int, id: string)
    requires 0 <= i < |ts|
    ensures FirstSeenIds(ts[..i + 1])
         == if IdOf(ts[i]).Some? && IdOf(ts[i]).value !in FirstSeenIds(ts[..i])
            then FirstSeenIds(ts[..i]) + [IdOf(ts[i]).value] else FirstSeenIds(ts[..i])
    ensures EntriesFor(ts[..i + 1], id)
         == EntriesFor(ts[..i], id) + (if IdOf(ts[i]) == Some(id) then [EntryOf(ts[i])] else [])
    ensures FirstRowFor(ts[..i + 1], id)
         == if FirstRowFor(ts[..i], id).Some? then FirstRowFor(ts[..i], id)
            else if IdOf(ts[i]) == Some(id) then Some(ts[i]) else None
  {
    assert ts[..i + 1][..i] == ts[..i];
  }

  /** The min_driving_time update agrees with folding MinStep over the extended list. */
  lemma LeastTimeStep(es: seq<ResortEntry>, e: ResortEntry)
    ensures LeastTime(es + [e]) == MinStep(LeastTime(es), e.drivingTime)
  {
    assert (es + [e])[..|es + [e]| - 1] == es;
  }

  /** The dictionary `dict` holds the merged homes of the rows `ts`, under the keys `order`. */
  ghost predicate Represents(ts: seq<Tagged>, order: seq<string>, dict: map<string, MergedHome>) {
    && order == FirstSeenIds(ts)
    && (forall k :: k in dict <==> k in order)
    && (forall k :: k in dict ==> MergesRows(ts, k, dict[k]))
  }

  /** A row without a truthy id leaves the dictionary as it is. */
  lemma SkipKeepsRepresentation(ts: seq<Tagged>, i: int, order: seq<string>, dict: map<string, MergedHome>)
    requires 0 <= i < |ts| && IdOf(ts[i]).None?
    requires Represents(ts[..i], order, dict)
    ensures Represents(ts[..i + 1], order, dict)
  {
    MergeStep(ts, i, "");
    forall k | k in dict
      ensures MergesRows(ts[..i + 1], k, dict[k])
    {
      MergeStep(ts, i, k);
    }
  }

  /** The first row of a new id becomes that id's entry, appended to the key order. */
  lemma NewIdExtendsRepresentation(ts: seq<Tagged>, i: int, order: seq<string>, dict: map<string, MergedHome>)
    requires 0 <= i < |ts| && IdOf(ts[i]).Some? && IdOf(ts[i]).value !in dict
    requires Represents(ts[..i], order, dict)
    ensures Represents(ts[..i + 1], order + [IdOf(ts[i]).value],
                       dict[IdOf(ts[i]).value := MergedHome(ts[i], [EntryOf(ts[i])], ts[i].drivingTime)])
  {
    var key := IdOf(ts[i]).value;
    var dict' := dict[key := MergedHome(ts[i], [EntryOf(ts[i])], ts[i].drivingTime)];
    MergeStep(ts, i, key);
    NewIdMerges(ts, i);
    forall k | k in dict' && k != key
      ensures MergesRows(ts[..i + 1], k, dict'[k])
    {
      MergeStep(ts, i, k);
    }
  }

  /** The first row of an id, alone, is the merge of the rows with that id so far. */
  lemma NewIdMerges(ts: seq<Tagged>, i: int)
    requires 0 <= i < |ts| && IdOf(ts[i]).Some? && IdOf(ts[i]).value !in FirstSeenIds(ts[..i])
    ensures MergesRows(ts[..i + 1], IdOf(ts[i]).value, MergedHome(ts[i], [EntryOf(ts[i])], ts[i].drivingTime))
  {
    var key := IdOf(ts[i]).value;
    MergeStep(ts, i, key);
    FirstSeenIdsExactly(ts[..i]);
    EntriesForExactly(ts[..i], key);
    LeastTimeStep([], EntryOf(ts[i]));
  }

  /** A later row of a known id appends its resort entry and folds its time into the minimum. */
  lemma SeenIdUpdatesRepresentation(ts: seq<Tagged>, i: int, order: seq<string>, dict: map<string, MergedHome>)
    requires 0 <= i < |ts| && IdOf(ts[i]).Some? && IdOf(ts[i]).value in dict
    requires Represents(ts[..i], order, dict)
    ensures var h := dict[IdOf(ts[i]).value];
      Represents(ts[..i + 1], order,
                 dict[IdOf(ts[i]).value := h.(resorts := h.resorts + [EntryOf(ts[i])],
                                              minDrivingTime := MinStep(h.minDrivingTime, ts[i].drivingTime))])
  {
    var key := IdOf(ts[i]).value;
    var h := dict[key];
    var dict' := dict[key := h.(resorts := h.resorts + [EntryOf(ts[i])],
                                minDrivingTime := MinStep(h.minDrivingTime, ts[i].drivingTime))];
    MergeStep(ts, i, key);
    LeastTimeStep(h.resorts, EntryOf(ts[i]));
    forall k | k in dict'
      ensures MergesRows(ts[..i + 1], k, dict'[k])
    {
      MergeStep(ts, i, k);
    }
  }

  /** `list(homes_dict.values())` for the dictionary held as the key list `order` beside `dict`. */
  function ValuesInOrder(order: seq<string>, dict: map<string, MergedHome>): (hs: seq<MergedHome>)
    requires forall k :: k in order ==> k in dict
    ensures |hs| == |order| && forall j :: 0 <= j < |order| ==> hs[j] == dict[order[j]]
  {
    seq(|order|, j requires 0 <= j < |order| => dict[order[j]])
  }

  /** A dictionary that represents all the rows holds exactly their merged homes, in first-seen order. */
  lemma RepresentedIsMerged(ts: seq<Tagged>, order: seq<string>, dict: map<string, MergedHome>)
    requires Represents(ts, order, dict)
    ensures ValuesInOrder(order, dict) == Merged(ts)
  {
    var hs := ValuesInOrder(order, dict);
    var ms := Merged(ts);
    forall j | 0 <= j < |ms|
      ensures hs[j] == ms[j]
    {
      assert MergesRows(ts, order[j], hs[j]);
    }
  }

  /** One pass of the deduplication loop, on the row at index i. */
  method MergeRow(ts: seq<Tagged>, i: int, order: seq<string>, dict: map<string, MergedHome>)
    returns (order': seq<string>, dict': map<string, MergedHome>)
    requires 0 <= i < |ts| && Represents(ts[..i], order, dict)
    ensures Represents(ts[..i + 1], order', dict')
  {
    var t := ts[i];
    var homeId := t.row.id;
    if homeId.None? || homeId.value == "" {
      SkipKeepsRepresentation(ts, i, order, dict);
      return order, dict;
    }
    var key := homeId.value;
    var entry := EntryOf(t);
    if key !in dict {
      NewIdExtendsRepresentation(ts, i, order, dict);
      dict' := dict[key := MergedHome(t, [entry], t.drivingTime)];
      order' := order + [key];
    } else {
      var h := dict[key];
      var least := h.minDrivingTime;
      if t.drivingTime.Some? {
        if least.None? || t.drivingTime.value < least.value {
          least := t.drivingTime;
        }
      }
      SeenIdUpdatesRepresentation(ts, i, order, dict);
      dict' := dict[key := h.(resorts := h.resorts + [entry], minDrivingTime := least)];
      order' := order;
    }
  }

  /**
   * The deduplication loop of resort_map_multiple: rows without a truthy id are skipped; the
   * first row of an id is copied with a one-entry resorts list and its own driving time as
   * the minimum; each later row of that id appends its resort entry and lowers the minimum
   * when it has a smaller known time. The insertion-ordered dictionary is the key list
   * `order` beside the map `dict`.
   */
  method MergeByHome(ts: seq<Tagged>) returns (homes: seq<MergedHome>)
    ensures homes == Merged(ts)
  {
    var dict: map<string, MergedHome> := map[];
    var order: seq<string> := [];
    for i := 0 to |ts|
      invariant Represents(ts[..i], order, dict)
    {
      order, dict := MergeRow(ts, i, order, dict);
    }
    assert ts[..|ts|] == ts;
    RepresentedIsMerged(ts, order, dict);
    homes := ValuesInOrder(order, dict);
  }

  function EntryTime(e: ResortEntry): Option<int> {
    e.drivingTime
  }

  function HomeTime(h: MergedHome): Option<int> {
    h.minDrivingTime
  }

  /** A home with its resorts list sorted by driving time. */
  function WithSortedResorts(h: MergedHome): MergedHome {
    h.(resorts := SortBy(h.resorts, EntryTime))
  }

  /** The `for home in deduplicated_results` loop that sorts every home's resorts list. */
  method SortResortsOfEach(homes: seq<MergedHome>) returns (sorted: seq<MergedHome>)
    ensures |sorted| == |homes|
    ensures forall i :: 0 <= i < |homes| ==> sorted[i] == WithSortedResorts(homes[i])
  {
    sorted := [];
    for i := 0 to |homes|
      invariant |sorted| == i
      invariant forall k :: 0 <= k < i ==> sorted[k] == WithSortedResorts(homes[k])
    {
      var h := homes[i];
      h := h.(resorts := SortBy(h.resorts, EntryTime));
      sorted := sorted + [h];
    }
  }

  /** In a list sorted by driving time whose entries are those of `es`, the first time is the least of `es`. */
  lemma SortedFirstIsLeast(s: seq<ResortEntry>, es: seq<ResortEntry>)
    requires |s| > 0 && SortedBy(s, EntryTime) && multiset(s) == multiset(es)
    ensures s[0].drivingTime == LeastTime(es)
  {
    LeastTimeIsLeast(es);
    assert s[0] in multiset(es);
    var least := LeastTime(es);
    if least.Some? {
      var e :| e in es && e.drivingTime == least;
      assert e in multiset(s);
      var k :| 0 <= k < |s| && s[k] == e;
      if k > 0 {
        assert TimeLe(EntryTime(s[0]), EntryTime(s[k]));
      }
    }
  }

  /**
   * After sorting, a home's first resort is the nearest one: its driving time is the home's
   * min_driving_time.
   */
  lemma SortedResortsStartWithLeast(es: seq<ResortEntry>)
    requires |es| > 0
    ensures |SortBy(es, EntryTime)| == |es|
    ensures SortBy(es, EntryTime)[0].drivingTime == LeastTime(es)
  {
    SortByPermutes(es, EntryTime);
    SortByIsSorted(es, EntryTime);
    SortedFirstIsLeast(SortBy(es, EntryTime), es);
  }

  /** The rows with their driving times attached. */
  function Annotated(ts: seq<Tagged>, drive: (real, real, real, real) -> Option<int>): (r: seq<Tagged>)
    ensures |r| == |ts|
  {
    seq(|ts|, i requires 0 <= i < |ts| => ts[i].(drivingTime := DrivingTimeFor(ts[i], drive)))
  }

  /** Every home with its resorts list sorted. */
  function SortEach(homes: seq<MergedHome>): (r: seq<MergedHome>)
    ensures |r| == |homes|
  {
    seq(|homes|, i requires 0 <= i < |homes| => WithSortedResorts(homes[i]))
  }

  /** The list resort_map_multiple returns for the collected rows `ts`. */
  function Ranked(ts: seq<Tagged>): seq<MergedHome> {
    SortBy(SortEach(Merged(ts)), HomeTime)
  }

  /**
   * One returned home as the rows `ts` determine it: it has a truthy id among the rows, its
   * resorts are the entries of exactly the rows with that id, sorted by driving time with
   * unknown times last, and the first of them is the nearest, whose time is min_driving_time.
   */
  predicate RankedHomeOf(ts: seq<Tagged>, h: MergedHome) {
    && IdOf(h.home).Some?
    && h.home.row.id.value in FirstSeenIds(ts)
    && multiset(h.resorts) == multiset(EntriesFor(ts, h.home.row.id.value))
    && SortedBy(h.resorts, EntryTime)
    && |h.resorts| > 0
    && h.resorts[0].drivingTime == h.minDrivingTime
  }

  lemma SortedMergedHome(ts: seq<Tagged>, id: string, m: MergedHome)
    requires id in FirstSeenIds(ts) && MergesRows(ts, id, m)
    ensures RankedHomeOf(ts, WithSortedResorts(m))
  {
    FirstRowForIsFirst(ts, id);
    EntriesForExactly(ts, id);
    SortByPermutes(m.resorts, EntryTime);
    SortByIsSorted(m.resorts, EntryTime);
    SortedResortsStartWithLeast(m.resorts);
  }

  lemma SortEachRanked(ts: seq<Tagged>)
    ensures forall h :: h in SortEach(Merged(ts)) ==> RankedHomeOf(ts, h)
  {
    var ms := Merged(ts);
    forall h | h in SortEach(ms)
      ensures RankedHomeOf(ts, h)
    {
      var j :| 0 <= j < |ms| && SortEach(ms)[j] == h;
      SortedMergedHome(ts, FirstSeenIds(ts)[j], ms[j]);
    }
  }

  /** No two homes of the list carry the same id. */
  predicate DistinctIds(hs: seq<MergedHome>) {
    forall i, j :: 0 <= i < j < |hs| ==> hs[i].home.row.id != hs[j].home.row.id
  }

  /** In a list of homes with distinct ids, every home occurs at most once. */
  lemma {:induction false} DistinctIdsOccurOnce(hs: seq<MergedHome>, x: MergedHome)
    requires DistinctIds(hs)
    ensures multiset(hs)[x] <= 1
  {
    if hs != [] {
      var rest := hs[1..];
      assert hs == [hs[0]] + rest;
      assert DistinctIds(rest) by {
        forall i, j | 0 <= i < j < |rest|
          ensures rest[i].home.row.id != rest[j].home.row.id
        {
          assert rest[i] == hs[i + 1] && rest[j] == hs[j + 1];
        }
      }
      DistinctIdsOccurOnce(rest, x);
      if x == hs[0] {
        assert x !in rest by {
          forall k | 0 <= k < |rest|
            ensures rest[k] != x
          {
            assert rest[k] == hs[k + 1];
          }
        }
      }
    }
  }

  /** An element at two positions of a list occurs in it at least twice. */
  lemma TwoPositionsCountTwice<T>(a: seq<T>, i: int, j: int)
    requires 0 <= i < j < |a| && a[i] == a[j]
    ensures multiset(a)[a[i]] >= 2
  {
    assert a == a[..j] + a[j..];
    assert a[..j][i] == a[i] && a[j..][0] == a[i];
  }

  /** Reordering a list of homes with distinct ids keeps the ids distinct. */
  lemma DistinctIdsPermutation(a: seq<MergedHome>, b: seq<MergedHome>)
    requires multiset(a) == multiset(b) && DistinctIds(b)
    ensures DistinctIds(a)
  {
    forall i, j | 0 <= i < j < |a|
      ensures a[i].home.row.id != a[j].home.row.id
    {
      DistinctIdsOccurOnce(b, a[i]);
      if a[i] == a[j] {
        TwoPositionsCountTwice(a, i, j);
      }
      assert a[i] != a[j];
      assert a[i] in multiset(b) && a[j] in multiset(b);
      var p :| 0 <= p < |b| && b[p] == a[i];
      var q :| 0 <= q < |b| && b[q] == a[j];
      assert p != q;
    }
  }

  /** The merged homes, with their resorts sorted, carry the distinct first-seen ids in order. */
  lemma SortEachIds(ts: seq<Tagged>)
    ensures |SortEach(Merged(ts))| == |FirstSeenIds(ts)|
    ensures forall j :: 0 <= j < |FirstSeenIds(ts)| ==> SortEach(Merged(ts))[j].home.row.id == Some(FirstSeenIds(ts)[j])
    ensures DistinctIds(SortEach(Merged(ts)))
  {
    var ids := FirstSeenIds(ts);
    var ms := Merged(ts);
    var each := SortEach(ms);
    forall j | 0 <= j < |ids|
      ensures each[j].home.row.id == Some(ids[j])
    {
      assert MergesRows(ts, ids[j], ms[j]);
      FirstRowForIsFirst(ts, ids[j]);
    }
    FirstSeenIdsDistinct(ts);
  }

  /**
   * The returned homes are ordered by min_driving_time with unknown times last, are the
   * merged homes reordered (one per distinct truthy id among the rows), and each is what
   * the rows say about its id.
   */
  lemma RankedHomes(ts: seq<Tagged>)
    ensures SortedBy(Ranked(ts), HomeTime)
    ensures multiset(Ranked(ts)) == multiset(SortEach(Merged(ts)))
    ensures |Ranked(ts)| == |FirstSeenIds(ts)|
    ensures DistinctIds(Ranked(ts))
    ensures forall h :: h in Ranked(ts) ==> RankedHomeOf(ts, h)
  {
    var each := SortEach(Merged(ts));
    SortByIsSorted(each, HomeTime);
    SortByPermutes(each, HomeTime);
    SortEachRanked(ts);
    SortEachIds(ts);
    DistinctIdsPermutation(Ranked(ts), each);
    forall h | h in Ranked(ts)
      ensures RankedHomeOf(ts, h)
    {
      assert h in multiset(each);
    }
  }
}
