/**
 * The resort catalog and the filter chain `search` runs over it before any query is made:
 * region list, then resort-name list, then three minimum-statistic thresholds.
 */
module Catalog {
  import opened Common

  /** One catalog row; a statistic the CSV leaves empty (NaN) is None. */
  datatype Resort = Resort(
    name: string,
    region: string,
    state: Option<string>,
    latitude: real,
    longitude: real,
    skiableAcres: Option<int>,
    verticalDrop: Option<int>,
    annualSnowfall: Option<int>)

  datatype Stat = SkiableAcres | VerticalDrop | AnnualSnowfall

  function StatOf(r: Resort, s: Stat): Option<int> {
    match s
    case SkiableAcres => r.skiableAcres
    case VerticalDrop => r.verticalDrop
    case AnnualSnowfall => r.annualSnowfall
  }

  /** The selection part of a search request; an absent list is the empty list. */
  datatype ResortFilter = ResortFilter(
    regions: seq<string>,
    resorts: seq<string>,
    minSkiableAcres: Option<int>,
    minVerticalDrop: Option<int>,
    minAnnualSnowfall: Option<int>)

  /** A threshold filter runs only when its value is given and positive. */
  predicate ThresholdActive(m: Option<int>) {
    m.Some? && m.value > 0
  }

  /** `stat >= min` in pandas: a missing (NaN) statistic never compares true. */
  predicate AtLeast(stat: Option<int>, min: int) {
    stat.Some? && stat.value >= min
  }

  /** The resorts the whole chain lets through, stated directly. */
  predicate Admits(f: ResortFilter, r: Resort) {
    && (|f.regions| > 0 ==> r.region in f.regions)
    && (|f.resorts| > 0 ==> r.name in f.resorts)
    && (ThresholdActive(f.minSkiableAcres) ==> AtLeast(r.skiableAcres, f.minSkiableAcres.value))
    && (ThresholdActive(f.minVerticalDrop) ==> AtLeast(r.verticalDrop, f.minVerticalDrop.value))
    && (ThresholdActive(f.minAnnualSnowfall) ==> AtLeast(r.annualSnowfall, f.minAnnualSnowfall.value))
  }

  /** The admitted resorts, in catalog order. */
  function Admitted(catalog: seq<Resort>, f: ResortFilter): seq<Resort> {
    if catalog == [] then []
    else (if Admits(f, catalog[0]) then [catalog[0]] else []) + Admitted(catalog[1..], f)
  }

  /** A resort is selected exactly when it is in the catalog and passes every active filter, and the selection keeps catalog order. */
  lemma {:induction false} AdmittedIsOrderedSelection(catalog: seq<Resort>, f: ResortFilter)
    ensures forall r :: r in Admitted(catalog, f) <==> r in catalog && Admits(f, r)
    ensures IsSubseq(Admitted(catalog, f), catalog)
  {
    if catalog != [] {
      AdmittedIsOrderedSelection(catalog[1..], f);
      var a := Admitted(catalog, f);
      if Admits(f, catalog[0]) {
        assert a[0] == catalog[0] && a[1..] == Admitted(catalog[1..], f);
      } else if a != [] {
        assert a == Admitted(catalog[1..], f);
        assert a[0] in Admitted(catalog[1..], f);
        assert a[0] != catalog[0];
      }
    }
  }

  /** With no list and no threshold given, the whole catalog is searched. */
  lemma {:induction false} NoFilterSelectsAll(catalog: seq<Resort>)
    ensures Admitted(catalog, ResortFilter([], [], None, None, None)) == catalog
  {
    if catalog != [] {
      NoFilterSelectsAll(catalog[1..]);
    }
  }

  /** One step of the chain: a region, name or statistic filter. */
  datatype Criterion = InRegions(regions: seq<string>) | Named(names: seq<string>) | Minimum(stat: Stat, min: int)

  predicate Holds(c: Criterion, r: Resort) {
    match c
    case InRegions(rs) => r.region in rs
    case Named(ns) => r.name in ns
    case Minimum(s, m) => AtLeast(StatOf(r, s), m)
  }

  /** `df[mask]` for one criterion: the rows passing it, in order. */
  function Keep(s: seq<Resort>, c: Criterion): seq<Resort> {
    if s == [] then []
    else (if Holds(c, s[0]) then [s[0]] else []) + Keep(s[1..], c)
  }

  /**
   * Narrowing a selection by one more criterion selects what passes both: running the
   * filters in sequence intersects them.
   */
  lemma {:induction false} KeepNarrows(s: seq<Resort>, g: ResortFilter, c: Criterion, g': ResortFilter)
    requires forall r :: Admits(g', r) <==> Admits(g, r) && Holds(c, r)
    ensures Keep(Admitted(s, g), c) == Admitted(s, g')
  {
    if s != [] {
      KeepNarrows(s[1..], g, c, g');
      if Admits(g, s[0]) {
        assert Admitted(s, g) == [s[0]] + Admitted(s[1..], g);
        assert ([s[0]] + Admitted(s[1..], g))[0] == s[0];
        assert ([s[0]] + Admitted(s[1..], g))[1..] == Admitted(s[1..], g);
        assert Keep(Admitted(s, g), c)
          == (if Holds(c, s[0]) then [s[0]] else []) + Keep(Admitted(s[1..], g), c);
      } else {
        assert Admitted(s, g) == Admitted(s[1..], g);
        assert !Admits(g', s[0]);
      }
    }
  }

  lemma {:induction false} AdmittedSameFilter(s: seq<Resort>, g: ResortFilter, g': ResortFilter)
    requires forall r :: Admits(g', r) <==> Admits(g, r)
    ensures Admitted(s, g) == Admitted(s, g')
  {
    if s != [] {
      AdmittedSameFilter(s[1..], g, g');
    }
  }

  /**
   * The filter block of `search`: each active filter narrows the previous result, so the
   * selection is the catalog rows passing all of them, in catalog order.
   */
  method SelectResorts(catalog: seq<Resort>, f: ResortFilter) returns (selected: seq<Resort>)
    ensures selected == Admitted(catalog, f)
  {
    // `g` is the part of `f` applied so far; the selection is always Admitted(catalog, g).
    ghost var g := ResortFilter([], [], None, None, None);
    NoFilterSelectsAll(catalog);
    selected := catalog;
    if |f.regions| > 0 {
      KeepNarrows(catalog, g, InRegions(f.regions), g.(regions := f.regions));
      selected := Keep(selected, InRegions(f.regions));
    } else {
      AdmittedSameFilter(catalog, g, g.(regions := f.regions));
    }
    g := g.(regions := f.regions);
    if |f.resorts| > 0 {
      KeepNarrows(catalog, g, Named(f.resorts), g.(resorts := f.resorts));
      selected := Keep(selected, Named(f.resorts));
    } else {
      AdmittedSameFilter(catalog, g, g.(resorts := f.resorts));
    }
    g := g.(resorts := f.resorts);
    if ThresholdActive(f.minSkiableAcres) {
      var c := Minimum(SkiableAcres, f.minSkiableAcres.value);
      KeepNarrows(catalog, g, c, g.(minSkiableAcres := f.minSkiableAcres));
      selected := Keep(selected, c);
    } else {
      AdmittedSameFilter(catalog, g, g.(minSkiableAcres := f.minSkiableAcres));
    }
    g := g.(minSkiableAcres := f.minSkiableAcres);
    if ThresholdActive(f.minVerticalDrop) {
      var c := Minimum(VerticalDrop, f.minVerticalDrop.value);
      KeepNarrows(catalog, g, c, g.(minVerticalDrop := f.minVerticalDrop));
      selected := Keep(selected, c);
    } else {
      AdmittedSameFilter(catalog, g, g.(minVerticalDrop := f.minVerticalDrop));
    }
    g := g.(minVerticalDrop := f.minVerticalDrop);
    if ThresholdActive(f.minAnnualSnowfall) {
      var c := Minimum(AnnualSnowfall, f.minAnnualSnowfall.value);
      KeepNarrows(catalog, g, c, g.(minAnnualSnowfall := f.minAnnualSnowfall));
      selected := Keep(selected, c);
    } else {
      AdmittedSameFilter(catalog, g, g.(minAnnualSnowfall := f.minAnnualSnowfall));
    }
    g := g.(minAnnualSnowfall := f.minAnnualSnowfall);
    assert g == f;
  }
}
