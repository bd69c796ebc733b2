/**
 * Calendar dates as the search backend handles them: midnight datetimes built from
 * "YYYY-MM-DD" strings, advanced by relativedelta(months=1), cut into monthly chunks
 * (make_monthly_date_ranges) and rendered as ISO-8601 timestamps (to_iso_date_range).
 */
module Dates {
  import opened Common

  /** A calendar date; the time of day is always midnight. */
  datatype Date = Date(year: int, month: int, day: int)

  /** A pair of dates, [start, end] as the source passes them around. */
  datatype DateRange = DateRange(start: Date, end: Date)

  /** Gregorian leap-year rule. */
  predicate IsLeapYear(y: int) {
    y % 4 == 0 && (y % 100 != 0 || y % 400 == 0)
  }

  function DaysInMonth(y: int, m: int): (n: int)
    requires 1 <= m <= 12
    ensures 28 <= n <= 31
    ensures n == 29 <==> m == 2 && IsLeapYear(y)
  {
    if m == 2 then (if IsLeapYear(y) then 29 else 28)
    else if m == 4 || m == 6 || m == 9 || m == 11 then 30
    else 31
  }

  /** A date Python's datetime accepts: years MINYEAR (1) to MAXYEAR (9999). */
  predicate ValidDate(d: Date) {
    1 <= d.year <= 9999 && 1 <= d.month <= 12 && 1 <= d.day <= DaysInMonth(d.year, d.month)
  }

  predicate ValidRange(r: DateRange) {
    ValidDate(r.start) && ValidDate(r.end)
  }

  /** Strict chronological order: `a < b` on datetimes. */
  predicate Before(a: Date, b: Date) {
    a.year < b.year || (a.year == b.year && (a.month < b.month || (a.month == b.month && a.day < b.day)))
  }

  /** `a <= b` on datetimes. */
  predicate NotAfter(a: Date, b: Date) {
    !Before(b, a)
  }

  /** A day count that grows with the date (months padded to 31 days); used as a termination measure. */
  function Ordinal(d: Date): int {
    d.year * 372 + d.month * 31 + d.day
  }

  lemma BeforeRaisesOrdinal(a: Date, b: Date)
    requires 1 <= a.month <= 12 && 1 <= a.day <= 31
    requires 1 <= b.month <= 12 && 1 <= b.day <= 31
    requires Before(a, b)
    ensures Ordinal(a) < Ordinal(b)
  {
  }

  /**
   * `d + relativedelta(months=1)`: the same day of the following month, clamped to the
   * last day of that month. For a date in December 9999 the result lies in year 10000,
   * which Python cannot represent.
   */
  function AddMonth(d: Date): (r: Date)
    requires ValidDate(d)
    ensures Before(d, r)
    ensures r.year * 12 + r.month == d.year * 12 + d.month + 1
    ensures 1 <= r.month <= 12 && 1 <= r.day <= DaysInMonth(r.year, r.month)
    ensures r.day == d.day || (r.day < d.day && r.day == DaysInMonth(r.year, r.month))
    ensures r.year <= 9999 ==> ValidDate(r)
  {
    var y := if d.month == 12 then d.year + 1 else d.year;
    var m := if d.month == 12 then 1 else d.month + 1;
    var last := DaysInMonth(y, m);
    Date(y, m, if d.day <= last then d.day else last)
  }

  /** Python's `min(a, b)` on datetimes: `a` unless `b` is strictly earlier. */
  function Earlier(a: Date, b: Date): (r: Date)
    ensures NotAfter(r, a) && NotAfter(r, b)
    ensures r == a || r == b
  {
    if Before(b, a) then b else a
  }

  /**
   * The chunks make_monthly_date_ranges produces from `current` up to `end`:
   * while current < end, the chunk [current, min(current + 1 month, end)].
   */
  function MonthlyChunks(current: Date, end: Date): (r: seq<DateRange>)
    requires ValidDate(current) && ValidDate(end)
    ensures forall i :: 0 <= i < |r| ==> ValidRange(r[i])
    decreases Ordinal(end) - Ordinal(current)
  {
    if !Before(current, end) then []
    else
      var next := Earlier(AddMonth(current), end);
      BeforeRaisesOrdinal(current, next);
      [DateRange(current, next)] + MonthlyChunks(next, end)
  }

  /**
   * The chunks tile [current, end): none when current >= end; otherwise the first starts at
   * `current`, the last ends at `end`, and neighbours share their endpoint.
   */
  lemma {:induction false} MonthlyChunksCover(current: Date, end: Date)
    requires ValidDate(current) && ValidDate(end)
    ensures var r := MonthlyChunks(current, end);
      && (|r| == 0 <==> !Before(current, end))
      && (|r| > 0 ==> r[0].start == current && r[|r| - 1].end == end)
      && (forall i :: 0 <= i < |r| - 1 ==> r[i].end == r[i + 1].start)
    decreases Ordinal(end) - Ordinal(current)
  {
    if Before(current, end) {
      var next := Earlier(AddMonth(current), end);
      BeforeRaisesOrdinal(current, next);
      MonthlyChunksCover(next, end);
      var rest := MonthlyChunks(next, end);
      var r := MonthlyChunks(current, end);
      assert r == [DateRange(current, next)] + rest;
      if rest == [] {
        assert next == end;
      }
      forall i | 0 <= i < |r| - 1
        ensures r[i].end == r[i + 1].start
      {
        if i > 0 {
          assert r[i] == rest[i - 1] && r[i + 1] == rest[i];
        }
      }
    }
  }

  /** A chunk is non-empty and ends at most one (clamped) month after it starts. */
  predicate WithinAMonth(c: DateRange) {
    ValidDate(c.start) && Before(c.start, c.end) && NotAfter(c.end, AddMonth(c.start))
  }

  /** A chunk spans exactly one (clamped) month. */
  predicate AFullMonth(c: DateRange) {
    ValidDate(c.start) && c.end == AddMonth(c.start)
  }

  lemma FirstChunkSpan(current: Date, end: Date)
    requires ValidDate(current) && ValidDate(end) && Before(current, end)
    ensures WithinAMonth(MonthlyChunks(current, end)[0])
    ensures |MonthlyChunks(current, end)| > 1 ==> AFullMonth(MonthlyChunks(current, end)[0])
  {
    var next := Earlier(AddMonth(current), end);
    BeforeRaisesOrdinal(current, next);
    assert MonthlyChunks(current, end) == [DateRange(current, next)] + MonthlyChunks(next, end);
    if next == end {
      assert MonthlyChunks(next, end) == [];
    }
  }

  /** The i-th chunk spans at most one (clamped) month, and exactly one unless it is the last. */
  lemma {:induction false} ChunkSpan(current: Date, end: Date, i: nat)
    requires ValidDate(current) && ValidDate(end)
    requires i < |MonthlyChunks(current, end)|
    ensures WithinAMonth(MonthlyChunks(current, end)[i])
    ensures i < |MonthlyChunks(current, end)| - 1 ==> AFullMonth(MonthlyChunks(current, end)[i])
    decreases i
  {
    FirstChunkSpan(current, end);
    if i > 0 {
      var next := Earlier(AddMonth(current), end);
      BeforeRaisesOrdinal(current, next);
      assert MonthlyChunks(current, end) == [DateRange(current, next)] + MonthlyChunks(next, end);
      ChunkSpan(next, end, i - 1);
    }
  }

  /**
   * Each chunk is non-empty and spans at most one (clamped) month, and every chunk but the
   * last spans exactly one.
   */
  lemma MonthlyChunksSpan(current: Date, end: Date)
    requires ValidDate(current) && ValidDate(end)
    ensures var r := MonthlyChunks(current, end);
      && (forall i :: 0 <= i < |r| ==> WithinAMonth(r[i]))
      && (forall i :: 0 <= i < |r| - 1 ==> AFullMonth(r[i]))
  {
    var r := MonthlyChunks(current, end);
    forall i | 0 <= i < |r|
      ensures WithinAMonth(r[i])
      ensures i < |r| - 1 ==> AFullMonth(r[i])
    {
      ChunkSpan(current, end, i);
    }
  }

  /** The ASCII digit for 0 <= n <= 9. */
  function Digit(n: int): (c: char)
    requires 0 <= n <= 9
    ensures '0' <= c <= '9'
  {
    ('0' as int + n) as char
  }

  predicate IsDigit(c: char) {
    '0' <= c <= '9'
  }

  function DigitValue(c: char): (n: int)
    requires IsDigit(c)
    ensures 0 <= n <= 9
  {
    c as int - '0' as int
  }

  function TwoDigits(n: int): (s: string)
    requires 0 <= n <= 99
    ensures |s| == 2
  {
    [Digit(n / 10), Digit(n % 10)]
  }

  function FourDigits(n: int): (s: string)
    requires 0 <= n <= 9999
    ensures |s| == 4
  {
    [Digit(n / 1000), Digit(n / 100 % 10), Digit(n / 10 % 10), Digit(n % 10)]
  }

  /** The fixed time-of-day part of the format "%Y-%m-%dT%H:%M:%S.000Z" at midnight. */
  const MidnightSuffix: string := "T00:00:00.000Z"

  /** `strftime("%Y-%m-%dT%H:%M:%S.000Z")` of a midnight datetime. */
  function IsoTimestamp(d: Date): (s: string)
    requires ValidDate(d)
    ensures |s| == 24 && s[4] == '-' && s[7] == '-' && s[10..] == MidnightSuffix
  {
    FourDigits(d.year) + "-" + TwoDigits(d.month) + "-" + TwoDigits(d.day) + MidnightSuffix
  }

  /** The number written by a string of decimal digits. */
  function DecimalValue(s: string): (n: int)
    requires forall i :: 0 <= i < |s| ==> IsDigit(s[i])
    ensures n >= 0
  {
    if s == [] then 0 else DecimalValue(s[..|s| - 1]) * 10 + DigitValue(s[|s| - 1])
  }

  predicate AllDigits(s: string) {
    forall i :: 0 <= i < |s| ==> IsDigit(s[i])
  }

  /** Reads a midnight timestamp back; the inverse of IsoTimestamp. */
  function ParseIsoTimestamp(s: string): (r: Option<Date>)
    ensures r.Some? ==> ValidDate(r.value)
  {
    if |s| == 24 && s[4] == '-' && s[7] == '-' && s[10..] == MidnightSuffix
       && AllDigits(s[..4]) && AllDigits(s[5..7]) && AllDigits(s[8..10])
    then
      var d := Date(DecimalValue(s[..4]), DecimalValue(s[5..7]), DecimalValue(s[8..10]));
      if ValidDate(d) then Some(d) else None
    else None
  }

  lemma DigitRoundTrip(n: int)
    requires 0 <= n <= 9
    ensures IsDigit(Digit(n)) && DigitValue(Digit(n)) == n
  {
  }

  lemma TwoDigitsRoundTrip(n: int)
    requires 0 <= n <= 99
    ensures AllDigits(TwoDigits(n)) && DecimalValue(TwoDigits(n)) == n
  {
    var s := TwoDigits(n);
    DigitRoundTrip(n / 10);
    DigitRoundTrip(n % 10);
    assert s[..1] == [Digit(n / 10)];
    assert DecimalValue(s[..1]) == n / 10;
  }

  lemma FourDigitsRoundTrip(n: int)
    requires 0 <= n <= 9999
    ensures AllDigits(FourDigits(n)) && DecimalValue(FourDigits(n)) == n
  {
    var s := FourDigits(n);
    var hundreds := n / 100;
    assert hundreds / 10 == n / 1000 && hundreds % 10 == n / 100 % 10;
    assert (n / 10) / 10 == hundreds && (n / 10) % 10 == n / 10 % 10;
    DigitRoundTrip(n / 1000);
    DigitRoundTrip(n / 100 % 10);
    DigitRoundTrip(n / 10 % 10);
    DigitRoundTrip(n % 10);
    assert s[..1] == [Digit(n / 1000)];
    assert s[..2][..1] == s[..1];
    assert s[..3][..2] == s[..2];
    assert s[..4][..3] == s[..3];
    assert s[..4] == s;
    assert DecimalValue(s[..1]) == n / 1000;
    assert DecimalValue(s[..2]) == (n / 1000) * 10 + n / 100 % 10 == hundreds;
    assert DecimalValue(s[..3]) == hundreds * 10 + n / 10 % 10 == n / 10;
  }

  lemma {:induction false} IsoRoundTrip(d: Date)
    requires ValidDate(d)
    ensures ParseIsoTimestamp(IsoTimestamp(d)) == Some(d)
  {
    var s := IsoTimestamp(d);
    FourDigitsRoundTrip(d.year);
    TwoDigitsRoundTrip(d.month);
    TwoDigitsRoundTrip(d.day);
    assert s[..4] == FourDigits(d.year);
    assert s[5..7] == TwoDigits(d.month);
    assert s[8..10] == TwoDigits(d.day);
  }

  /** Distinct dates render as distinct timestamps. */
  lemma IsoTimestampInjective(a: Date, b: Date)
    requires ValidDate(a) && ValidDate(b) && IsoTimestamp(a) == IsoTimestamp(b)
    ensures a == b
  {
    IsoRoundTrip(a);
    IsoRoundTrip(b);
  }

  /** to_iso_date_range: the two endpoints rendered as timestamps. */
  function IsoDateRange(r: DateRange): (pair: seq<string>)
    requires ValidRange(r)
    ensures |pair| == 2
    ensures ParseIsoTimestamp(pair[0]) == Some(r.start) && ParseIsoTimestamp(pair[1]) == Some(r.end)
  {
    IsoRoundTrip(r.start);
    IsoRoundTrip(r.end);
    [IsoTimestamp(r.start), IsoTimestamp(r.end)]
  }

  /** Each chunk rendered by IsoDateRange, in order. */
  function IsoRanges(cs: seq<DateRange>): seq<seq<string>>
    requires forall i :: 0 <= i < |cs| ==> ValidRange(cs[i])
  {
    if cs == [] then [] else [IsoDateRange(cs[0])] + IsoRanges(cs[1..])
  }

  /** Rendering keeps one pair per chunk, each the chunk's own two timestamps. */
  lemma {:induction false} IsoRangesElementwise(cs: seq<DateRange>)
    requires forall i :: 0 <= i < |cs| ==> ValidRange(cs[i])
    ensures |IsoRanges(cs)| == |cs|
    ensures forall i :: 0 <= i < |cs| ==> IsoRanges(cs)[i] == IsoDateRange(cs[i])
  {
    if cs != [] {
      IsoRangesElementwise(cs[1..]);
    }
  }

  /** One turn of the monthly loop: the first chunk ends at the earlier of one month later and `end`. */
  lemma MonthlyChunksStep(current: Date, end: Date)
    requires ValidDate(current) && ValidDate(end) && Before(current, end)
    ensures ValidDate(Earlier(AddMonth(current), end))
    ensures Ordinal(current) < Ordinal(Earlier(AddMonth(current), end)) <= Ordinal(end)
    ensures IsoRanges(MonthlyChunks(current, end))
         == [IsoDateRange(DateRange(current, Earlier(AddMonth(current), end)))] + IsoRanges(MonthlyChunks(Earlier(AddMonth(current), end), end))
  {
    var next := Earlier(AddMonth(current), end);
    BeforeRaisesOrdinal(current, next);
    if Before(next, end) {
      BeforeRaisesOrdinal(next, end);
    }
    var cs := MonthlyChunks(current, end);
    assert cs == [DateRange(current, next)] + MonthlyChunks(next, end);
    assert cs[1..] == MonthlyChunks(next, end);
  }

  lemma AppendOneAssoc<T>(front: seq<T>, x: T, back: seq<T>)
    ensures front + ([x] + back) == (front + [x]) + back
  {
  }

  /** make_monthly_date_ranges: the loop that advances `current` one month at a time. */
  method MakeMonthlyDateRanges(start: Date, end: Date) returns (ranges: seq<seq<string>>)
    requires ValidDate(start) && ValidDate(end)
    ensures ranges == IsoRanges(MonthlyChunks(start, end))
  {
    ranges := [];
    var current := start;
    while Before(current, end)
      invariant ValidDate(current)
      invariant ranges + IsoRanges(MonthlyChunks(current, end)) == IsoRanges(MonthlyChunks(start, end))
      decreases Ordinal(end) - Ordinal(current)
    {
      var nextMonth := AddMonth(current);
      var rangeEnd := Earlier(nextMonth, end);
      MonthlyChunksStep(current, end);
      ghost var rest := IsoRanges(MonthlyChunks(rangeEnd, end));
      var pair := IsoDateRange(DateRange(current, rangeEnd));
      AppendOneAssoc(ranges, pair, rest);
      ranges := ranges + [pair];
      current := rangeEnd;
    }
  }
}
