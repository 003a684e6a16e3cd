/**
 * Calendar dates as ISO strings. One module of the source orders them as
 * strings, another as day numbers; this one proves when the two agree and what
 * the inclusive overlap arithmetic counts.
 */
module CalendarDates {
  import opened Common

  datatype DateError = BadDate | EndBeforeStart | SegmentOutsideTrip

  datatype DateRange = DateRange(start: string, end: string)

  // ----- Strings -----

  predicate IsDigit(c: char) { '0' <= c <= '9' }

  /** Four digits, two digits, two digits, joined by hyphens. */
  predicate IsoShape(s: string) {
    && |s| == 10 && s[4] == '-' && s[7] == '-'
    && IsDigit(s[0]) && IsDigit(s[1]) && IsDigit(s[2]) && IsDigit(s[3])
    && IsDigit(s[5]) && IsDigit(s[6]) && IsDigit(s[8]) && IsDigit(s[9])
  }

  function Digit(c: char): (d: int)
    requires IsDigit(c)
    ensures 0 <= d <= 9
  {
    c as int - '0' as int
  }

  function Year(s: string): (y: int)
    requires IsoShape(s)
    ensures 0 <= y <= 9999
  {
    1000 * Digit(s[0]) + 100 * Digit(s[1]) + 10 * Digit(s[2]) + Digit(s[3])
  }

  function Month(s: string): (m: int)
    requires IsoShape(s)
    ensures 0 <= m <= 99
  {
    10 * Digit(s[5]) + Digit(s[6])
  }

  function Day(s: string): (d: int)
    requires IsoShape(s)
    ensures 0 <= d <= 99
  {
    10 * Digit(s[8]) + Digit(s[9])
  }

  /** The string `<` of ECMAScript: lexicographic by code unit. */
  predicate StringLess(a: string, b: string) {
    if b == [] then false
    else if a == [] then true
    else a[0] < b[0] || (a[0] == b[0] && StringLess(a[1..], b[1..]))
  }

  lemma {:induction false} LessAtFirstDifference(a: string, b: string, i: nat)
    requires i < |a| && i < |b| && a[..i] == b[..i] && a[i] != b[i]
    ensures StringLess(a, b) <==> a[i] < b[i]
    decreases i
  {
    if i > 0 {
      assert a[0] == a[..i][0] && b[0] == b[..i][0];
      assert a[1..][..i - 1] == a[..i][1..] && b[1..][..i - 1] == b[..i][1..];
      LessAtFirstDifference(a[1..], b[1..], i - 1);
    }
  }

  lemma {:induction false} LessIrreflexive(a: string)
    ensures !StringLess(a, a)
  {
    if a != [] { LessIrreflexive(a[1..]); }
  }

  /** Year, month and day as one number; the calendar order of well-formed dates. */
  function Key(s: string): int
    requires IsoShape(s)
  {
    10000 * Year(s) + 100 * Month(s) + Day(s)
  }

  function FirstDifference(a: string, b: string): (i: nat)
    requires |a| == |b|
    ensures i <= |a| && a[..i] == b[..i] && (i < |a| ==> a[i] != b[i])
  {
    if a == [] || a[0] != b[0] then 0
    else
      var i := 1 + FirstDifference(a[1..], b[1..]);
      assert a[..i] == [a[0]] + a[1..][..i - 1] && b[..i] == [b[0]] + b[1..][..i - 1];
      i
  }

  /** On the ISO shape, string order is the order of (year, month, day). */
  lemma StringOrderIsKeyOrder(a: string, b: string)
    requires IsoShape(a) && IsoShape(b)
    ensures StringLess(a, b) <==> Key(a) < Key(b)
  {
    var i := FirstDifference(a, b);
    if i == 10 {
      assert a == a[..10] == b[..10] == b;
      LessIrreflexive(a);
    } else {
      LessAtFirstDifference(a, b, i);
      assert forall j :: 0 <= j < i ==> a[j] == a[..i][j] == b[j];
    }
  }

  // ----- Day numbers -----

  predicate IsLeapYear(y: int) { y % 4 == 0 && (y % 100 != 0 || y % 400 == 0) }

  const DAYS_IN_MONTH: seq<int> := [31, 28, 31, 30, 31, 30, 31, 31, 30, 31, 30, 31]
  const DAYS_BEFORE_MONTH: seq<int> := [0, 31, 59, 90, 120, 151, 181, 212, 243, 273, 304, 334]

  function MonthLimit(y: int, m: int): int
    requires 1 <= m <= 12
  {
    if m == 2 && IsLeapYear(y) then 29 else DAYS_IN_MONTH[m - 1]
  }

  /** Day number of 1 January. */
  function DayFromYear(y: int): int {
    365 * (y - 1970) + (y - 1969) / 4 - (y - 1901) / 100 + (y - 1601) / 400
  }

  /** Days of the year before month `m`, which counts from 0. */
  function DaysBefore(y: int, m: int): int
    requires 0 <= m < 12
  {
    DAYS_BEFORE_MONTH[m] + if m >= 2 && IsLeapYear(y) then 1 else 0
  }

  /** `Date.UTC` in whole days: month and date roll over, years 0 to 99 mean 1900 to 1999. */
  function FullYear(y: int): int { if 0 <= y <= 99 then 1900 + y else y }

  function DateUtc(y: int, month: int, date: int): int {
    var rolled := FullYear(y) + month / 12;
    DayFromYear(rolled) + DaysBefore(rolled, month % 12) + date - 1
  }

  function ToDayNumber(s: string): Result<int, DateError> {
    if !IsoShape(s) then Err(BadDate) else Ok(DateUtc(Year(s), Month(s) - 1, Day(s)))
  }

  // ----- Trip validation (string side) -----

  predicate ValidDate(s: string) {
    && IsoShape(s)
    && Year(s) >= 1
    && 1 <= Month(s) <= 12
    && 1 <= Day(s) <= MonthLimit(Year(s), Month(s))
  }

  function AssertOrderedRange(r: DateRange): Result<(), DateError> {
    if !ValidDate(r.start) || !ValidDate(r.end) then Err(BadDate)
    else if StringLess(r.end, r.start) then Err(EndBeforeStart)
    else Ok(())
  }

  function AssertSegmentContained(segment: DateRange, trip: DateRange): Result<(), DateError> {
    if AssertOrderedRange(segment).Err? then AssertOrderedRange(segment)
    else if AssertOrderedRange(trip).Err? then AssertOrderedRange(trip)
    else if StringLess(segment.start, trip.start) || StringLess(trip.end, segment.end) then Err(SegmentOutsideTrip)
    else Ok(())
  }

  // ----- Overlap arithmetic (day-number side) -----

  function AssertOrdered(r: DateRange): Result<(int, int), DateError> {
    match (ToDayNumber(r.end), ToDayNumber(r.start))
    case (Ok(end), Ok(start)) => if end < start then Err(EndBeforeStart) else Ok((start, end))
    case _ => Err(BadDate)
  }

  function StayLengthDays(r: DateRange): Result<int, DateError> {
    match AssertOrdered(r)
    case Err(e) => Err(e)
    case Ok(days) => Ok(days.1 - days.0 + 1)
  }

  function OverlapDays(a: DateRange, b: DateRange): Result<int, DateError> {
    match (AssertOrdered(a), AssertOrdered(b))
    case (Err(e), _) => Err(e)
    case (_, Err(e)) => Err(e)
    case (Ok(x), Ok(y)) => Ok(Max(0, Min(x.1, y.1) - Max(x.0, y.0) + 1))
  }

  function NormalizedOverlap(a: DateRange, b: DateRange): Result<real, DateError> {
    match OverlapDays(a, b)
    case Err(e) => Err(e)
    case Ok(shared) =>
      if shared == 0 then Ok(0.0)
      else
        var shorter := Min(StayLengthDays(a).value, StayLengthDays(b).value);
        Ok(shared as real / shorter as real)
  }

  /** The days on which the traveller is present; empty for a rejected range. */
  function DaysOf(r: DateRange): set<int> {
    match AssertOrdered(r)
    case Err(_) => {}
    case Ok(days) => Interval(days.0, days.1)
  }

  // ----- Day numbers follow the calendar -----

  lemma FourthYears(y: int)
    ensures (y - 1968) / 4 == (y - 1969) / 4 + if y % 4 == 0 then 1 else 0
  {
  }

  lemma Centuries(y: int)
    ensures (y - 1900) / 100 == (y - 1901) / 100 + if y % 100 == 0 then 1 else 0
  {
  }

  lemma FourthCenturies(y: int)
    ensures (y - 1600) / 400 == (y - 1601) / 400 + if y % 400 == 0 then 1 else 0
  {
  }

  lemma CenturiesAreFourthYears(y: int)
    ensures y % 100 == 0 ==> y % 4 == 0
    ensures y % 400 == 0 ==> y % 100 == 0
  {
  }

  lemma YearLength(y: int)
    ensures DayFromYear(y + 1) == DayFromYear(y) + 365 + if IsLeapYear(y) then 1 else 0
  {
    FourthYears(y);
    Centuries(y);
    FourthCenturies(y);
    CenturiesAreFourthYears(y);
  }

  lemma {:induction false} YearsMonotone(y: int, z: int)
    requires y < z
    ensures DayFromYear(y + 1) <= DayFromYear(z)
    decreases z - y
  {
    if y + 1 < z {
      YearsMonotone(y, z - 1);
      YearLength(z - 1);
    }
  }

  predicate ValidCivil(y: int, m: int, d: int) {
    1 <= m <= 12 && 1 <= d <= MonthLimit(y, m)
  }

  function CivilDay(y: int, m: int, d: int): int
    requires 1 <= m <= 12
  {
    DayFromYear(y) + DaysBefore(y, m - 1) + d - 1
  }

  lemma DateUtcOfCivil(y: int, m: int, d: int)
    requires 1 <= m <= 12
    ensures DateUtc(y, m - 1, d) == CivilDay(FullYear(y), m, d)
  {
    assert (m - 1) / 12 == 0 && (m - 1) % 12 == m - 1;
  }

  /** The two-digit-year rule keeps leap years, so it keeps validity. */
  lemma FullYearKeepsLeap(y: int)
    requires y >= 1
    ensures IsLeapYear(y) == IsLeapYear(FullYear(y))
  {
  }

  lemma MonthsMonotone(y: int, m: int, n: int)
    requires 1 <= m < n <= 12
    ensures DaysBefore(y, m - 1) + MonthLimit(y, m) <= DaysBefore(y, n - 1)
  {
  }

  lemma DayInYear(y: int, m: int, d: int)
    requires ValidCivil(y, m, d)
    ensures DayFromYear(y) <= CivilDay(y, m, d) < DayFromYear(y + 1)
  {
    YearLength(y);
    if m < 12 { MonthsMonotone(y, m, 12); }
  }

  predicate CivilLess(y: int, m: int, d: int, y2: int, m2: int, d2: int) {
    y < y2 || (y == y2 && (m < m2 || (m == m2 && d < d2)))
  }

  lemma CivilDayMonotone(y: int, m: int, d: int, y2: int, m2: int, d2: int)
    requires ValidCivil(y, m, d) && ValidCivil(y2, m2, d2) && CivilLess(y, m, d, y2, m2, d2)
    ensures CivilDay(y, m, d) < CivilDay(y2, m2, d2)
  {
    if y < y2 {
      DayInYear(y, m, d);
      DayInYear(y2, m2, d2);
      YearsMonotone(y, y2);
    } else if m < m2 {
      MonthsMonotone(y, m, m2);
    }
  }

  /** The day number of a valid date, by calendar fields. */
  lemma DayNumberOfDate(s: string)
    requires ValidDate(s)
    ensures ToDayNumber(s) == Ok(CivilDay(FullYear(Year(s)), Month(s), Day(s)))
    ensures ValidCivil(FullYear(Year(s)), Month(s), Day(s))
  {
    DateUtcOfCivil(Year(s), Month(s), Day(s));
    FullYearKeepsLeap(Year(s));
  }

  /** The key after the two-digit-year rule of `Date.UTC`. */
  function FullKey(s: string): int
    requires IsoShape(s)
  {
    10000 * FullYear(Year(s)) + 100 * Month(s) + Day(s)
  }

  lemma DayNumberMonotone(a: string, b: string)
    requires ValidDate(a) && ValidDate(b) && FullKey(a) < FullKey(b)
    ensures ToDayNumber(a).value < ToDayNumber(b).value
  {
    DayNumberOfDate(a);
    DayNumberOfDate(b);
    KeyOrderIsCivilOrder(FullYear(Year(a)), Month(a), Day(a), FullYear(Year(b)), Month(b), Day(b));
    CivilDayMonotone(FullYear(Year(a)), Month(a), Day(a), FullYear(Year(b)), Month(b), Day(b));
  }

  lemma KeyOrderIsCivilOrder(y: int, m: int, d: int, y2: int, m2: int, d2: int)
    requires 0 <= m <= 99 && 0 <= d <= 99 && 0 <= m2 <= 99 && 0 <= d2 <= 99
    ensures 10000 * y + 100 * m + d < 10000 * y2 + 100 * m2 + d2 <==> CivilLess(y, m, d, y2, m2, d2)
    ensures 10000 * y + 100 * m + d == 10000 * y2 + 100 * m2 + d2 <==> y == y2 && m == m2 && d == d2
  {
  }

  /** Day numbers order valid dates exactly as their full keys do. */
  lemma DayOrderIsFullKeyOrder(a: string, b: string)
    requires ValidDate(a) && ValidDate(b)
    ensures ToDayNumber(a).value < ToDayNumber(b).value <==> FullKey(a) < FullKey(b)
    ensures ToDayNumber(a).value == ToDayNumber(b).value <==> FullKey(a) == FullKey(b)
  {
    if FullKey(a) < FullKey(b) {
      DayNumberMonotone(a, b);
    } else if FullKey(b) < FullKey(a) {
      DayNumberMonotone(b, a);
    } else {
      DayNumberOfDate(a);
      DayNumberOfDate(b);
      KeyOrderIsCivilOrder(FullYear(Year(a)), Month(a), Day(a), FullYear(Year(b)), Month(b), Day(b));
    }
  }

  /** `Date.UTC` moves the years below 100, and only those. */
  predicate SameEra(a: string, b: string)
    requires IsoShape(a) && IsoShape(b)
  {
    Year(a) < 100 <==> Year(b) < 100
  }

  /** Either both years or neither are moved, or the moved date stays on its side of the other. */
  predicate OrdersAgree(a: string, b: string)
    requires IsoShape(a) && IsoShape(b)
  {
    || SameEra(a, b)
    || (Year(a) < 100 && Key(a) + 19_000_000 < Key(b))
    || (Year(b) < 100 && Key(b) + 19_000_000 <= Key(a))
  }

  /** Comparing strings and comparing day numbers is the same from year 100 on, and among the years before. */
  lemma StringOrderIsDayOrder(a: string, b: string)
    requires ValidDate(a) && ValidDate(b) && SameEra(a, b)
    ensures StringLess(a, b) <==> ToDayNumber(a).value < ToDayNumber(b).value
  {
    StringOrderIsKeyOrder(a, b);
    DayOrderIsFullKeyOrder(a, b);
  }

  /**
   * The exact condition for all valid dates: the two orders disagree only when
   * exactly one year is below 100 and moving it to the 1900s passes the other date.
   */
  lemma OrdersAgreeExactly(a: string, b: string)
    requires ValidDate(a) && ValidDate(b)
    ensures (StringLess(a, b) <==> ToDayNumber(a).value < ToDayNumber(b).value) <==> OrdersAgree(a, b)
  {
    StringOrderIsKeyOrder(a, b);
    DayOrderIsFullKeyOrder(a, b);
  }

  /** A range that trip validation accepts and the day arithmetic rejects. */
  lemma EarlyYearsDisagree()
    ensures AssertOrderedRange(DateRange("0050-01-01", "1949-12-31")) == Ok(())
    ensures StayLengthDays(DateRange("0050-01-01", "1949-12-31")) == Err(EndBeforeStart)
  {
    var a, b := "0050-01-01", "1949-12-31";
    assert Year(a) == 50 && Year(b) == 1949 && Month(a) == 1 && Month(b) == 12 && Day(a) == 1 && Day(b) == 31;
    assert ValidDate(a) && ValidDate(b);
    StringOrderIsKeyOrder(b, a);
    DayOrderIsFullKeyOrder(b, a);
  }

  predicate IsNextDay(y: int, m: int, d: int, y2: int, m2: int, d2: int)
    requires 1 <= m <= 12
  {
    if d < MonthLimit(y, m) then y2 == y && m2 == m && d2 == d + 1
    else if m < 12 then y2 == y && m2 == m + 1 && d2 == 1
    else y2 == y + 1 && m2 == 1 && d2 == 1
  }

  lemma NextCivilDay(y: int, m: int, d: int, y2: int, m2: int, d2: int)
    requires ValidCivil(y, m, d) && 1 <= m2 <= 12 && IsNextDay(y, m, d, y2, m2, d2)
    ensures CivilDay(y2, m2, d2) == CivilDay(y, m, d) + 1
  {
    if m == 12 { YearLength(y); } else { MonthsAdjacent(y, m); }
  }

  lemma MonthsAdjacent(y: int, m: int)
    requires 1 <= m < 12
    ensures DaysBefore(y, m) == DaysBefore(y, m - 1) + MonthLimit(y, m)
  {
  }

  /**
   * The day number is fixed by the epoch and by advancing one calendar day at a
   * time; the only next day that does not advance it by one is 1 January 100.
   */
  lemma DayNumberAdvances(a: string, b: string)
    requires ValidDate(a) && ValidDate(b)
    requires IsNextDay(Year(a), Month(a), Day(a), Year(b), Month(b), Day(b))
    ensures ToDayNumber(b).value == ToDayNumber(a).value + 1 <==> !(Year(a) == 99 && Year(b) == 100)
    ensures ToDayNumber("1970-01-01") == Ok(0)
  {
    DayNumberOfDate(a);
    DayNumberOfDate(b);
    if Year(a) == 99 && Year(b) == 100 {
      DayInYear(1999, Month(a), Day(a));
      DayInYear(100, Month(b), Day(b));
      YearsMonotone(100, 1999);
    } else {
      FullYearKeepsLeap(Year(a));
      NextCivilDay(FullYear(Year(a)), Month(a), Day(a), FullYear(Year(b)), Month(b), Day(b));
    }
    DayNumberOfEpoch();
  }

  /** The valid dates are 1 January of year 1 and every day that follows a valid date within four digits. */
  lemma NextDayIsValid(a: string, b: string)
    requires ValidDate(a) && IsoShape(b)
    requires IsNextDay(Year(a), Month(a), Day(a), Year(b), Month(b), Day(b))
    ensures ValidDate(b)
    ensures ValidDate("0001-01-01")
  {
    var first := "0001-01-01";
    assert Digit(first[0]) == 0 && Digit(first[1]) == 0 && Digit(first[2]) == 0 && Digit(first[3]) == 1;
    assert Digit(first[5]) == 0 && Digit(first[6]) == 1 && Digit(first[8]) == 0 && Digit(first[9]) == 1;
  }

  lemma DayNumberOfEpoch()
    ensures ToDayNumber("1970-01-01") == Ok(0)
  {
    EpochFields();
    DateUtcOfCivil(1970, 1, 1);
    EpochYear();
  }

  lemma EpochYear()
    ensures DayFromYear(1970) == 0
  {
  }

  lemma EpochFields()
    ensures var epoch := "1970-01-01";
            IsoShape(epoch) && Year(epoch) == 1970 && Month(epoch) == 1 && Day(epoch) == 1
  {
    var epoch := "1970-01-01";
    assert Digit(epoch[0]) == 1 && Digit(epoch[1]) == 9 && Digit(epoch[2]) == 7 && Digit(epoch[3]) == 0;
    assert Digit(epoch[5]) == 0 && Digit(epoch[6]) == 1 && Digit(epoch[8]) == 0 && Digit(epoch[9]) == 1;
  }

  // ----- What the overlap counts -----

  lemma OverlapIsIntersection(a: DateRange, b: DateRange)
    requires AssertOrdered(a).Ok? && AssertOrdered(b).Ok?
    ensures OverlapDays(a, b) == Ok(|DaysOf(a) * DaysOf(b)|)
  {
    var x, y := AssertOrdered(a).value, AssertOrdered(b).value;
    var lo, hi := Max(x.0, y.0), Min(x.1, y.1);
    if lo <= hi {
      assert DaysOf(a) * DaysOf(b) == Interval(lo, hi);
      IntervalSize(lo, hi);
    } else {
      assert DaysOf(a) * DaysOf(b) == {};
    }
  }

  /** The inclusive formula equals the half-open one on `[start, end + 1)`; `None` is an empty intersection. */
  lemma OverlapMatchesHalfOpen(a: DateRange, b: DateRange)
    requires AssertOrdered(a).Ok? && AssertOrdered(b).Ok?
    ensures var x, y := AssertOrdered(a).value, AssertOrdered(b).value;
            var lower, upper := Max(x.0, y.0), Min(x.1 + 1, y.1 + 1);
            OverlapDays(a, b) == Ok(if lower < upper then upper - lower else 0)
  {
  }

  /**
   * A range is refused exactly when an end is no ISO date or its last day precedes
   * its first; otherwise it covers all days between.
   */
  lemma DaysAreThoseBetween(r: DateRange, d: int)
    ensures AssertOrdered(r) == Err(BadDate) <==> !IsoShape(r.start) || !IsoShape(r.end)
    ensures AssertOrdered(r) == Err(EndBeforeStart) <==>
              IsoShape(r.start) && IsoShape(r.end) && ToDayNumber(r.end).value < ToDayNumber(r.start).value
    ensures AssertOrdered(r).Ok? ==>
              (d in DaysOf(r) <==> ToDayNumber(r.start).value <= d <= ToDayNumber(r.end).value)
  {
  }

  lemma StayLengthCountsDays(r: DateRange)
    requires AssertOrdered(r).Ok?
    ensures StayLengthDays(r) == Ok(|DaysOf(r)|) && |DaysOf(r)| >= 1
  {
    IntervalSize(AssertOrdered(r).value.0, AssertOrdered(r).value.1);
  }

  lemma QuotientInUnit(n: int, d: int)
    requires 0 <= n <= d && d > 0
    ensures 0.0 <= n as real / d as real <= 1.0
    ensures n as real / d as real == 1.0 <==> n == d
  {
    var q := n as real / d as real;
    assert q * d as real == n as real;
    if q > 1.0 { ScaleGrows(q, d as real); }
    if q < 0.0 { ScaleSign(q, d as real); }
  }

  lemma ScaleGrows(q: real, d: real)
    requires q > 1.0 && d > 0.0
    ensures q * d > d
  {
  }

  lemma ScaleSign(q: real, d: real)
    requires q < 0.0 && d > 0.0
    ensures q * d < 0.0
  {
  }

  /** A set no larger than another contains the common part of both, and equals it only as a subset. */
  lemma CommonPart<T>(xs: set<T>, ys: set<T>)
    ensures |xs * ys| <= |xs|
    ensures |xs * ys| == |xs| <==> xs <= ys
  {
    SubsetSize(xs * ys, xs);
    assert xs == xs * ys + (xs - ys);
    assert |xs| == |xs * ys| + |xs - ys|;
    if xs <= ys { assert xs * ys == xs; }
    if |xs * ys| == |xs| { assert xs - ys == {}; }
  }

  lemma SharedOfShorter(x: set<int>, y: set<int>)
    requires |x| >= 1 && |y| >= 1
    ensures |x * y| <= Min(|x|, |y|)
    ensures |x * y| == Min(|x|, |y|) <==> x <= y || y <= x
    ensures |x * y| == 0 <==> x !! y
  {
    CommonPart(x, y);
    CommonPart(y, x);
    assert x * y == y * x;
    if x * y != {} {
      var z := Pick(x * y);
      assert z in x && z in y;
    } else {
      assert forall z :: z in x ==> z !in x * y;
    }
  }

  lemma QuotientIsZero(n: int, d: int)
    requires 0 < n && 0 < d
    ensures n as real / d as real != 0.0
  {
    assert n as real / d as real * d as real == n as real;
  }

  /** The common elements as a part of the smaller set. */
  ghost function Share(x: set<int>, y: set<int>): real
    requires |x| >= 1 && |y| >= 1
  {
    |x * y| as real / Min(|x|, |y|) as real
  }

  lemma ShareRange(x: set<int>, y: set<int>)
    requires |x| >= 1 && |y| >= 1
    ensures 0.0 <= Share(x, y) <= 1.0
    ensures Share(x, y) == 1.0 <==> x <= y || y <= x
    ensures Share(x, y) == 0.0 <==> x !! y
  {
    SharedOfShorter(x, y);
    var shared, shorter := |x * y|, Min(|x|, |y|);
    QuotientInUnit(shared, shorter);
    if shared > 0 { QuotientIsZero(shared, shorter); }
  }

  lemma ZeroQuotient(d: int)
    requires d > 0
    ensures 0 as real / d as real == 0.0
  {
  }

  lemma NormalizedOverlapIsShare(a: DateRange, b: DateRange)
    requires AssertOrdered(a).Ok? && AssertOrdered(b).Ok?
    ensures |DaysOf(a)| >= 1 && |DaysOf(b)| >= 1
    ensures NormalizedOverlap(a, b) == Ok(Share(DaysOf(a), DaysOf(b)))
  {
    OverlapIsIntersection(a, b);
    StayLengthCountsDays(a);
    StayLengthCountsDays(b);
    ZeroQuotient(Min(|DaysOf(a)|, |DaysOf(b)|));
  }

  /**
   * The normalised overlap is the number of shared days divided by the number of
   * days of the shorter stay; it lies in [0, 1], is 1 exactly when one stay contains
   * the other, and 0 exactly when they share no day.
   */
  lemma NormalizedOverlapRange(a: DateRange, b: DateRange)
    requires AssertOrdered(a).Ok? && AssertOrdered(b).Ok?
    ensures |DaysOf(a)| >= 1 && |DaysOf(b)| >= 1
    ensures var n := NormalizedOverlap(a, b);
            && n == Ok(Share(DaysOf(a), DaysOf(b))) && 0.0 <= n.value <= 1.0
            && (n.value == 1.0 <==> DaysOf(a) <= DaysOf(b) || DaysOf(b) <= DaysOf(a))
            && (n.value == 0.0 <==> DaysOf(a) !! DaysOf(b))
  {
    NormalizedOverlapIsShare(a, b);
    ShareRange(DaysOf(a), DaysOf(b));
  }

  /** A range of valid dates is accepted by trip validation and by day arithmetic alike exactly when the orders agree on it. */
  lemma ValidRangesAreOrdered(r: DateRange)
    requires ValidDate(r.start) && ValidDate(r.end)
    ensures (AssertOrderedRange(r).Ok? <==> AssertOrdered(r).Ok?) <==> OrdersAgree(r.end, r.start)
  {
    OrdersAgreeExactly(r.end, r.start);
  }

  /**
   * Where the orders agree on the four comparisons, a segment is accepted for a
   * trip exactly when all of its days are days of the trip.
   */
  lemma SegmentContainedMeansSubset(segment: DateRange, trip: DateRange)
    requires AssertOrderedRange(segment).Ok? && AssertOrderedRange(trip).Ok?
    requires OrdersAgree(segment.end, segment.start) && OrdersAgree(trip.end, trip.start)
    requires OrdersAgree(segment.start, trip.start) && OrdersAgree(trip.end, segment.end)
    ensures AssertSegmentContained(segment, trip).Ok? <==> DaysOf(segment) <= DaysOf(trip)
    ensures AssertSegmentContained(segment, trip).Ok? ==> OverlapDays(segment, trip) == StayLengthDays(segment)
  {
    ValidRangesAreOrdered(segment);
    ValidRangesAreOrdered(trip);
    OrdersAgreeExactly(segment.start, trip.start);
    OrdersAgreeExactly(trip.end, segment.end);
    var x, y := AssertOrdered(segment).value, AssertOrdered(trip).value;
    IntervalWithin(x.0, x.1, y.0, y.1);
    OverlapIsIntersection(segment, trip);
    StayLengthCountsDays(segment);
    CommonPart(DaysOf(segment), DaysOf(trip));
  }

  lemma IntervalWithin(a: int, b: int, c: int, d: int)
    requires a <= b
    ensures Interval(a, b) <= Interval(c, d) <==> c <= a && b <= d
  {
    assert a in Interval(a, b) && b in Interval(a, b);
  }
}
