/** `OSFLoaderUtils`: the last path segment of a link, and OSF date query parameters. */
module LoaderUtils {
  import opened Wrappers

  /** Joda instants: milliseconds since 1970-01-01T00:00:00Z. */
  type Instant = int

  const DayMillis: int := 86400000

  /** `s.lastIndexOf(c)`: the last position holding `c`, or -1. */
  function LastIndexOf(s: string, c: char): (r: int)
    ensures -1 <= r < |s|
    ensures r >= 0 ==> s[r] == c
    ensures forall k :: r < k < |s| ==> s[k] != c
  {
    if s == [] then -1
    else if s[|s| - 1] == c then |s| - 1
    else LastIndexOf(s[..|s| - 1], c)
  }

  /** The link with one trailing '/' removed. */
  function TrimTrailingSlash(s: string): string
  {
    if |s| > 0 && s[|s| - 1] == '/' then s[..|s| - 1] else s
  }

  /**
   * `extractLastSubFolder`: null for a null or empty link or one without '/';
   * otherwise, after dropping one trailing '/', everything after the last '/'.
   */
  function ExtractLastSubFolder(link: Option<string>): (r: Option<string>)
    ensures r.None? <==> (link.None? || '/' !in link.value)
    ensures r.Some? ==> '/' !in r.value
    ensures r.Some? ==> var t := TrimTrailingSlash(link.value); var n := |t| - |r.value|;
      0 <= n && t[n..] == r.value && (n == 0 || t[n - 1] == '/')
  {
    if link.Some? && |link.value| > 0 && '/' in link.value then
      var t := TrimTrailingSlash(link.value);
      var i := LastIndexOf(t, '/');
      Some(t[i + 1..])
    else None
  }

  /** The example in the method's documentation. */
  lemma ExtractExample()
    ensures ExtractLastSubFolder(Some("https://api.osf.io/v2/registrations/sdfkj/")) == Some("sdfkj")
  {
    var t := "https://api.osf.io/v2/registrations/sdfkj";
    assert TrimTrailingSlash("https://api.osf.io/v2/registrations/sdfkj/") == t;
    assert t[35] == '/';
    assert LastIndexOf(t, '/') == 35;
  }

  // ---- dates -------------------------------------------------------------

  /** A proleptic Gregorian calendar date. */
  datatype CivilDate = CivilDate(year: int, month: int, day: int)

  /** Gregorian leap years: every fourth year, except centuries not divisible by 400. */
  predicate IsLeapYear(y: int)
  {
    y % 4 == 0 && (y % 100 != 0 || y % 400 == 0)
  }

  function DaysInMonth(y: int, m: int): int
  {
    if m == 2 then (if IsLeapYear(y) then 29 else 28)
    else if m == 4 || m == 6 || m == 9 || m == 11 then 30
    else 31
  }

  /** A date that exists on the calendar. */
  predicate ValidDate(d: CivilDate)
  {
    1 <= d.month <= 12 && 1 <= d.day <= DaysInMonth(d.year, d.month)
  }

  /** The UTC day number (days since 1970-01-01) of an instant; division is floor. */
  function DayIndex(t: Instant): int { t / DayMillis }

  /**
   * The day number of a date, counted from 1970-01-01: whole 400-year eras, then
   * years of the era, then days of the year, years starting on 1 March.
   */
  function DaysFromCivil(d: CivilDate): int
  {
    var y := if d.month <= 2 then d.year - 1 else d.year;
    var era := y / 400;
    var yoe := y - era * 400;
    var mp := if d.month > 2 then d.month - 3 else d.month + 9;
    var doy := (153 * mp + 2) / 5 + d.day - 1;
    var doe := yoe * 365 + yoe / 4 - yoe / 100 + doy;
    era * 146097 + doe - 719468
  }

  /**
   * The calendar date of a day number. Days are counted from 0000-03-01 so that a
   * leap day ends each 400-year era; the date is one that exists
   * (`DaysFromCivilOfCivil` shows it is the date whose day number is `days`).
   */
  function CivilFromDays(days: int): (d: CivilDate)
    ensures ValidDate(d) && d.day <= 31
  {
    var z := days + 719468;
    var era := z / 146097;
    var doe := z % 146097;
    var (yoe, doy) := SplitEra(doe);
    var (mp, d) := SplitYear(doy);
    var m := if mp < 10 then mp + 3 else mp - 9;
    var y := era * 400 + yoe + (if m <= 2 then 1 else 0);
    DateOfParts(era, yoe, doy, mp, d);
    CivilDate(y, m, d)
  }

  /** `DaysFromCivil` undoes `CivilFromDays`: the date of a day number has that day number. */
  lemma DaysFromCivilOfCivil(days: int)
    ensures DaysFromCivil(CivilFromDays(days)) == days
  {
    var era, doe := (days + 719468) / 146097, (days + 719468) % 146097;
    var e := SplitEra(doe);
    var yd := SplitYear(e.1);
    CivilFromDaysAt(days, era, doe, e.0, e.1, yd.0, yd.1);
    DaysOfParts(days, era, doe, e.0, e.1, yd.0, yd.1);
  }

  /** The day number of the date assembled from the parts `CivilFromDays` splits `n` into. */
  lemma DaysOfParts(n: int, era: int, doe: int, yoe: int, doy: int, mp: int, d: int)
    requires n + 719468 == era * 146097 + doe && 0 <= doe < 146097
    requires SplitEra(doe) == (yoe, doy) && SplitYear(doy) == (mp, d)
    ensures var m := if mp < 10 then mp + 3 else mp - 9;
      DaysFromCivil(CivilDate(era * 400 + yoe + (if m <= 2 then 1 else 0), m, d)) == n
  {
    DateOfParts(era, yoe, doy, mp, d);
  }

  /** The date assembled from an era, a year of the era, a month and a day. */
  lemma DateOfParts(era: int, yoe: int, doy: int, mp: int, d: int)
    requires 0 <= yoe < 400 && 0 <= doy <= 365
    requires doy == 365 ==> (yoe + 1) % 4 == 0 && ((yoe + 1) % 100 != 0 || yoe == 399)
    requires 0 <= mp <= 11 && 1 <= d && (153 * mp + 2) / 5 + d - 1 == doy
    requires d <= (if mp == 11 then (if doy == 365 then 29 else 28)
                   else if mp == 1 || mp == 3 || mp == 6 || mp == 8 then 30 else 31)
    ensures var m := if mp < 10 then mp + 3 else mp - 9;
      var date := CivilDate(era * 400 + yoe + (if m <= 2 then 1 else 0), m, d);
      ValidDate(date)
      && DaysFromCivil(date) == era * 146097 + yoe * 365 + yoe / 4 - yoe / 100 + doy - 719468
  {
    var m := if mp < 10 then mp + 3 else mp - 9;
    var y := era * 400 + yoe + (if m <= 2 then 1 else 0);
    assert DaysFromCivil(CivilDate(y, m, d)) == era * 146097 + yoe * 365 + yoe / 4 - yoe / 100 + doy - 719468 by {
      assert (era * 400 + yoe) / 400 == era;
    }
    LeapDayOfParts(era, yoe, m, doy, y);
  }

  /** Day 365 of a year of the era is 29 February of a leap year. */
  lemma LeapDayOfParts(era: int, yoe: int, m: int, doy: int, y: int)
    requires 0 <= yoe < 400
    requires doy == 365 ==> (yoe + 1) % 4 == 0 && ((yoe + 1) % 100 != 0 || yoe == 399)
    requires y == era * 400 + yoe + (if m <= 2 then 1 else 0)
    ensures m == 2 && doy == 365 ==> IsLeapYear(y)
  {
    if m == 2 && doy == 365 {
      var k := yoe + 1;
      var e := era * 4;
      assert y == 100 * e + k;
      RemainderBy4(25 * e + k / 4, k % 4);
      RemainderBy100(e, k);
      RemainderBy400(era, k);
    }
  }

  /** The remainders by 4, 100 and 400 that the leap rule reads. */
  lemma RemainderBy4(q: int, r: int)
    requires 0 <= r < 4
    ensures (4 * q + r) % 4 == r
  {
  }

  lemma RemainderBy100(q: int, k: int)
    requires 0 <= k <= 400
    ensures (100 * q + k) % 100 == k % 100
  {
    assert 100 * q + k == 100 * (q + k / 100) + k % 100;
  }

  lemma RemainderBy400(q: int, k: int)
    requires 0 <= k <= 400
    ensures (400 * q + k) % 400 == k % 400
  {
    assert 400 * q + k == 400 * (q + k / 400) + k % 400;
  }

  /**
   * A day of a 400-year era split into the year of the era and the day of that year:
   * four centuries of 36524 days (the last has 36525), each of four-year cycles of
   * 1461 days (the last may have 1460), each of years of 365 days (the last has 366).
   * Day 365 of a year falls at the end of a leap cycle.
   */
  function SplitEra(doe: int): (r: (int, int))
    requires 0 <= doe < 146097
    ensures 0 <= r.0 < 400 && 0 <= r.1 <= 365
    ensures doe == r.0 * 365 + r.0 / 4 - r.0 / 100 + r.1
    ensures r.1 == 365 ==> (r.0 + 1) % 4 == 0 && ((r.0 + 1) % 100 != 0 || r.0 == 399)
  {
    var cent := if doe / 36524 < 3 then doe / 36524 else 3;
    var doc := doe - cent * 36524;
    var quad := doc / 1461;
    var doq := doc - quad * 1461;
    var yr := if doq / 365 < 3 then doq / 365 else 3;
    var doy := doq - yr * 365;
    assert 0 <= quad <= 24 && 0 <= yr <= 3;
    assert cent < 3 ==> doc < 36524;
    var yoe := cent * 100 + quad * 4 + yr;
    assert yoe / 4 == cent * 25 + quad && yoe / 100 == cent;
    assert doy == 365 ==> yr == 3 && (quad == 24 ==> cent == 3);
    (yoe, doy)
  }

  /**
   * A day of a March-based year split into the month counted from March (0-11) and
   * the day of that month, which the month's length bounds: February (month 11) has
   * 29 days only when the year has 366.
   */
  function SplitYear(doy: int): (r: (int, int))
    requires 0 <= doy <= 365
    ensures 0 <= r.0 <= 11 && 1 <= r.1
    ensures (153 * r.0 + 2) / 5 + r.1 - 1 == doy
    ensures r.1 <= (if r.0 == 11 then (if doy == 365 then 29 else 28)
                    else if r.0 == 1 || r.0 == 3 || r.0 == 6 || r.0 == 8 then 30 else 31)
  {
    var mp := (5 * doy + 2) / 153;
    assert 153 * mp <= 5 * doy + 2 < 153 * mp + 153;
    (mp, doy - (153 * mp + 2) / 5 + 1)
  }

  /** Every date that exists is the date of its day number. */
  lemma CivilOfDaysFromCivil(date: CivilDate)
    requires ValidDate(date)
    ensures CivilFromDays(DaysFromCivil(date)) == date
  {
    var y := if date.month <= 2 then date.year - 1 else date.year;
    var era := y / 400;
    var yoe := y - era * 400;
    var mp := if date.month > 2 then date.month - 3 else date.month + 9;
    var doy := (153 * mp + 2) / 5 + date.day - 1;
    SplitYearUnique(doy, mp, date.day);
    LeapDayOfEra(date, era, yoe, doy);
    SplitEraUnique(yoe, doy);
    var doe := yoe * 365 + yoe / 4 - yoe / 100 + doy;
    var n := DaysFromCivil(date);
    DaysFromCivilOfParts(date, era, yoe, mp, doy);
    CivilFromDaysAt(n, era, doe, yoe, doy, mp, date.day);
  }

  /** `DaysFromCivil` in terms of the era, year of the era and day of the year it computes. */
  lemma DaysFromCivilOfParts(date: CivilDate, era: int, yoe: int, mp: int, doy: int)
    requires era == (if date.month <= 2 then date.year - 1 else date.year) / 400
    requires yoe == (if date.month <= 2 then date.year - 1 else date.year) - era * 400
    requires mp == (if date.month > 2 then date.month - 3 else date.month + 9)
    requires doy == (153 * mp + 2) / 5 + date.day - 1
    ensures DaysFromCivil(date) + 719468 == era * 146097 + yoe * 365 + yoe / 4 - yoe / 100 + doy
  {
  }

  /** 29 February ends a four-year cycle of its era that keeps its leap day. */
  lemma LeapDayOfEra(date: CivilDate, era: int, yoe: int, doy: int)
    requires ValidDate(date) && 0 <= yoe < 400
    requires era * 400 + yoe == (if date.month <= 2 then date.year - 1 else date.year)
    requires doy == 365 ==> date.month == 2 && date.day == 29
    ensures doy == 365 ==> (yoe + 1) % 4 == 0 && ((yoe + 1) % 100 != 0 || yoe == 399)
  {
    if doy == 365 {
      var k := yoe + 1;
      assert date.year == 400 * era + k;
      RemainderBy4(100 * era + k / 4, k % 4);
      RemainderBy100(4 * era, k);
      RemainderBy400(era, k);
    }
  }

  /** `CivilFromDays` on a day number given by its era, its year of the era and its day. */
  lemma CivilFromDaysAt(n: int, era: int, doe: int, yoe: int, doy: int, mp: int, d: int)
    requires n + 719468 == era * 146097 + doe && 0 <= doe < 146097
    requires SplitEra(doe) == (yoe, doy) && SplitYear(doy) == (mp, d)
    ensures var m := if mp < 10 then mp + 3 else mp - 9;
      CivilFromDays(n) == CivilDate(era * 400 + yoe + (if m <= 2 then 1 else 0), m, d)
  {
    assert (n + 719468) / 146097 == era && (n + 719468) % 146097 == doe;
  }

  /** A month and a day within its length are what `SplitYear` recovers. */
  lemma SplitYearUnique(doy: int, mp: int, d: int)
    requires 0 <= mp <= 11 && 1 <= d && doy == (153 * mp + 2) / 5 + d - 1
    requires d <= (if mp == 11 then 29 else if mp == 1 || mp == 3 || mp == 6 || mp == 8 then 30 else 31)
    ensures 0 <= doy <= 365 && SplitYear(doy) == (mp, d)
    ensures doy == 365 <==> mp == 11 && d == 29
  {
    var q := (5 * doy + 2) / 153;
    assert 153 * mp <= 5 * doy + 2 < 153 * mp + 153;
    assert q == mp;
  }

  /** A year of the era and a day of it are what `SplitEra` recovers. */
  lemma SplitEraUnique(yoe: int, doy: int)
    requires 0 <= yoe < 400 && 0 <= doy <= 365
    requires doy == 365 ==> (yoe + 1) % 4 == 0 && ((yoe + 1) % 100 != 0 || yoe == 399)
    ensures var doe := yoe * 365 + yoe / 4 - yoe / 100 + doy;
      0 <= doe < 146097 && SplitEra(doe) == (yoe, doy)
  {
    var cent := yoe / 100;
    var quad := (yoe - cent * 100) / 4;
    var yr := yoe - cent * 100 - quad * 4;
    assert yoe / 4 == cent * 25 + quad;
    var doe := yoe * 365 + yoe / 4 - yoe / 100 + doy;
    assert doe == cent * 36524 + quad * 1461 + yr * 365 + doy;
    assert doy == 365 ==> yr == 3 && (quad == 24 ==> cent == 3);
    SplitEraAt(doe, cent, quad, yr, doy);
  }

  /** `SplitEra` on a day of the era given by its century, cycle, year and day. */
  lemma SplitEraAt(doe: int, cent: int, quad: int, yr: int, doy: int)
    requires 0 <= cent <= 3 && 0 <= quad <= 24 && 0 <= yr <= 3 && 0 <= doy <= 365
    requires doe == cent * 36524 + quad * 1461 + yr * 365 + doy
    requires doy == 365 ==> yr == 3 && (quad == 24 ==> cent == 3)
    ensures 0 <= doe < 146097 && SplitEra(doe) == (cent * 100 + quad * 4 + yr, doy)
  {
    var doc := doe - cent * 36524;
    assert 0 <= doc && (cent < 3 ==> doc < 36524);
    assert (if doe / 36524 < 3 then doe / 36524 else 3) == cent;
    assert doc / 1461 == quad;
    var doq := doc - quad * 1461;
    assert 0 <= doq < 1461 && (yr < 3 ==> doq < yr * 365 + 365);
    assert (if doq / 365 < 3 then doq / 365 else 3) == yr;
  }


  /** The decimal digit character of `n`. */
  function Digit(n: int): (c: char)
    requires 0 <= n < 10
    ensures '0' <= c <= '9' && DigitValue(c) == n
  {
    ('0' as int + n) as char
  }

  function DigitValue(c: char): int
  {
    c as int - '0' as int
  }

  /** The number a string of decimal digits denotes, read from the left. */
  function DecimalValue(s: string): int
  {
    if s == [] then 0 else 10 * DecimalValue(s[..|s| - 1]) + DigitValue(s[|s| - 1])
  }

  /** `n` in decimal, padded with zeros on the left to at least `width` digits. */
  function Pad(n: nat, width: nat): (r: string)
    ensures |r| >= width
    ensures n < Pow10(width) ==> |r| == width
    ensures forall k :: 0 <= k < |r| ==> '0' <= r[k] <= '9'
    ensures DecimalValue(r) == n
    decreases width + n
  {
    if n == 0 && width == 0 then ""
    else
      var rest := Pad(n / 10, if width > 0 then width - 1 else 0);
      var r := rest + [Digit(n % 10)];
      assert r[..|r| - 1] == rest;
      r
  }

  function Pow10(k: nat): nat
  {
    if k == 0 then 1 else 10 * Pow10(k - 1)
  }

  /** Joda's `toString("yyyy-MM-dd")` of a date. */
  function FormatDate(d: CivilDate): string
    requires 1 <= d.month <= 12 && 1 <= d.day <= 31
  {
    var y := if d.year < 0 then "-" + Pad(-d.year, 4) else Pad(d.year, 4);
    y + "-" + Pad(d.month, 2) + "-" + Pad(d.day, 2)
  }

  /** The shape of an OSF date parameter: four digits, '-', two digits, '-', two digits. */
  predicate IsOsfDateParam(s: string)
  {
    |s| == 10 && s[4] == '-' && s[7] == '-'
    && forall k :: 0 <= k < 10 && k != 4 && k != 7 ==> '0' <= s[k] <= '9'
  }

  /** `convertToOsfDateParam`: the UTC calendar date of the instant as "yyyy-MM-dd". */
  function ConvertToOsfDateParam(t: Instant): (r: string)
    ensures 0 <= CivilFromDays(DayIndex(t)).year <= 9999 ==> IsOsfDateParam(r)
  {
    var d := CivilFromDays(DayIndex(t));
    FormatDateFields(d);
    FormatDate(d)
  }

  /**
   * For a four-digit year the three fields of the parameter read back as the year, the
   * month and the day of the instant's UTC calendar date.
   */
  lemma OsfDateParamFields(t: Instant)
    ensures var d, r := CivilFromDays(DayIndex(t)), ConvertToOsfDateParam(t);
      0 <= d.year <= 9999 ==>
        && IsOsfDateParam(r)
        && DecimalValue(r[..4]) == d.year && DecimalValue(r[5..7]) == d.month && DecimalValue(r[8..]) == d.day
  {
    FormatDateFields(CivilFromDays(DayIndex(t)));
  }

  /** A date with a four-digit year prints as its year, month and day, each zero-padded. */
  lemma FormatDateFields(d: CivilDate)
    requires 1 <= d.month <= 12 && 1 <= d.day <= 31
    ensures var r := FormatDate(d);
      0 <= d.year <= 9999 ==>
      && IsOsfDateParam(r)
      && DecimalValue(r[..4]) == d.year && DecimalValue(r[5..7]) == d.month && DecimalValue(r[8..]) == d.day
  {
    if 0 <= d.year <= 9999 {
      assert Pow10(2) == 100 && Pow10(4) == 10000;
      var y, m, n := Pad(d.year, 4), Pad(d.month, 2), Pad(d.day, 2);
      var r := y + "-" + m + "-" + n;
      assert FormatDate(d) == r;
      assert r[..4] == y && r[5..7] == m && r[8..] == n;
    }
  }

  /** The parameter of an instant is the date of the calendar day that contains it. */
  lemma OsfDateParamOfDay(t: Instant, date: CivilDate)
    requires ValidDate(date)
    requires DaysFromCivil(date) * DayMillis <= t < (DaysFromCivil(date) + 1) * DayMillis
    ensures ConvertToOsfDateParam(t) == FormatDate(date)
  {
    var n := DaysFromCivil(date);
    assert DayIndex(t) == n;
    CivilOfDaysFromCivil(date);
  }

  /** Day numbers around the epoch, leap days and a century that is not a leap year. */
  lemma KnownDays()
    ensures CivilFromDays(0) == CivilDate(1970, 1, 1)
    ensures CivilFromDays(-1) == CivilDate(1969, 12, 31)
    ensures CivilFromDays(11016) == CivilDate(2000, 2, 29)
    ensures CivilFromDays(11017) == CivilDate(2000, 3, 1)
    ensures CivilFromDays(-25509) == CivilDate(1900, 2, 28)
    ensures CivilFromDays(19782) == CivilDate(2024, 2, 29)
  {
    DaysOfEpoch();
    KnownDay(CivilDate(1970, 1, 1), 0);
    DaysOfEpochEve();
    KnownDay(CivilDate(1969, 12, 31), -1);
    KnownLeapDays();
  }

  /** The leap days of 2000 and 2024, the day after one, and 28 February 1900. */
  lemma KnownLeapDays()
    ensures CivilFromDays(11016) == CivilDate(2000, 2, 29)
    ensures CivilFromDays(11017) == CivilDate(2000, 3, 1)
    ensures CivilFromDays(-25509) == CivilDate(1900, 2, 28)
    ensures CivilFromDays(19782) == CivilDate(2024, 2, 29)
  {
    DaysOf2000Feb29();
    KnownDay(CivilDate(2000, 2, 29), 11016);
    DaysOf2000Mar1();
    KnownDay(CivilDate(2000, 3, 1), 11017);
    DaysOf1900Feb28();
    KnownDay(CivilDate(1900, 2, 28), -25509);
    DaysOf2024Feb29();
    KnownDay(CivilDate(2024, 2, 29), 19782);
  }

  /** A date that exists is the date of its day number `n`. */
  lemma KnownDay(date: CivilDate, n: int)
    requires ValidDate(date) && DaysFromCivil(date) == n
    ensures CivilFromDays(n) == date
  {
    CivilOfDaysFromCivil(date);
  }

  lemma DaysOfEpoch()
    ensures DaysFromCivil(CivilDate(1970, 1, 1)) == 0
  {
  }

  lemma DaysOfEpochEve()
    ensures DaysFromCivil(CivilDate(1969, 12, 31)) == -1
  {
  }

  lemma DaysOf1900Feb28()
    ensures DaysFromCivil(CivilDate(1900, 2, 28)) == -25509
  {
  }

  lemma DaysOf2000Feb29()
    ensures DaysFromCivil(CivilDate(2000, 2, 29)) == 11016
  {
  }

  lemma DaysOf2000Mar1()
    ensures DaysFromCivil(CivilDate(2000, 3, 1)) == 11017
  {
  }

  lemma DaysOf2024Feb29()
    ensures DaysFromCivil(CivilDate(2024, 2, 29)) == 19782
  {
  }

  /** `previousDayAsString`: the date parameter of the day before, the calendar date of the preceding day number. */
  function PreviousDayAsString(t: Instant): (r: string)
    ensures r == DayParam(DayIndex(t) - 1)
  {
    DayIndexBefore(t);
    DateParamOfDayIndex(t - DayMillis);
    ConvertToOsfDateParam(t - DayMillis)
  }

  lemma DateParamOfDayIndex(t: Instant)
    ensures ConvertToOsfDateParam(t) == DayParam(DayIndex(t))
  {
  }

  /** The date parameter of a UTC day number. */
  function DayParam(n: int): string
  {
    FormatDate(CivilFromDays(n))
  }

  lemma DayIndexBefore(t: Instant)
    ensures DayIndex(t - DayMillis) == DayIndex(t) - 1
  {
    var q, r := t / DayMillis, t % DayMillis;
    assert t - DayMillis == (q - 1) * DayMillis + r;
  }

  /** Truncation to whole seconds, as a "yyyy-MM-dd HH:mm:ss" round trip does. */
  function TruncateToSecond(t: Instant): (r: Instant)
    ensures r <= t < r + 1000
    ensures r % 1000 == 0
  {
    t - t % 1000
  }
}
