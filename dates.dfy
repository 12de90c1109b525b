/** Python's `datetime.date` as the core uses it: proleptic Gregorian calendar dates,
    their comparison, `toordinal()` (which `end - start` subtracts) and `isoformat()`. */
module Dates {

  datatype CivilDate = CivilDate(year: int, month: int, day: int)

  predicate IsLeap(year: int) {
    year % 4 == 0 && (year % 100 != 0 || year % 400 == 0)
  }

  function DaysInYear(year: int): int {
    if IsLeap(year) then 366 else 365
  }

  function DaysInMonth(year: int, month: int): int
    requires 1 <= month <= 12
  {
    if month == 2 then (if IsLeap(year) then 29 else 28)
    else if month == 4 || month == 6 || month == 9 || month == 11 then 30
    else 31
  }

  /** Days in the months of `year` before `month`. */
  function DaysBeforeMonth(year: int, month: int): int
    requires 1 <= month <= 12
  {
    [0, 31, 59, 90, 120, 151, 181, 212, 243, 273, 304, 334][month - 1]
      + (if month > 2 && IsLeap(year) then 1 else 0)
  }

  /** Days in the years before `year`, counting from 1 January of year 1. */
  function DaysBeforeYear(year: int): int
    requires year >= 1
  {
    var y := year - 1;
    y * 365 + y / 4 - y / 100 + y / 400
  }

  /** Python's `date` holds years 1 to 9999 and only days that exist. */
  predicate ValidDate(d: CivilDate) {
    1 <= d.year <= 9999 && 1 <= d.month <= 12 && 1 <= d.day <= DaysInMonth(d.year, d.month)
  }

  type Date = d: CivilDate | ValidDate(d) witness CivilDate(1, 1, 1)

  /** `date.toordinal()`: 1 January of year 1 is day 1. */
  function Ordinal(d: Date): int {
    DaysBeforeYear(d.year) + DaysBeforeMonth(d.year, d.month) + d.day
  }

  /** `a < b` on dates: Python compares (year, month, day) lexicographically. */
  predicate Before(a: Date, b: Date) {
    a.year < b.year
    || (a.year == b.year && (a.month < b.month || (a.month == b.month && a.day < b.day)))
  }

  /** `a <= b` on dates. */
  predicate NotAfter(a: Date, b: Date) {
    Before(a, b) || a == b
  }

  /** Any two dates are ordered one way or the other. */
  lemma NotAfterTotal(a: Date, b: Date)
    ensures NotAfter(a, b) || Before(b, a)
  {
  }

  lemma NotAfterTransitive(a: Date, b: Date, c: Date)
    requires NotAfter(a, b) && NotAfter(b, c)
    ensures NotAfter(a, c)
  {
  }

  /** Stepping one year forward adds that year's length. */
  lemma DaysBeforeYearStep(year: int)
    requires year >= 1
    ensures DaysBeforeYear(year + 1) == DaysBeforeYear(year) + DaysInYear(year)
  {
    var y := year - 1;
    assert (y + 1) / 4 - y / 4 == (if year % 4 == 0 then 1 else 0);
    assert (y + 1) / 100 - y / 100 == (if year % 100 == 0 then 1 else 0);
    assert (y + 1) / 400 - y / 400 == (if year % 400 == 0 then 1 else 0);
  }

  /** Every earlier year ends no later than a later year begins. */
  lemma {:induction false} DaysBeforeYearGrows(a: int, b: int)
    requires 1 <= a < b
    ensures DaysBeforeYear(a) + DaysInYear(a) <= DaysBeforeYear(b)
    decreases b - a
  {
    DaysBeforeYearStep(a);
    if a + 1 < b {
      DaysBeforeYearGrows(a + 1, b);
    }
  }

  /** A valid date's day of the year never passes the year's length, and an earlier
      month of the same year ends no later than a later month begins. */
  lemma DayOfYearBounds(year: int, m: int, day: int, m': int)
    requires 1 <= m <= 12 && 1 <= m' <= 12 && 1 <= day <= DaysInMonth(year, m)
    ensures DaysBeforeMonth(year, m) + day <= DaysInYear(year)
    ensures m < m' ==> DaysBeforeMonth(year, m) + day <= DaysBeforeMonth(year, m')
  {
  }

  /** `toordinal` is strictly increasing along the date order. */
  lemma OrdinalMonotone(a: Date, b: Date)
    requires Before(a, b)
    ensures Ordinal(a) < Ordinal(b)
  {
    DayOfYearBounds(a.year, a.month, a.day, b.month);
    if a.year < b.year {
      DaysBeforeYearGrows(a.year, b.year);
    }
  }

  lemma OrdinalNotAfter(a: Date, b: Date)
    requires NotAfter(a, b)
    ensures Ordinal(a) <= Ordinal(b)
  {
    if Before(a, b) {
      OrdinalMonotone(a, b);
    }
  }

  /** Two dates with the same ordinal are the same date. */
  lemma OrdinalInjective(a: Date, b: Date)
    requires Ordinal(a) == Ordinal(b)
    ensures a == b
  {
    if Before(a, b) {
      OrdinalMonotone(a, b);
    } else if Before(b, a) {
      OrdinalMonotone(b, a);
    }
  }

  /** `(end - start).days + 1`: the number of days of the inclusive window [start, end]. */
  function DaysInWindow(start: Date, end: Date): (n: int)
    requires NotAfter(start, end)
    ensures n >= 1
    ensures start == end ==> n == 1
  {
    OrdinalNotAfter(start, end);
    Ordinal(end) - Ordinal(start) + 1
  }

  function Pow10(n: nat): (r: nat)
    ensures r >= 1
  {
    if n == 0 then 1 else 10 * Pow10(n - 1)
  }

  function DigitChar(d: nat): (c: char)
    requires d < 10
    ensures '0' <= c <= '9'
  {
    ('0' as int + d) as char
  }

  /** `"%0{width}d" % n` for a number with at most `width` digits. */
  function Digits(n: nat, width: nat): (s: string)
    requires n < Pow10(width)
    ensures |s| == width
    decreases width
  {
    if width == 0 then "" else Digits(n / 10, width - 1) + [DigitChar(n % 10)]
  }

  /** Zero-padded decimal text determines the number. */
  lemma {:induction false} DigitsInjective(a: nat, b: nat, width: nat)
    requires a < Pow10(width) && b < Pow10(width)
    requires Digits(a, width) == Digits(b, width)
    ensures a == b
    decreases width
  {
    if width > 0 {
      var da, db := Digits(a, width), Digits(b, width);
      assert da[width - 1] == db[width - 1];
      assert DigitChar(a % 10) == DigitChar(b % 10);
      assert da[..width - 1] == Digits(a / 10, width - 1);
      assert db[..width - 1] == Digits(b / 10, width - 1);
      DigitsInjective(a / 10, b / 10, width - 1);
    }
  }

  /** `date.isoformat()`: `YYYY-MM-DD`. */
  function IsoFormat(d: Date): (s: string)
    ensures |s| == 10 && s[4] == '-' && s[7] == '-'
  {
    Digits(d.year, 4) + "-" + Digits(d.month, 2) + "-" + Digits(d.day, 2)
  }

  /** Different dates have different ISO text. */
  lemma IsoFormatInjective(a: Date, b: Date)
    requires IsoFormat(a) == IsoFormat(b)
    ensures a == b
  {
    IsoFormatParts(a);
    IsoFormatParts(b);
    DigitsInjective(a.year, b.year, 4);
    DigitsInjective(a.month, b.month, 2);
    DigitsInjective(a.day, b.day, 2);
  }

  lemma IsoFormatParts(d: Date)
    ensures d.year < Pow10(4) && d.month < Pow10(2) && d.day < Pow10(2)
    ensures IsoFormat(d)[..4] == Digits(d.year, 4)
    ensures IsoFormat(d)[5..7] == Digits(d.month, 2)
    ensures IsoFormat(d)[8..] == Digits(d.day, 2)
  {
    var y, m, dd := Digits(d.year, 4), Digits(d.month, 2), Digits(d.day, 2);
    var s := y + "-" + m + "-" + dd;
    assert s == IsoFormat(d);
    assert s[..4] == y;
    assert s[5..7] == m;
    assert s[8..] == dd;
  }

  /** A naive `datetime`: a date and the microseconds elapsed since its midnight. */
  const MicrosPerDay: nat := 86_400_000_000

  datatype CivilDateTime = CivilDateTime(date: Date, micros: int)

  type NaiveDateTime = t: CivilDateTime | 0 <= t.micros < MicrosPerDay witness CivilDateTime(CivilDate(1, 1, 1), 0)

  /** `a < b` on naive datetimes: by date, then by time of day. */
  predicate BeforeTime(a: NaiveDateTime, b: NaiveDateTime) {
    Before(a.date, b.date) || (a.date == b.date && a.micros < b.micros)
  }

  /** Microseconds since the start of the calendar; a naive datetime read as UTC. */
  function Instant(t: NaiveDateTime): int {
    Ordinal(t.date) * MicrosPerDay + t.micros
  }

  /** The datetime order is the order of instants. */
  lemma BeforeTimeInstant(a: NaiveDateTime, b: NaiveDateTime)
    ensures BeforeTime(a, b) <==> Instant(a) < Instant(b)
  {
    if Before(a.date, b.date) {
      OrdinalMonotone(a.date, b.date);
    } else if Before(b.date, a.date) {
      OrdinalMonotone(b.date, a.date);
    }
  }
}
