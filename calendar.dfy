/**
 * Proleptic Gregorian calendar arithmetic on JavaScript time values
 * (milliseconds since 1970-01-01T00:00:00Z, no leap seconds).
 */
module Calendar {

  const MsPerDay := 86400000

  /** The largest magnitude of a valid `Date` time value. */
  const MaxTimeValue := 8640000000000000

  /** Whether `new Date(t)` is a valid date rather than `Invalid Date`. */
  predicate InTimeRange(t: int) {
    -MaxTimeValue <= t <= MaxTimeValue
  }

  /** Days from 1970-01-01 to the date `y`-`m`-`d` (month 1..12), in the style of H. Hinnant's algorithm. */
  function DaysFromCivil(y: int, m: int, d: int): int
    requires 1 <= m <= 12
  {
    var y' := if m <= 2 then y - 1 else y;
    var era := y' / 400;
    var yoe := y' % 400;
    var mp := (m + 9) % 12;
    var doy := (153 * mp + 2) / 5 + d - 1;
    var doe := yoe * 365 + yoe / 4 - yoe / 100 + doy;
    era * 146097 + doe - 719468
  }

  /** The year `Date.UTC` means: 0..99 stand for 1900..1999. */
  function FullYear(year: int): (y: int)
    ensures !(0 <= y <= 99)
  {
    if 0 <= year <= 99 then 1900 + year else year
  }

  /**
   * `Date.UTC(year, monthIndex, day, hours, minutes, seconds, ms)`: the
   * month index counts from 0 and may overflow into later years; years
   * 0..99 mean 1900..1999. The date part is a whole number of days, and
   * 1970-01-01 is time 0.
   */
  function DateUtc(year: int, monthIndex: int, day: int, hours: int, minutes: int, seconds: int, ms: int): (t: int)
    ensures (t - (hours * 3600000 + minutes * 60000 + seconds * 1000 + ms)) % MsPerDay == 0
    ensures FullYear(year) == 1970 && monthIndex == 0 ==>
      t == (day - 1) * MsPerDay + hours * 3600000 + minutes * 60000 + seconds * 1000 + ms
  {
    var y := FullYear(year);
    var ym := y + monthIndex / 12;
    var mn := monthIndex % 12;
    CivilEpoch();
    (DaysFromCivil(ym, mn + 1, 1) + day - 1) * MsPerDay
      + hours * 3600000 + minutes * 60000 + seconds * 1000 + ms
  }

  lemma CivilEpoch()
    ensures DaysFromCivil(1970, 1, 1) == 0
  {
    assert 1969 / 400 == 4 && 1969 % 400 == 369;
    assert (1 + 9) % 12 == 10 && (153 * 10 + 2) / 5 == 306;
    assert 369 / 4 == 92 && 369 / 100 == 3;
  }

  predicate IsLeapYear(y: int) {
    y % 4 == 0 && (y % 100 != 0 || y % 400 == 0)
  }

  /** The length of month `m` (1..12) of year `y`. */
  function DaysInMonth(y: int, m: int): (n: int)
    requires 1 <= m <= 12
    ensures 28 <= n <= 31
    ensures n == 29 <==> m == 2 && IsLeapYear(y)
  {
    if m == 2 then (if IsLeapYear(y) then 29 else 28)
    else if m == 4 || m == 6 || m == 9 || m == 11 then 30
    else 31
  }

  /** Days from the start of a 400-year era to March 1 of its year `k`. */
  function CycleDays(k: int): int {
    k * 365 + k / 4 - k / 100
  }

  /** One more year of an era adds 365 days, and one more on a leap year. */
  lemma CycleStep(k: int)
    requires 0 <= k < 399
    ensures CycleDays(k + 1) == CycleDays(k) + 365 + (if (k + 1) % 4 == 0 && (k + 1) % 100 != 0 then 1 else 0)
  {
    assert (k + 1) / 4 == k / 4 + (if (k + 1) % 4 == 0 then 1 else 0);
    assert (k + 1) / 100 == k / 100 + (if (k + 1) % 100 == 0 then 1 else 0);
    if (k + 1) % 100 == 0 {
      assert (k + 1) % 4 == 0;
    }
  }

  lemma DivisionBy400(n: int, q: int, r: int)
    requires 0 <= r < 400 && n == 400 * q + r
    ensures n / 400 == q && n % 400 == r
  {
    assert 400 * (n / 400 - q) == r - n % 400;
  }

  lemma DivisionBy100(n: int, q: int, r: int)
    requires 0 <= r < 100 && n == 100 * q + r
    ensures n % 100 == r
  {
    assert 100 * (n / 100 - q) == r - n % 100;
  }

  lemma DivisionBy4(n: int, q: int, r: int)
    requires 0 <= r < 4 && n == 4 * q + r
    ensures n % 4 == r
  {
    assert 4 * (n / 4 - q) == r - n % 4;
  }

  /** Division of `400 * e + k` by 400, 100 and 4. */
  lemma EraSplit(y: int, e: int, k: int)
    requires 0 <= k < 400 && y == 400 * e + k
    ensures y / 400 == e && y % 400 == k
    ensures y % 4 == k % 4 && y % 100 == k % 100
  {
    DivisionBy400(y, e, k);
    DivisionBy100(y, 4 * e + k / 100, k % 100);
    DivisionBy4(y, 100 * e + k / 4, k % 4);
  }

  /** A year from March to February has 366 days exactly when its February has a 29th. */
  lemma MarchToMarch(y: int)
    ensures DaysFromCivil(y + 1, 3, 1) == DaysFromCivil(y, 3, 1) + (if IsLeapYear(y + 1) then 366 else 365)
  {
    var e, k := y / 400, y % 400;
    assert (3 + 9) % 12 == 0 && (153 * 0 + 2) / 5 == 0;
    assert DaysFromCivil(y, 3, 1) == e * 146097 + CycleDays(k) - 719468;
    if k == 399 {
      EraSplit(y + 1, e + 1, 0);
      assert 399 / 4 == 99 && 399 / 100 == 3;
      assert DaysFromCivil(y + 1, 3, 1) == (e + 1) * 146097 - 719468;
    } else {
      EraSplit(y + 1, e, k + 1);
      CycleStep(k);
      assert DaysFromCivil(y + 1, 3, 1) == e * 146097 + CycleDays(k + 1) - 719468;
    }
  }

  /** Days from March 1 to the first of month `m` (1..12) in a year that runs from March to February. */
  function OffsetFromMarch(m: int): int
    requires 1 <= m <= 12
  {
    if m == 1 then 306 else if m == 2 then 337 else if m == 3 then 0
    else if m == 4 then 31 else if m == 5 then 61 else if m == 6 then 92
    else if m == 7 then 122 else if m == 8 then 153 else if m == 9 then 184
    else if m == 10 then 214 else if m == 11 then 245 else 275
  }

  lemma DayOfMarchYear(m: int)
    requires 1 <= m <= 12
    ensures (153 * ((m + 9) % 12) + 2) / 5 == OffsetFromMarch(m)
  {
    if m <= 2 {
      assert (m + 9) % 12 == m + 9;
    } else {
      assert (m + 9) % 12 == m - 3;
    }
  }

  /** The first of month `m` is March 1 of its March-to-February year plus the month's offset. */
  lemma CivilFirst(y: int, m: int)
    requires 1 <= m <= 12
    ensures DaysFromCivil(y, m, 1) == DaysFromCivil(if m <= 2 then y - 1 else y, 3, 1) + OffsetFromMarch(m)
  {
    DayOfMarchYear(m);
    DayOfMarchYear(3);
  }

  /** Consecutive first days of the month lie a month apart. */
  lemma CivilMonthLength(y: int, m: int)
    requires 1 <= m <= 11
    ensures DaysFromCivil(y, m + 1, 1) == DaysFromCivil(y, m, 1) + DaysInMonth(y, m)
  {
    CivilFirst(y, m);
    CivilFirst(y, m + 1);
    if m == 2 {
      MarchToMarch(y - 1);
    }
  }

  /** December 1 and the next January 1 lie 31 days apart. */
  lemma CivilDecember(y: int)
    ensures DaysFromCivil(y + 1, 1, 1) == DaysFromCivil(y, 12, 1) + 31
  {
    CivilFirst(y, 12);
    CivilFirst(y + 1, 1);
  }

  /**
   * The first of month index `m + 1` is the first of month index `m` plus
   * the length of that month; index 12 is January of the next year.
   */
  lemma DateUtcMonthLength(year: int, m: int)
    requires 0 <= m <= 11
    ensures DateUtc(year, m + 1, 1, 0, 0, 0, 0) == DateUtc(year, m, 1, 0, 0, 0, 0) + DaysInMonth(FullYear(year), m + 1) * MsPerDay
  {
    var y := FullYear(year);
    assert m / 12 == 0 && m % 12 == m;
    DateUtcFirst(year, m);
    DateUtcFirst(year, m + 1);
    if m == 11 {
      assert (m + 1) / 12 == 1 && (m + 1) % 12 == 0;
      CivilDecember(y);
    } else {
      assert (m + 1) / 12 == 0 && (m + 1) % 12 == m + 1;
      CivilMonthLength(y, m + 1);
    }
  }

  /** Midnight on the first of a month, in whole days. */
  lemma DateUtcFirst(year: int, m: int)
    ensures DateUtc(year, m, 1, 0, 0, 0, 0) == DaysFromCivil(FullYear(year) + m / 12, m % 12 + 1, 1) * MsPerDay
  {
  }

  /** A month index past December carries into the year: `Date.UTC(y, m)` is `Date.UTC(y + m / 12, m % 12)`. */
  lemma DateUtcMonthCarry(year: int, m: int, day: int, hours: int, minutes: int, seconds: int, ms: int)
    requires !(0 <= year <= 99) && !(0 <= year + m / 12 <= 99)
    ensures DateUtc(year, m, day, hours, minutes, seconds, ms) == DateUtc(year + m / 12, m % 12, day, hours, minutes, seconds, ms)
  {
    assert (m % 12) / 12 == 0 && (m % 12) % 12 == m % 12;
  }

  /** A two-digit year is the same year of the 1900s. */
  lemma DateUtcTwoDigitYear(year: int, m: int, day: int, hours: int, minutes: int, seconds: int, ms: int)
    requires 0 <= year <= 99
    ensures DateUtc(year, m, day, hours, minutes, seconds, ms) == DateUtc(1900 + year, m, day, hours, minutes, seconds, ms)
  {
  }
}
