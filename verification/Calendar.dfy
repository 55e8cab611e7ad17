/** Calendar arithmetic of the Amiga date type: civil time from seconds since 1970 and back. */
module Calendar {
  /** The leap rule of Appendix C of RFC 3339. */
  predicate IsLeap(year: int) {
    (year % 4 == 0 && year % 100 != 0) || year % 400 == 0
  }

  function DaysInYear(year: int): int {
    if IsLeap(year) then 366 else 365
  }

  function DaysInMonth(year: int, month: int): int {
    if month < 1 || month > 12 then 30
    else if month == 2 && IsLeap(year) then 29
    else [31, 28, 31, 30, 31, 30, 31, 31, 30, 31, 30, 31][month - 1]
  }

  datatype Civil = Civil(year: int, month: int, day: int, hour: int, minute: int, second: int)

  predicate ValidCivil(c: Civil) {
    && c.year >= 1970 && 1 <= c.month <= 12 && 1 <= c.day <= DaysInMonth(c.year, c.month)
    && 0 <= c.hour < 24 && 0 <= c.minute < 60 && 0 <= c.second < 60
  }

  /** Days from the start of 1970 to the start of a year. */
  function YearStart(year: int): int
    decreases year
  {
    if year <= 1970 then 0 else YearStart(year - 1) + DaysInYear(year - 1)
  }

  /** Days from the start of a year to the start of a month. */
  function MonthStart(year: int, month: int): int
    decreases month
  {
    if month <= 1 then 0 else MonthStart(year, month - 1) + DaysInMonth(year, month - 1)
  }

  /** Seconds since the start of 1970. */
  function Seconds(c: Civil): int {
    (YearStart(c.year) + MonthStart(c.year, c.month) + c.day - 1) * 86400 + c.hour * 3600 + c.minute * 60 + c.second
  }

  // --------------------------------------------- what the sums amount to

  /** Leap years before `year`, counted from year 1. */
  function LeapsBefore(year: int): int {
    (year - 1) / 4 - (year - 1) / 100 + (year - 1) / 400
  }

  /** The sum over years in closed form. */
  lemma {:induction false} YearStartClosed(year: int)
    requires year >= 1970
    ensures YearStart(year) == 365 * (year - 1970) + LeapsBefore(year) - LeapsBefore(1970)
    decreases year
  {
    if year > 1970 {
      YearStartClosed(year - 1);
      LeapStep(year - 1);
    }
  }

  /** Thirty days have April, June, September and November. */
  lemma MonthLengths(year: int, month: int)
    requires 1 <= month <= 12
    ensures month in {4, 6, 9, 11} ==> DaysInMonth(year, month) == 30
    ensures month in {1, 3, 5, 7, 8, 10, 12} ==> DaysInMonth(year, month) == 31
    ensures month == 2 ==>
      DaysInMonth(year, month) == if year % 400 == 0 || (year % 4 == 0 && year % 100 != 0) then 29 else 28
  {
  }

  /** The sum over months in closed form: February apart, they are spread evenly. */
  lemma {:induction false} MonthStartClosed(year: int, month: int)
    requires 1 <= month <= 13
    ensures MonthStart(year, month) == (367 * month - 362) / 12
      - if month <= 2 then 0
        else if year % 400 == 0 || (year % 4 == 0 && year % 100 != 0) then 1
        else 2
  {
    if month > 1 {
      MonthStartClosed(year, month - 1);
      MonthLengths(year, month - 1);
    }
  }

  /** Seconds in closed form, without any sum. */
  lemma SecondsClosed(c: Civil)
    requires ValidCivil(c)
    ensures var y, m := c.year - 1, c.month;
      var leap := c.year % 400 == 0 || (c.year % 4 == 0 && c.year % 100 != 0);
      var days := 365 * (y - 1969) + (y / 4 - y / 100 + y / 400 - 477)
        + (367 * m - 362) / 12 - (if m <= 2 then 0 else if leap then 1 else 2) + c.day - 1;
      Seconds(c) == days * 86400 + c.hour * 3600 + c.minute * 60 + c.second
  {
    hide YearStart, MonthStart, ValidCivil, IsLeap;
    AfterStart(c);
    YearStartClosed(c.year);
    MonthStartClosed(c.year, c.month);
    LeapsSince(c.year);
  }

  lemma AfterStart(c: Civil)
    requires ValidCivil(c)
    ensures c.year >= 1970 && 1 <= c.month <= 12
  {
  }

  lemma LeapsSince(year: int)
    ensures LeapsBefore(year) - LeapsBefore(1970) == (year - 1) / 4 - (year - 1) / 100 + (year - 1) / 400 - 477
  {
  }

  lemma LeapStep(year: int)
    requires year > 0
    ensures LeapsBefore(year + 1) == LeapsBefore(year) + if IsLeap(year) then 1 else 0
  {
    Quotient(year, 4);
    Quotient(year, 100);
    Quotient(year, 400);
    Centuries(year);
  }

  lemma Centuries(year: int)
    ensures (year % 400 == 0 ==> year % 100 == 0) && (year % 100 == 0 ==> year % 4 == 0)
  {
    if year % 400 == 0 {
      assert year == 100 * (4 * (year / 400));
      Hundreds(4 * (year / 400));
    }
    if year % 100 == 0 {
      assert year == 4 * (25 * (year / 100));
      Fours(25 * (year / 100));
    }
  }

  lemma Hundreds(q: int)
    ensures 100 * q % 100 == 0
  {
  }

  lemma Fours(q: int)
    ensures 4 * q % 4 == 0
  {
  }

  lemma Quotient(n: int, d: int)
    requires n > 0 && (d == 4 || d == 100 || d == 400)
    ensures n / d == (n - 1) / d + if n % d == 0 then 1 else 0
  {
  }

  /** Twelve months make a year. */
  lemma MonthsFillYear(year: int)
    ensures MonthStart(year, 13) == DaysInYear(year)
  {
    assert MonthStart(year, 2) == 31 && MonthStart(year, 3) == 31 + DaysInMonth(year, 2);
    assert MonthStart(year, 5) == MonthStart(year, 3) + 61;
    assert MonthStart(year, 7) == MonthStart(year, 5) + 61;
    assert MonthStart(year, 9) == MonthStart(year, 7) + 62;
    assert MonthStart(year, 11) == MonthStart(year, 9) + 61;
    assert MonthStart(year, 13) == MonthStart(year, 11) + 61;
  }

  lemma {:induction false} YearsAscend(a: int, b: int)
    requires 1970 <= a <= b
    ensures YearStart(a) + 365 * (b - a) <= YearStart(b)
    ensures a < b ==> YearStart(a) + DaysInYear(a) <= YearStart(b)
    decreases b
  {
    if a < b {
      YearsAscend(a, b - 1);
    }
  }

  lemma {:induction false} MonthsAscend(year: int, a: int, b: int)
    requires 1 <= a <= b
    ensures MonthStart(year, a) <= MonthStart(year, b)
    ensures a < b ==> MonthStart(year, a) + DaysInMonth(year, a) <= MonthStart(year, b)
    decreases b
  {
    if a < b {
      MonthsAscend(year, a, b - 1);
    }
  }

  /** Where a civil day lies in its month and year. */
  lemma DayInside(c: Civil)
    requires ValidCivil(c)
    ensures 0 <= MonthStart(c.year, c.month) && MonthStart(c.year, c.month) + c.day <= DaysInYear(c.year)
  {
    MonthsAscend(c.year, 1, c.month);
    MonthsAscend(c.year, c.month, 13);
    MonthsFillYear(c.year);
  }

  /** No two valid civil times are the same second. */
  lemma SecondsInjective(c: Civil, d: Civil)
    requires ValidCivil(c) && ValidCivil(d) && Seconds(c) == Seconds(d)
    ensures c == d
  {
    var x := YearStart(c.year) + MonthStart(c.year, c.month) + c.day - 1;
    var y := YearStart(d.year) + MonthStart(d.year, d.month) + d.day - 1;
    SameDay(x, c.hour * 3600 + c.minute * 60 + c.second, y, d.hour * 3600 + d.minute * 60 + d.second);
    DayInside(c);
    DayInside(d);
    if c.year < d.year {
      YearsAscend(c.year, d.year);
    } else if d.year < c.year {
      YearsAscend(d.year, c.year);
    }
    if c.month < d.month {
      MonthsAscend(c.year, c.month, d.month);
    } else if d.month < c.month {
      MonthsAscend(c.year, d.month, c.month);
    }
  }

  lemma SameDay(a: int, s: int, b: int, t: int)
    requires 0 <= s < 86400 && 0 <= t < 86400 && a * 86400 + s == b * 86400 + t
    ensures a == b && s == t
  {
  }

  // ------------------------------------------------------------ the source

  const WORD64: int := 0x1_0000_0000_0000_0000
  const INT_MAX: int := 0x7fff_ffff

  /** Seconds of the zone's clock, never before 1970. */
  function ZoneSeconds(epochMillis: int, offset: int): int {
    if epochMillis / 1000 + offset * 60 < 0 then 0 else epochMillis / 1000 + offset * 60
  }

  /** Milliseconds since 1970 as civil time in a zone `offset` minutes ahead, with the weekday, Sunday being 0. */
  method Decompose(epochMillis: int, offset: int) returns (c: Civil, weekday: int)
    requires 0 <= epochMillis < WORD64 && -INT_MAX - 1 <= offset <= INT_MAX
    ensures ValidCivil(c) && Seconds(c) == ZoneSeconds(epochMillis, offset)
    ensures c.year <= INT_MAX
    ensures weekday == (ZoneSeconds(epochMillis, offset) / 86400 + 4) % 7
  {
    var total := epochMillis / 1000 + offset * 60;
    if total < 0 {
      total := 0;
    }
    var days := total / 86400;
    var today := total - days * 86400;
    var hour, minute, second := today / 3600, today % 3600 / 60, today % 60;
    DayOf(total);
    TimeOfDay(today);
    var year, month, remaining := FindDay(days);
    c := Civil(year, month, remaining + 1, hour, minute, second);
    weekday := (4 + days % 7 + 7) % 7;
  }

  lemma DayOf(total: int)
    requires total >= 0
    ensures 0 <= total / 86400 && 0 <= total - total / 86400 * 86400 < 86400
    ensures (4 + total / 86400 % 7 + 7) % 7 == (total / 86400 + 4) % 7
  {
  }

  lemma TimeOfDay(today: int)
    requires 0 <= today < 86400
    ensures var h, m, s := today / 3600, today % 3600 / 60, today % 60;
      0 <= h < 24 && 0 <= m < 60 && 0 <= s < 60 && h * 3600 + m * 60 + s == today
  {
  }

  /** The two walks from 1970-01-01: over whole years, then over whole months, which never pass December. */
  method FindDay(days: int) returns (year: int, month: int, remaining: int)
    requires 0 <= days <= 220_000_000_000
    ensures 1970 <= year <= INT_MAX && 1 <= month <= 12 && 0 <= remaining < DaysInMonth(year, month)
    ensures YearStart(year) + MonthStart(year, month) + remaining == days
  {
    year, remaining := 1970, days;
    while remaining >= DaysInYear(year)
      invariant year >= 1970 && remaining >= 0 && YearStart(year) + remaining == days
      invariant 365 * (year - 1970) + remaining <= days
      decreases remaining
    {
      remaining := remaining - DaysInYear(year);
      year := year + 1;
    }
    month := 1;
    MonthsFillYear(year);
    while remaining >= DaysInMonth(year, month)
      invariant 1 <= month <= 12 && remaining >= 0
      invariant YearStart(year) + MonthStart(year, month) + remaining == days
      invariant MonthStart(year, month) + remaining < DaysInYear(year)
      decreases remaining
    {
      remaining := remaining - DaysInMonth(year, month);
      month := month + 1;
    }
  }

  /** Civil time of a zone as seconds since 1970, never before it. */
  method Compose(c: Civil, offset: int) returns (seconds: int)
    ensures seconds == if c.year < 1970 || Seconds(c) - offset * 60 < 0 then 0 else Seconds(c) - offset * 60
  {
    if c.year < 1970 {
      return 0;
    }
    var days, y, m := 0, 1970, 1;
    while y < c.year
      invariant 1970 <= y <= c.year && days == YearStart(y)
    {
      days := days + DaysInYear(y);
      y := y + 1;
    }
    while m < c.month
      invariant 1 <= m && (m <= c.month || m == 1) && days == YearStart(c.year) + MonthStart(c.year, m)
    {
      days := days + DaysInMonth(c.year, m);
      m := m + 1;
    }
    days := days + (c.day - 1);
    seconds := days * 86400 + c.hour * 3600 + c.minute * 60 + c.second - offset * 60;
    if seconds < 0 {
      seconds := 0;
    }
  }

  /** From civil time to seconds and back, and from seconds to civil time and back, nothing changes. */
  lemma InverseConversions(c: Civil, seconds: int, offset: int, d: Civil)
    requires ValidCivil(c) && ValidCivil(d) && seconds >= 0
    ensures Seconds(c) - offset * 60 >= 0 && Seconds(d) == ZoneSeconds((Seconds(c) - offset * 60) * 1000, offset) ==>
      d == c
    ensures seconds + offset * 60 >= 0 && Seconds(d) == ZoneSeconds(seconds * 1000, offset) ==>
        Seconds(d) - offset * 60 == seconds
  {
    DayInside(c);
    YearsAscend(1970, c.year);
    if Seconds(c) == Seconds(d) {
      SecondsInjective(c, d);
    }
  }
}
