/**
  Time values of ECMA-262 section 21.4.1 (the proleptic Gregorian calendar in UTC), as the
  `Date` operations of the sources use them. Dafny's Euclidean division floors for the
  positive divisors below, which is what the standard's operations need for times before 1970.
 */
module Calendar {
  import opened Wrappers

  const MS_PER_DAY := 86_400_000
  const END_OF_DAY_MS := 86_399_000  // 23:59:59.000
  const MAX_TIME := 8_640_000_000_000_000

  predicate LeapYear(y: int) { y % 4 == 0 && (y % 100 != 0 || y % 400 == 0) }

  function DaysInYear(y: int): int { if LeapYear(y) then 366 else 365 }

  /** DayFromYear: the day number of January 1. */
  function DayFromYear(y: int): int {
    365 * (y - 1970) + (y - 1969) / 4 - (y - 1901) / 100 + (y - 1601) / 400
  }

  lemma NextYear(y: int)
    ensures DayFromYear(y + 1) == DayFromYear(y) + DaysInYear(y)
  {
    Fourth(y);
    Hundredth(y);
    FourHundredth(y);
    Nested(y);
  }

  lemma Fourth(y: int)
    ensures (y - 1968) / 4 == (y - 1969) / 4 + if y % 4 == 0 then 1 else 0
  {
  }

  lemma Hundredth(y: int)
    ensures (y - 1900) / 100 == (y - 1901) / 100 + if y % 100 == 0 then 1 else 0
  {
  }

  lemma FourHundredth(y: int)
    ensures (y - 1600) / 400 == (y - 1601) / 400 + if y % 400 == 0 then 1 else 0
  {
  }

  lemma Nested(y: int)
    ensures y % 400 == 0 ==> y % 100 == 0
    ensures y % 100 == 0 ==> y % 4 == 0
  {
  }

  lemma {:induction false} YearsAscend(y: int, z: int)
    requires y <= z
    ensures DayFromYear(y) + 365 * (z - y) <= DayFromYear(z) <= DayFromYear(y) + 366 * (z - y)
    decreases z - y
  {
    if y < z {
      YearsAscend(y, z - 1);
      NextYear(z - 1);
    }
  }

  /** YearFromTime: the largest year whose first day is not after `day`. */
  function YearFromDay(day: int): (y: int)
    ensures DayFromYear(y) <= day < DayFromYear(y + 1)
  {
    NextYear(1969);
    if day >= 0 then SearchUp(day, 1970) else SearchDown(day, 1969)
  }

  function SearchUp(day: int, y: int): (r: int)
    requires DayFromYear(y) <= day
    ensures DayFromYear(r) <= day < DayFromYear(r + 1)
    decreases day - DayFromYear(y)
  {
    NextYear(y);
    if day < DayFromYear(y + 1) then y else SearchUp(day, y + 1)
  }

  function SearchDown(day: int, y: int): (r: int)
    requires day < DayFromYear(y + 1)
    ensures DayFromYear(r) <= day < DayFromYear(r + 1)
    decreases DayFromYear(y + 1) - day
  {
    NextYear(y);
    if DayFromYear(y) <= day then y else SearchDown(day, y - 1)
  }

  lemma YearUnique(day: int, y: int)
    requires DayFromYear(y) <= day < DayFromYear(y + 1)
    ensures YearFromDay(day) == y
  {
    hide DayFromYear;
    var r := YearFromDay(day);
    if r < y { YearsAscend(r + 1, y); }
    if y < r { YearsAscend(y + 1, r); }
  }

  /** Days of the year before month m (0 = January); m == 12 is the whole year. */
  function DaysBeforeMonth(m: int, leap: bool): int
    requires 0 <= m <= 12
  {
    [0, 31, 59, 90, 120, 151, 181, 212, 243, 273, 304, 334, 365][m] + if leap && m >= 2 then 1 else 0
  }

  function DaysInMonth(m: int, leap: bool): (n: int)
    requires 0 <= m < 12
    ensures 28 <= n <= 31
  {
    DaysBeforeMonth(m + 1, leap) - DaysBeforeMonth(m, leap)
  }

  /** MonthFromTime, from the day within the year. */
  function MonthFromDayInYear(d: int, leap: bool): (m: int)
    requires 0 <= d < DaysBeforeMonth(12, leap)
    ensures 0 <= m < 12 && DaysBeforeMonth(m, leap) <= d < DaysBeforeMonth(m + 1, leap)
  {
    var k := if leap then 1 else 0;
    if d < 31 then 0 else if d < 59 + k then 1 else if d < 90 + k then 2 else if d < 120 + k then 3
    else if d < 151 + k then 4 else if d < 181 + k then 5 else if d < 212 + k then 6
    else if d < 243 + k then 7 else if d < 273 + k then 8 else if d < 304 + k then 9
    else if d < 334 + k then 10 else 11
  }

  datatype Date = Date(year: int, month: int, date: int)

  predicate ValidDate(c: Date) {
    0 <= c.month < 12 && 1 <= c.date <= DaysInMonth(c.month, LeapYear(c.year))
  }

  /** getUTCFullYear, getUTCMonth and getUTCDate of a day number. */
  function DateOfDay(day: int): (c: Date)
    ensures ValidDate(c) && c.year == YearFromDay(day)
  {
    var y := YearFromDay(day);
    NextYear(y);
    var d := day - DayFromYear(y);
    var m := MonthFromDayInYear(d, LeapYear(y));
    Date(y, m, d - DaysBeforeMonth(m, LeapYear(y)) + 1)
  }

  /** MakeDay, for any integral year, month and date. */
  function MakeDay(year: int, month: int, date: int): int {
    var y := year + month / 12;
    DayFromYear(y) + DaysBeforeMonth(month % 12, LeapYear(y)) + date - 1
  }

  lemma MakeDayInYear(year: int, month: int, date: int)
    requires 0 <= month < 12
    ensures MakeDay(year, month, date) == DayFromYear(year) + DaysBeforeMonth(month, LeapYear(year)) + date - 1
  {
  }

  /** The calendar is a bijection: a day is rebuilt from its date ... */
  lemma DayRoundTrip(day: int)
    ensures var c := DateOfDay(day); MakeDay(c.year, c.month, c.date) == day
  {
    hide MakeDay, DayFromYear, LeapYear, YearFromDay;
    var c := DateOfDay(day);
    MakeDayInYear(c.year, c.month, c.date);
  }

  /** ... and a valid date is read back from its day. */
  lemma DateRoundTrip(c: Date)
    requires ValidDate(c)
    ensures DateOfDay(MakeDay(c.year, c.month, c.date)) == c
  {
    hide MakeDay, DayFromYear, LeapYear, YearFromDay;
    var leap := LeapYear(c.year);
    MakeDayInYear(c.year, c.month, c.date);
    NextYear(c.year);
    var d := DaysBeforeMonth(c.month, leap) + c.date - 1;
    MonthUnique(d, leap, c.month);
    YearUnique(DayFromYear(c.year) + d, c.year);
  }

  lemma MonthUnique(d: int, leap: bool, m: int)
    requires 0 <= m < 12 && DaysBeforeMonth(m, leap) <= d < DaysBeforeMonth(m + 1, leap)
    ensures 0 <= d < DaysBeforeMonth(12, leap) && MonthFromDayInYear(d, leap) == m
  {
  }

  /** The date of the next day. */
  function NextDate(c: Date): Date
    requires ValidDate(c)
  {
    if c.date < DaysInMonth(c.month, LeapYear(c.year)) then Date(c.year, c.month, c.date + 1)
    else if c.month < 11 then Date(c.year, c.month + 1, 1)
    else Date(c.year + 1, 0, 1)
  }

  lemma NextDateIsNextDay(c: Date)
    requires ValidDate(c)
    ensures ValidDate(NextDate(c)) && NextDate(c).date != c.date
    ensures var n := NextDate(c); MakeDay(n.year, n.month, n.date) == MakeDay(c.year, c.month, c.date) + 1
  {
    hide MakeDay, DayFromYear, LeapYear;
    MakeDayInYear(c.year, c.month, c.date);
    var n := NextDate(c);
    MakeDayInYear(n.year, n.month, n.date);
    if n.year != c.year {
      NextYear(c.year);
      assert DaysBeforeMonth(12, LeapYear(c.year)) == DaysInYear(c.year);
      assert DaysBeforeMonth(0, LeapYear(n.year)) == 0;
    }
  }

  /** The dates of two days in a row follow each other, so their day of the month differs. */
  lemma SuccessiveDays(day: int)
    ensures DateOfDay(day + 1) == NextDate(DateOfDay(day))
    ensures DateOfDay(day + 1).date != DateOfDay(day).date
  {
    hide MakeDay, DateOfDay, NextDate, ValidDate;
    var c := DateOfDay(day);
    DayRoundTrip(day);
    NextDateIsNextDay(c);
    DateRoundTrip(NextDate(c));
  }

  /** TimeClip: `new Date(ms)` is invalid outside the time range. */
  function TimeClip(ms: int): Option<int> {
    if -MAX_TIME <= ms <= MAX_TIME then Some(ms) else None
  }

  /** MakeFullYear: `Date.UTC` reads the years 0 to 99 as 1900 to 1999. */
  function MakeFullYear(y: int): int { if 0 <= y <= 99 then 1900 + y else y }

  /** `Date.UTC(year, month, date, 23, 59, 59)`; None is NaN. */
  function UtcEndOfDay(c: Date): Option<int> {
    TimeClip(MakeDay(MakeFullYear(c.year), c.month, c.date) * MS_PER_DAY + END_OF_DAY_MS)
  }
}
