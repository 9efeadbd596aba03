/**
 * The proleptic Gregorian calendar over day numbers, and instants as nanoseconds. Day 0 is 1970-01-01, a Thursday;
 * instant 0 is its midnight. This stands in for the date library.
 */
module Calendar {

  function Minutes(n: int): int {
    n * 60_000_000_000
  }

  function Hours(n: int): int {
    n * 3_600_000_000_000
  }

  /** Length of `n` days; also the midnight of day `n`. */
  function Days(n: int): int {
    n * 86_400_000_000_000
  }

  datatype Date = Date(year: int, month: int, day: int)

  predicate IsLeap(y: int) {
    y % 4 == 0 && (y % 100 != 0 || y % 400 == 0)
  }

  function YearDays(y: int): int {
    if IsLeap(y) then 366 else 365
  }

  /** Day number of January 1. */
  function YearStart(y: int): int
    decreases if y >= 1970 then y - 1970 else 1970 - y
  {
    if y == 1970 then 0
    else if y > 1970 then YearStart(y - 1) + YearDays(y - 1)
    else YearStart(y + 1) - YearDays(y)
  }

  lemma YearLength(y: int)
    ensures YearStart(y + 1) == YearStart(y) + YearDays(y)
  {
  }

  /** Days of the year before month `m`; `m == 13` gives the length of the year. */
  function MonthStart(leap: bool, m: int): int
    requires 1 <= m <= 13
  {
    var leapDay := if leap && m > 2 then 1 else 0;
    match m
    case 1 => 0
    case 2 => 31
    case 3 => 59 + leapDay
    case 4 => 90 + leapDay
    case 5 => 120 + leapDay
    case 6 => 151 + leapDay
    case 7 => 181 + leapDay
    case 8 => 212 + leapDay
    case 9 => 243 + leapDay
    case 10 => 273 + leapDay
    case 11 => 304 + leapDay
    case 12 => 334 + leapDay
    case _ => 365 + leapDay
  }

  predicate ValidDate(d: Date) {
    && 1 <= d.month <= 12
    && 1 <= d.day <= MonthStart(IsLeap(d.year), d.month + 1) - MonthStart(IsLeap(d.year), d.month)
  }

  function DayNumber(d: Date): int
    requires 1 <= d.month <= 12
  {
    YearStart(d.year) + MonthStart(IsLeap(d.year), d.month) + d.day - 1
  }

  function YearUp(n: int, y: int): (r: int)
    requires YearStart(y) <= n
    ensures YearStart(r) <= n < YearStart(r + 1)
    decreases n - YearStart(y)
  {
    YearLength(y);
    if n < YearStart(y + 1) then y else YearUp(n, y + 1)
  }

  function YearDown(n: int, y: int): (r: int)
    requires n < YearStart(y + 1)
    ensures YearStart(r) <= n < YearStart(r + 1)
    decreases YearStart(y) - n
  {
    YearLength(y - 1);
    if n >= YearStart(y) then y else YearDown(n, y - 1)
  }

  /** The year that day `n` falls in. */
  function YearOf(n: int): (r: int)
    ensures YearStart(r) <= n < YearStart(r + 1)
  {
    if n >= YearStart(1970) then YearUp(n, 1970) else YearDown(n, 1970)
  }

  lemma {:induction false} YearsOrdered(y: int, z: int)
    requires y < z
    ensures YearStart(y + 1) <= YearStart(z)
    decreases z - y
  {
    if y + 1 < z {
      YearsOrdered(y, z - 1);
      YearLength(z - 1);
    }
  }

  /** The month (1 to 12) that holds day `doy` (from 0) of a year. */
  function MonthFrom(leap: bool, doy: int, m: int): (r: int)
    requires 1 <= m <= 12 && MonthStart(leap, m) <= doy < MonthStart(leap, 13)
    ensures m <= r <= 12 && MonthStart(leap, r) <= doy < MonthStart(leap, r + 1)
    decreases 12 - m
  {
    if doy < MonthStart(leap, m + 1) then m else MonthFrom(leap, doy, m + 1)
  }

  /** The date of day `n`. */
  function DateOf(n: int): (d: Date)
    ensures ValidDate(d) && DayNumber(d) == n
  {
    var y := YearOf(n);
    YearLength(y);
    var m := MonthFrom(IsLeap(y), n - YearStart(y), 1);
    Date(y, m, n - YearStart(y) - MonthStart(IsLeap(y), m) + 1)
  }

  lemma {:induction false} MonthsOrdered(leap: bool, a: int, b: int)
    requires 1 <= a <= b <= 13
    ensures MonthStart(leap, a) <= MonthStart(leap, b)
    decreases b - a
  {
    if a < b {
      MonthsOrdered(leap, a, b - 1);
    }
  }

  /** A valid date falls within its year. */
  lemma YearHolds(d: Date)
    requires ValidDate(d)
    ensures YearStart(d.year) <= DayNumber(d) < YearStart(d.year + 1)
  {
    YearLength(d.year);
    MonthsOrdered(IsLeap(d.year), 1, d.month);
    MonthsOrdered(IsLeap(d.year), d.month + 1, 13);
  }

  /** Every valid date is the date of its day number. */
  lemma DateOfDayNumber(d: Date)
    requires ValidDate(d)
    ensures DateOf(DayNumber(d)) == d
  {
    hide DateOf, YearStart, IsLeap;
    var e := DateOf(DayNumber(d));
    YearHolds(d);
    YearHolds(e);
    if d.year < e.year {
      YearsOrdered(d.year, e.year);
    } else if e.year < d.year {
      YearsOrdered(e.year, d.year);
    } else if e.month < d.month {
      MonthsOrdered(IsLeap(d.year), e.month + 1, d.month);
    } else if d.month < e.month {
      MonthsOrdered(IsLeap(d.year), d.month + 1, e.month);
    }
  }

  /** Days since Sunday. */
  function Weekday(n: int): (w: int)
    ensures 0 <= w < 7
  {
    (n + 4) % 7
  }

  function DayOf(t: int): (d: int)
    ensures Days(d) <= t < Days(d + 1)
  {
    t / Days(1)
  }

  /** Time of day. */
  function TimeOf(t: int): (r: int)
    ensures 0 <= r < Days(1)
    ensures t == Days(DayOf(t)) + r
  {
    t % Days(1)
  }

  lemma DayOfUnique(t: int, d: int)
    requires Days(d) <= t < Days(d + 1)
    ensures DayOf(t) == d
  {
  }
}
