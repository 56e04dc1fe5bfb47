/** The proleptic Gregorian calendar of the date library: dates, their day numbers, and the
    month arithmetic of the investment engine. */
module Calendar {

  datatype Date = Date(year: int, month: int, day: int)

  predicate IsLeap(year: int) {
    year % 4 == 0 && (year % 100 != 0 || year % 400 == 0)
  }

  function DaysInMonth(year: int, month: int): (days: int)
    ensures 28 <= days <= 31
  {
    if month == 2 then (if IsLeap(year) then 29 else 28)
    else if month == 4 || month == 6 || month == 9 || month == 11 then 30
    else 31
  }

  predicate Valid(d: Date) {
    1 <= d.year && 1 <= d.month <= 12 && 1 <= d.day <= DaysInMonth(d.year, d.month)
  }

  type Day = d: Date | Valid(d) witness Date(1, 1, 1)

  /** Days before 1 January of the year, counted from 1 January of year 1. */
  function DaysBeforeYear(year: int): int {
    var y := year - 1;
    y * 365 + y / 4 - y / 100 + y / 400
  }

  function DaysInYear(year: int): int {
    if IsLeap(year) then 366 else 365
  }

  /** Days before the month in a common year. */
  function CommonDaysBefore(month: int): int {
    if month <= 1 then 0 else if month == 2 then 31 else if month == 3 then 59 else if month == 4 then 90
    else if month == 5 then 120 else if month == 6 then 151 else if month == 7 then 181 else if month == 8 then 212
    else if month == 9 then 243 else if month == 10 then 273 else if month == 11 then 304 else if month == 12 then 334
    else 365
  }

  function DaysBeforeMonth(year: int, month: int): int {
    CommonDaysBefore(month) + if month > 2 && IsLeap(year) then 1 else 0
  }

  function Ordinal(d: Date): int {
    DaysBeforeYear(d.year) + DaysBeforeMonth(d.year, d.month) + d.day
  }

  lemma LeapMultiples(y: int)
    ensures (y + 1) / 4 - y / 4 == if (y + 1) % 4 == 0 then 1 else 0
    ensures (y + 1) / 100 - y / 100 == if (y + 1) % 100 == 0 then 1 else 0
    ensures (y + 1) / 400 - y / 400 == if (y + 1) % 400 == 0 then 1 else 0
    ensures (y + 1) % 400 == 0 ==> (y + 1) % 100 == 0
    ensures (y + 1) % 100 == 0 ==> (y + 1) % 4 == 0
  {
  }

  lemma YearsTile(year: int)
    ensures DaysBeforeYear(year + 1) == DaysBeforeYear(year) + DaysInYear(year)
  {
    LeapMultiples(year - 1);
  }

  lemma MonthsTile(year: int, month: int)
    requires 1 <= month <= 12
    ensures DaysBeforeMonth(year, month + 1) == DaysBeforeMonth(year, month) + DaysInMonth(year, month)
  {
  }

  lemma MonthsFillTheYear(year: int)
    ensures DaysBeforeMonth(year, 13) == DaysInYear(year)
  {
  }

  lemma {:induction false} LaterMonthStartsLater(year: int, m: int, n: int)
    requires 1 <= m < n <= 13
    ensures DaysBeforeMonth(year, m) + DaysInMonth(year, m) <= DaysBeforeMonth(year, n)
    decreases n
  {
    MonthsTile(year, n - 1);
    if m < n - 1 {
      LaterMonthStartsLater(year, m, n - 1);
    }
  }

  lemma {:induction false} LaterYearStartsLater(y: int, z: int)
    requires y < z
    ensures DaysBeforeYear(y) + DaysInYear(y) <= DaysBeforeYear(z)
    decreases z - y
  {
    YearsTile(z - 1);
    if y < z - 1 {
      LaterYearStartsLater(y, z - 1);
    }
  }

  predicate Earlier(a: Date, b: Date) {
    a.year < b.year || (a.year == b.year && (a.month < b.month || (a.month == b.month && a.day < b.day)))
  }

  /** Date comparison is comparison of day numbers. */
  lemma EarlierMeansSmallerOrdinal(a: Date, b: Date)
    requires Valid(a) && Valid(b)
    ensures Earlier(a, b) <==> Ordinal(a) < Ordinal(b)
  {
    if Earlier(a, b) {
      EarlierIsSmaller(a, b);
    } else if a != b {
      EarlierIsSmaller(b, a);
    }
  }

  lemma EarlierIsSmaller(a: Date, b: Date)
    requires Valid(a) && Valid(b) && Earlier(a, b)
    ensures Ordinal(a) < Ordinal(b)
  {
    if a.year < b.year {
      LaterYearStartsLater(a.year, b.year);
      MonthsFillTheYear(a.year);
      LaterMonthStartsLater(a.year, a.month, 13);
    } else if a.month < b.month {
      LaterMonthStartsLater(a.year, a.month, b.month);
    }
  }

  // ---------------------------------------------------------------- from day numbers to dates

  function YearFrom(year: int, n: int): (y: int)
    requires DaysBeforeYear(year) < n
    ensures year <= y && DaysBeforeYear(y) < n <= DaysBeforeYear(y + 1)
    decreases n - DaysBeforeYear(year)
  {
    YearsTile(year);
    if n <= DaysBeforeYear(year + 1) then year else YearFrom(year + 1, n)
  }

  function MonthFrom(year: int, month: int, n: int): (m: int)
    requires 1 <= month <= 12 && DaysBeforeMonth(year, month) < n <= DaysBeforeMonth(year, 13)
    ensures month <= m <= 12 && DaysBeforeMonth(year, m) < n <= DaysBeforeMonth(year, m + 1)
    decreases 12 - month
  {
    if n <= DaysBeforeMonth(year, month + 1) then month else MonthFrom(year, month + 1, n)
  }

  function FromOrdinal(n: int): (d: Date)
    requires n >= 1
    ensures Valid(d) && Ordinal(d) == n
  {
    var y := YearFrom(1, n);
    YearsTile(y);
    MonthsFillTheYear(y);
    var m := MonthFrom(y, 1, n - DaysBeforeYear(y));
    Date(y, m, n - DaysBeforeYear(y) - DaysBeforeMonth(y, m))
  }

  lemma OrdinalsAreUnique(d: Date)
    requires Valid(d)
    ensures Ordinal(d) >= 1 && FromOrdinal(Ordinal(d)) == d
  {
    if d.year > 1 {
      LaterYearStartsLater(1, d.year);
    }
    var e := FromOrdinal(Ordinal(d));
    EarlierMeansSmallerOrdinal(d, e);
    EarlierMeansSmallerOrdinal(e, d);
  }

  function AddDays(d: Date, days: nat): (later: Date)
    requires Valid(d)
    ensures Valid(later) && Ordinal(later) == Ordinal(d) + days
  {
    OrdinalsAreUnique(d);
    FromOrdinal(Ordinal(d) + days)
  }

  // ---------------------------------------------------------------- month steps

  /** The same day so many months on, clamped to the end of a shorter month. */
  function AddMonths(d: Date, months: nat): (later: Date)
    requires Valid(d)
    ensures Valid(later)
  {
    var index := d.month - 1 + months;
    var year := d.year + index / 12;
    var month := index % 12 + 1;
    Date(year, month, if d.day <= DaysInMonth(year, month) then d.day else DaysInMonth(year, month))
  }

  /** A month step moves to the month that many months on, keeps the day unless that month is
      too short, and is always later. */
  lemma MonthStepIsLater(d: Date, months: nat)
    requires Valid(d) && months >= 1
    ensures var later := AddMonths(d, months);
            && 12 * later.year + later.month == 12 * d.year + d.month + months
            && (later.day == d.day || (later.day < d.day && later.day == DaysInMonth(later.year, later.month)))
            && Ordinal(d) < Ordinal(later)
  {
    var index := d.month - 1 + months;
    assert index == 12 * (index / 12) + index % 12;
    EarlierIsSmaller(d, AddMonths(d, months));
  }

  // ---------------------------------------------------------------- day counts

  datatype Convention = Act365 | Act360 | Thirty360

  function Denominator(c: Convention): real {
    if c == Act365 then 365.0 else 360.0
  }

  /** Days between two dates under a day-count convention (30/360 as in section 4.16(f) of the
      2006 ISDA Definitions). */
  function DaysBetween(start: Date, end: Date, c: Convention): int
    requires Valid(start) && Valid(end)
  {
    if c == Thirty360 then
      var d1 := if start.day <= 30 then start.day else 30;
      var d2 := if d1 == 30 && end.day > 30 then 30 else end.day;
      (end.year - start.year) * 360 + (end.month - start.month) * 30 + (d2 - d1)
    else Ordinal(end) - Ordinal(start)
  }

  /** Actual day counts add up over consecutive periods. */
  lemma ActualDaysAddUp(a: Date, b: Date, d: Date, c: Convention)
    requires Valid(a) && Valid(b) && Valid(d) && c != Thirty360
    ensures DaysBetween(a, b, c) + DaysBetween(b, d, c) == DaysBetween(a, d, c)
  {
  }

  function Bit(b: bool): int {
    if b then 1 else 0
  }

  /** How many days two consecutive 30/360 counts have more than the whole. */
  function Overcount(a: Date, b: Date, d: Date): int {
    Bit(b.day == 31 && a.day < 30) + Bit(d.day == 31 && a.day >= 30) - Bit(d.day == 31 && b.day >= 30)
  }

  /** 30/360 counts add up exactly when the 31sts among the dates cancel out. */
  lemma ThirtyDaysAddUpExactlyWhen(a: Date, b: Date, d: Date)
    requires Valid(a) && Valid(b) && Valid(d)
    ensures DaysBetween(a, b, Thirty360) + DaysBetween(b, d, Thirty360)
            == DaysBetween(a, d, Thirty360) + Overcount(a, b, d)
    ensures DaysBetween(a, b, Thirty360) + DaysBetween(b, d, Thirty360) == DaysBetween(a, d, Thirty360)
            <==> Bit(b.day == 31 && a.day < 30) + Bit(d.day == 31 && a.day >= 30) == Bit(d.day == 31 && b.day >= 30)
  {
  }

  /** A split at a 31st gains a day. */
  lemma ThirtyDaysDoNotAddUp()
    ensures var a, b, d := Date(2025, 1, 15), Date(2025, 1, 31), Date(2025, 2, 15);
            DaysBetween(a, b, Thirty360) + DaysBetween(b, d, Thirty360) == DaysBetween(a, d, Thirty360) + 1
  {
  }
}
