/** What an interest figure is in numbers: principal times rate times days over 365 or 360, to the
    nearest cent, for every row of a repayment schedule and every entry of a periodic one. */
module InterestFigures {
  import opened Money
  import opened Calendar
  import opened Interest
  import RepaymentSchedule
  import PeriodicInterest
  import ET = EarlyTermination

  // ---------------------------------------------------------------- days

  /** The day number when every month has 30 days. */
  function ThirtyDayNumber(d: Date): int {
    360 * d.year + 30 * d.month + if d.day == 31 then 30 else d.day
  }

  /** Days on the calendar, or 30 for every month with a 31st counted only at the end of a period
      that does not begin on the 30th or 31st. */
  function DaysCounted(start: Date, end: Date, c: Convention): int {
    match c
    case Act365 => Ordinal(end) - Ordinal(start)
    case Act360 => Ordinal(end) - Ordinal(start)
    case Thirty360 => ThirtyDayNumber(end) - ThirtyDayNumber(start) + if end.day == 31 && start.day < 30 then 1 else 0
  }

  lemma DaysAreCounted(start: Date, end: Date, c: Convention)
    requires Valid(start) && Valid(end)
    ensures DaysBetween(start, end, c) == DaysCounted(start, end, c)
  {
    hide Ordinal, DaysInMonth;
  }

  /** Every fourth year, but of the full centuries only every fourth. */
  predicate HasLeapDay(year: int) {
    year % 400 == 0 || (year % 4 == 0 && year % 100 != 0)
  }

  function LengthOf(year: int, month: int): int
    requires 1 <= month <= 12
  {
    [31, if HasLeapDay(year) then 29 else 28, 31, 30, 31, 30, 31, 31, 30, 31, 30, 31][month - 1]
  }

  lemma LeapYearsAre(year: int)
    ensures IsLeap(year) <==> HasLeapDay(year)
  {
    var q := year / 400;
    assert year % 400 == 0 ==> year == 4 * (100 * q) && year % 4 == 0;
  }

  lemma MonthsAreThisLong(year: int, month: int)
    requires 1 <= month <= 12
    ensures DaysInMonth(year, month) == LengthOf(year, month)
  {
    LeapYearsAre(year);
    hide IsLeap, HasLeapDay;
  }

  /** Day numbers follow the Gregorian calendar: they begin with 1 January of year 1, and each month
      begins as many days after the last as that has. */
  lemma MonthsHaveTheirLengths(year: int, month: int, day: int)
    requires year >= 1 && 1 <= month <= 12
    ensures Valid(Date(year, month, day)) <==> 1 <= day <= LengthOf(year, month)
    ensures Ordinal(Date(year, month, day)) - Ordinal(Date(year, month, 1)) == day - 1
    ensures var next := if month == 12 then Date(year + 1, 1, 1) else Date(year, month + 1, 1);
            Ordinal(next) - Ordinal(Date(year, month, 1)) == LengthOf(year, month)
  {
    hide DaysInMonth, LengthOf, DaysBeforeYear, DaysBeforeMonth, DaysInYear;
    MonthsAreThisLong(year, month);
    MonthsTile(year, month);
    YearsTile(year);
    MonthsFillTheYear(year);
    JanuaryIsFirst(year);
    JanuaryIsFirst(year + 1);
  }

  lemma JanuaryIsFirst(year: int)
    ensures DaysBeforeMonth(year, 1) == 0
  {
  }

  lemma DaysBeginWithYearOne()
    ensures Ordinal(Date(1, 1, 1)) == 1
  {
  }

  // ---------------------------------------------------------------- one figure

  /** The figure is within half a cent of principal x percent / 100 x days / year. */
  predicate NearestCent(interest: int, principal: int, ratePct: real, days: int, c: Convention) {
    var exact := principal as real * ratePct * days as real;
    if c == Act365 then -18250.0 <= 36500.0 * interest as real - exact <= 18250.0
    else -18000.0 <= 36000.0 * interest as real - exact <= 18000.0
  }

  lemma PercentOfAYear(principal: real, ratePct: real, days: real, year: real)
    requires year > 0.0
    ensures 100.0 * year * (principal * (ratePct / 100.0) * days / year) == principal * ratePct * days
  {
    var x := principal * (ratePct / 100.0) * days;
    assert year * (x / year) == x;
    assert 100.0 * (principal * (ratePct / 100.0)) == principal * ratePct;
    Regroup(principal * (ratePct / 100.0), days, 100.0);
  }

  lemma Regroup(a: real, b: real, k: real)
    ensures k * (a * b) == (k * a) * b
  {
  }

  lemma RoundedAccrualIsNearest(principal: int, ratePct: real, days: int, c: Convention)
    ensures NearestCent(RoundCents(Accrued(principal, ratePct, days, c)), principal, ratePct, days, c)
  {
    var accrued := Accrued(principal, ratePct, days, c);
    RoundingError(accrued);
    PercentOfAYear(principal as real, ratePct, days as real, 365.0);
    PercentOfAYear(principal as real, ratePct, days as real, 360.0);
    hide RoundCents;
  }

  lemma SimpleInterestIsNearest(principal: int, ratePct: real, start: Date, end: Date, c: Convention)
    requires Valid(start) && Valid(end)
    ensures NearestCent(SimpleInterest(principal, ratePct, start, end, c), principal, ratePct,
                        DaysCounted(start, end, c), c)
  {
    hide Valid, DaysBetween, DaysCounted, RoundCents, Accrued, NearestCent;
    DaysAreCounted(start, end, c);
    RoundedAccrualIsNearest(principal, ratePct, DaysCounted(start, end, c), c);
  }

  // ---------------------------------------------------------------- whole schedules

  lemma BoundaryIs(t: RepaymentSchedule.Terms, i: nat, d: Date)
    requires Valid(t.start) && Valid(d) && Ordinal(d) == Ordinal(t.start) + t.periodDays * i
    ensures RepaymentSchedule.Boundary(t, i) == d && RepaymentSchedule.Due(t, i) == Ordinal(d)
  {
    hide Valid, Ordinal;
    OrdinalsAreUnique(d);
    OrdinalsAreUnique(RepaymentSchedule.Boundary(t, i));
  }

  lemma DaysOfAPeriod(t: RepaymentSchedule.Terms, i: nat, start: Date, end: Date)
    requires Ordinal(start) == Ordinal(t.start) + t.periodDays * i && t.convention != Thirty360
    requires Ordinal(end) == Ordinal(t.start) + t.periodDays * (i + 1)
    ensures DaysCounted(start, end, t.convention) == t.periodDays
  {
    hide Ordinal;
    assert t.periodDays * (i + 1) == t.periodDays * i + t.periodDays;
  }

  /** Row `i` (from 0) charges its opening balance for the days of its period, which begins and ends
      that many period lengths after the start. */
  lemma ScheduleChargesItsPeriods(
    t: RepaymentSchedule.Terms, level: int, principal: int, n: nat, i: nat, start: Date, end: Date)
    requires Valid(t.start) && Valid(start) && Valid(end) && i < n
    requires Ordinal(start) == Ordinal(t.start) + t.periodDays * i
    requires Ordinal(end) == Ordinal(t.start) + t.periodDays * (i + 1)
    ensures var row := RepaymentSchedule.Rows(t, level, n, principal, n)[i];
            && NearestCent(row.interest, row.opening, t.ratePct, DaysCounted(start, end, t.convention), t.convention)
            && (t.convention != Thirty360 ==>
                  NearestCent(row.interest, row.opening, t.ratePct, t.periodDays, t.convention))
            && row.due == Ordinal(end)
  {
    hide Valid, Ordinal, RepaymentSchedule.Rows, NearestCent, SimpleInterest, RepaymentSchedule.Balance, DaysCounted;
    hide RepaymentSchedule.Boundary, RepaymentSchedule.Due, RepaymentSchedule.Repaid;
    RepaymentSchedule.RowsAre(t, level, n, principal, n, i);
    BoundaryIs(t, i, start);
    BoundaryIs(t, i + 1, end);
    var opening := RepaymentSchedule.Balance(t, level, n, principal, i);
    SimpleInterestIsNearest(opening, t.ratePct, start, end, t.convention);
    if t.convention != Thirty360 {
      DaysOfAPeriod(t, i, start, end);
    }
  }

  /** Entry `i`, numbered from 1, charges the principal for its days. */
  lemma PeriodsChargeTheirDays(d: PeriodicInterest.Deposit, schedule: seq<PeriodicInterest.Entry>, i: nat)
    requires PeriodicInterest.TilesTo(d, schedule, d.maturity) && i < |schedule|
    ensures schedule[i].period == i + 1
    ensures var e := schedule[i];
            NearestCent(e.interest, d.principal, d.ratePct, DaysCounted(e.start, e.end, d.convention), d.convention)
  {
    hide NearestCent, SimpleInterest, DaysCounted, AddMonths, Earlier;
    assert PeriodicInterest.IsPeriod(d, schedule[i], i);
    SimpleInterestIsNearest(d.principal, d.ratePct, schedule[i].start, schedule[i].end, d.convention);
  }

  /** Months from one date to another, by their year and month alone. */
  function MonthsApart(a: Date, b: Date): int {
    12 * (b.year - a.year) + (b.month - a.month)
  }

  /** There is a schedule exactly for a known frequency and a term that is not empty. */
  lemma ScheduledExactlyWhen(d: PeriodicInterest.Deposit)
    requires Valid(d.start) && Valid(d.maturity)
    ensures PeriodicInterest.Scheduled(d)
            <==> d.frequency != PeriodicInterest.Other && Ordinal(d.start) < Ordinal(d.maturity)
  {
    EarlierMeansSmallerOrdinal(d.start, d.maturity);
    hide Ordinal, Valid;
  }

  /** Periods are one, three, six or twelve months long; the last ends at maturity. */
  lemma PeriodsHaveTheirLength(d: PeriodicInterest.Deposit, schedule: seq<PeriodicInterest.Entry>, i: nat)
    requires PeriodicInterest.TilesTo(d, schedule, d.maturity) && i < |schedule|
    ensures i == |schedule| - 1 ==> schedule[i].end == d.maturity
    ensures i < |schedule| - 1 ==>
              MonthsApart(schedule[i].start, schedule[i].end)
              == match d.frequency
                 case Monthly => 1
                 case Quarterly => 3
                 case SemiAnnual => 6
                 case Annual => 12
                 case Other => 0
  {
    hide SimpleInterest, DaysInMonth;
    assert PeriodicInterest.IsPeriod(d, schedule[i], i);
    if i < |schedule| - 1 {
      PeriodicInterest.NonFinalPeriodsAreMonths(d, schedule, i);
    }
  }

  // ---------------------------------------------------------------- early termination

  /** The penalty is within half a cent of the flat amount's share for this part of the original. */
  predicate ShareOfFlat(penalty: int, flat: int, amount: int, original: int) {
    if original == 0 then penalty == flat
    else HalfACentOff(penalty as real, flat as real * amount as real, original as real)
  }

  /** `penalty` is within 0.5 of `whole / original`. */
  predicate HalfACentOff(penalty: real, whole: real, original: real) {
    var gap := 2.0 * (penalty * original - whole);
    (original > 0.0 ==> -original <= gap <= original) && (original < 0.0 ==> original <= gap <= -original)
  }

  lemma ProportionScales(flat: real, amount: real, original: real)
    requires original != 0.0
    ensures flat * (amount / original) * original == flat * amount
  {
    var x := amount / original;
    assert x * original == amount;
    assert flat * x * original == flat * (x * original);
  }

  lemma RoundedTimes(penalty: real, exact: real, original: real)
    requires Abs(penalty - exact) <= 0.5
    ensures HalfACentOff(penalty, exact * original, original)
  {
    var e := penalty - exact;
    assert penalty * original - exact * original == e * original;
    SmallTimes(e, original);
  }

  lemma SmallTimes(e: real, original: real)
    requires -0.5 <= e <= 0.5
    ensures original > 0.0 ==> -original <= 2.0 * (e * original) <= original
    ensures original < 0.0 ==> original <= 2.0 * (e * original) <= -original
  {
    var lower, upper := (e + 0.5) * original, (0.5 - e) * original;
    assert lower == e * original + 0.5 * original && upper == 0.5 * original - e * original;
  }

  lemma NearestShare(penalty: int, exact: real, flat: int, amount: int, original: int)
    requires original != 0 && exact * original as real == flat as real * amount as real
    requires Abs(penalty as real - exact) <= 0.5
    ensures ShareOfFlat(penalty, flat, amount, original)
  {
    hide HalfACentOff;
    RoundedTimes(penalty as real, exact, original as real);
  }

  lemma FlatShareIsNearest(c: ET.Contract, amount: int)
    requires c.penalty.FlatAmount?
    ensures ShareOfFlat(ET.Penalised(c, amount), c.penalty.amount, amount, c.originalPrincipal)
  {
    if c.originalPrincipal == 0 {
      WholeCentsStay(c.penalty.amount);
    } else {
      hide ET.Penalised, ET.FlatShare, ShareOfFlat;
      ShareScales(c, amount);
      NearestShare(ET.Penalised(c, amount), ET.FlatShare(c, amount), c.penalty.amount, amount, c.originalPrincipal);
    }
  }

  lemma ShareScales(c: ET.Contract, amount: int)
    requires c.penalty.FlatAmount? && c.originalPrincipal != 0
    ensures ET.FlatShare(c, amount) * c.originalPrincipal as real == c.penalty.amount as real * amount as real
    ensures Abs(ET.Penalised(c, amount) as real - ET.FlatShare(c, amount)) <= 0.5
  {
    ProportionScales(c.penalty.amount as real, amount as real, c.originalPrincipal as real);
    RoundingError(ET.FlatShare(c, amount));
    hide RoundCents;
  }

  /** What a termination pays, in figures: the principal and the interest to the day, less a share of
      a flat penalty; under a rate reduction twice the reduced interest less the full one; under
      forfeiture the principal alone. */
  lemma TerminationInFigures(c: ET.Contract, amount: int, date: Date) returns (full: int, reduced: int)
    requires Valid(c.start) && Valid(date)
    ensures var days := DaysCounted(c.start, date, c.convention);
            && NearestCent(full, amount, c.ratePct, days, c.convention)
            && (c.penalty.RateReduction? ==>
                  var rate := c.ratePct - c.penalty.rate;
                  NearestCent(reduced, amount, if rate > 0.0 then rate else 0.0, days, c.convention))
    ensures var r := ET.Terminated(c, amount, date);
            && r.principal == amount && (c.penalty.ForfeitInterest? || r.forfeited == 0)
            && match c.penalty
               case NoPenalty => r.penalty == 0 && r.interest == full && r.net == amount + full
               case FlatAmount(flat) =>
                 ShareOfFlat(r.penalty, flat, amount, c.originalPrincipal)
                 && r.interest == full && r.net == amount + full - r.penalty
               case RateReduction(rate) =>
                 if rate == 0.0 then r.penalty == 0 && r.interest == full && r.net == amount + full
                 else r.penalty == full - reduced && r.interest == reduced && r.net == amount + 2 * reduced - full
               case ForfeitInterest => r.penalty == r.forfeited == full && r.interest == 0 && r.net == amount
  {
    hide Valid, DaysBetween, NearestCent, DaysCounted, RoundCents, ET.Penalised, SimpleInterest;
    full := SimpleInterest(amount, c.ratePct, c.start, date, c.convention);
    SimpleInterestIsNearest(amount, c.ratePct, c.start, date, c.convention);
    if c.penalty.RateReduction? {
      var rate := if c.ratePct - c.penalty.rate > 0.0 then c.ratePct - c.penalty.rate else 0.0;
      reduced := SimpleInterest(amount, rate, c.start, date, c.convention);
      SimpleInterestIsNearest(amount, rate, c.start, date, c.convention);
    } else {
      reduced := full;
    }
    if c.penalty.FlatAmount? {
      FlatShareIsNearest(c, amount);
    }
  }
}
