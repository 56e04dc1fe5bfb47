/** The periodic interest schedule of an investment: calendar periods from the start date to
    maturity, the last one cut off at maturity. */
module PeriodicInterest {
  import opened Money
  import opened Calendar
  import opened Interest

  datatype Frequency = Monthly | Quarterly | SemiAnnual | Annual | Other

  datatype Entry = Entry(period: int, start: Date, end: Date, interest: int)

  datatype Deposit = Deposit(
    principal: int, ratePct: real, start: Date, maturity: Date, frequency: Frequency, convention: Convention)

  function MonthsOf(f: Frequency): nat {
    match f
    case Monthly => 1
    case Quarterly => 3
    case SemiAnnual => 6
    case Annual => 12
    case Other => 0
  }

  /** Only a known frequency and a positive term give a schedule. */
  predicate Scheduled(d: Deposit) {
    MonthsOf(d.frequency) > 0 && Earlier(d.start, d.maturity)
  }

  /** Each entry is one period with its own interest: `months` months long, except that the
      last is cut off at maturity. */
  ghost predicate IsPeriod(d: Deposit, e: Entry, i: int) {
    && Valid(e.start) && Valid(e.end)
    && e.period == i + 1
    && Earlier(e.start, e.end)
    && e.interest == SimpleInterest(d.principal, d.ratePct, e.start, e.end, d.convention)
    && e.end == if Earlier(AddMonths(e.start, MonthsOf(d.frequency)), d.maturity)
                then AddMonths(e.start, MonthsOf(d.frequency)) else d.maturity
  }

  /** Consecutive periods from the start date up to `end`. */
  ghost predicate TilesTo(d: Deposit, entries: seq<Entry>, end: Date) {
    && (forall i | 0 <= i < |entries| :: IsPeriod(d, entries[i], i))
    && (forall i | 0 <= i < |entries| - 1 :: entries[i + 1].start == entries[i].end)
    && (entries == [] ==> end == d.start)
    && (entries != [] ==> entries[0].start == d.start && entries[|entries| - 1].end == end)
  }

  lemma OneMorePeriod(d: Deposit, entries: seq<Entry>, end: Date, e: Entry)
    requires TilesTo(d, entries, end) && IsPeriod(d, e, |entries|) && e.start == end
    ensures TilesTo(d, entries + [e], e.end)
  {
    hide IsPeriod;
  }

  /** The loop terminates because a month step always moves forward, and its periods tile the
      term exactly: consecutive, none empty, from start to maturity. */
  method GeneratePeriodicInterestSchedule(d: Deposit) returns (schedule: seq<Entry>)
    requires Valid(d.start) && Valid(d.maturity)
    ensures !Scheduled(d) ==> schedule == []
    ensures Scheduled(d) ==> schedule != [] && TilesTo(d, schedule, d.maturity)
  {
    schedule := [];
    if MonthsOf(d.frequency) == 0 || !Earlier(d.start, d.maturity) {
      return;
    }
    hide TilesTo;
    var months := MonthsOf(d.frequency);
    var periodStart, period := d.start, 1;
    while Earlier(periodStart, d.maturity)
      invariant Valid(periodStart) && period == |schedule| + 1
      invariant TilesTo(d, schedule, periodStart)
      invariant Earlier(periodStart, d.maturity)
      decreases Ordinal(d.maturity) - Ordinal(periodStart)
    {
      var periodEnd := AddMonths(periodStart, months);
      MonthStepIsLater(periodStart, months);
      EarlierMeansSmallerOrdinal(periodStart, periodEnd);
      EarlierMeansSmallerOrdinal(periodEnd, d.maturity);
      if !Earlier(periodEnd, d.maturity) {
        periodEnd := d.maturity;
      }
      var interest := SimpleInterest(d.principal, d.ratePct, periodStart, periodEnd, d.convention);
      var entry := Entry(period, periodStart, periodEnd, interest);
      OneMorePeriod(d, schedule, periodStart, entry);
      schedule := schedule + [entry];
      if !Earlier(periodEnd, d.maturity) {
        break;
      }
      periodStart, period := periodEnd, period + 1;
    }
  }

  // ---------------------------------------------------------------- the interest adds up

  function TotalInterest(entries: seq<Entry>): int {
    if entries == [] then 0 else TotalInterest(entries[..|entries| - 1]) + entries[|entries| - 1].interest
  }

  /** Exact interest between two dates. */
  function AccruedBetween(d: Deposit, from: Date, to: Date): real
    requires Valid(from) && Valid(to)
  {
    Accrued(d.principal, d.ratePct, DaysBetween(from, to, d.convention), d.convention)
  }

  lemma NothingAccruesInNoTime(d: Deposit)
    requires Valid(d.start) && d.convention != Thirty360
    ensures AccruedBetween(d, d.start, d.start) == 0.0
  {
    hide Ordinal;
  }

  lemma AccruedStep(d: Deposit, mid: Date, end: Date)
    requires Valid(d.start) && Valid(mid) && Valid(end) && d.convention != Thirty360
    ensures AccruedBetween(d, d.start, end) == AccruedBetween(d, d.start, mid) + AccruedBetween(d, mid, end)
    ensures var interest := SimpleInterest(d.principal, d.ratePct, mid, end, d.convention);
            Abs(interest as real - AccruedBetween(d, mid, end)) <= 0.5
  {
    hide Ordinal, Valid;
    ActualDaysAddUp(d.start, mid, end, d.convention);
    hide DaysBetween;
    AccrualAddsUp(d.principal, d.ratePct, DaysBetween(d.start, mid, d.convention),
        DaysBetween(mid, end, d.convention), d.convention);
    RoundingError(AccruedBetween(d, mid, end));
    hide RoundCents, Accrued;
  }

  lemma {:induction false} InterestSoFar(d: Deposit, entries: seq<Entry>, end: Date)
    requires Valid(d.start) && Valid(end) && d.convention != Thirty360 && TilesTo(d, entries, end)
    ensures Abs(TotalInterest(entries) as real - AccruedBetween(d, d.start, end)) <= |entries| as real / 2.0
  {
    hide RoundCents, AccruedBetween, SimpleInterest, Valid, AddMonths, Earlier, MonthsOf;
    if entries == [] {
      NothingAccruesInNoTime(d);
    } else {
      hide TilesTo, Abs;
      var front, last := entries[..|entries| - 1], entries[|entries| - 1];
      InterestSoFar(d, front, last.start);
      AccruedStep(d, last.start, end);
    }
  }

  /** Under an actual day count the interest of the n periods differs from the interest of the
      whole term by at most (n + 1) / 2 cents, rounding in every period notwithstanding. */
  lemma PeriodsEarnTheWholeTerm(d: Deposit, schedule: seq<Entry>)
    requires Valid(d.start) && Valid(d.maturity) && d.convention != Thirty360 && TilesTo(d, schedule, d.maturity)
    ensures var whole := SimpleInterest(d.principal, d.ratePct, d.start, d.maturity, d.convention);
            -(|schedule| + 1) <= 2 * (TotalInterest(schedule) - whole) <= |schedule| + 1
  {
    hide TilesTo, Accrued, Valid, DaysBetween;
    InterestSoFar(d, schedule, d.maturity);
    RoundingError(AccruedBetween(d, d.start, d.maturity));
    hide RoundCents;
  }

  // ---------------------------------------------------------------- month ends

  /** Every period but the last is exactly one month step. */
  lemma NonFinalPeriodsAreMonths(d: Deposit, schedule: seq<Entry>, i: nat)
    requires TilesTo(d, schedule, d.maturity) && i < |schedule| - 1
    ensures schedule[i].end == AddMonths(schedule[i].start, MonthsOf(d.frequency))
  {
    assert IsPeriod(d, schedule[i], i) && IsPeriod(d, schedule[i + 1], i + 1);
    var next := schedule[i + 1];
    assert Earlier(next.start, next.end) && next.start == schedule[i].end;
    assert next.end == d.maturity || Earlier(next.end, d.maturity);
  }

  /** The months that `k` periods take. */
  function MonthsIn(k: nat, months: nat): nat {
    k * months
  }

  /** The length of the month so many months after the start. */
  function MonthLength(start: Date, months: nat): int {
    var index := start.month - 1 + months;
    DaysInMonth(start.year + index / 12, index % 12 + 1)
  }

  /** The start day cut down to the shortest of the first `k` months reached. */
  function ReachedDay(start: Date, months: nat, k: nat): int {
    if k == 0 then start.day
    else Lesser(ReachedDay(start, months, k - 1), MonthLength(start, MonthsIn(k, months)))
  }

  function Lesser(a: int, b: int): int {
    if a <= b then a else b
  }

  lemma MonthLengthAfter(start: Date, from: Date, step: nat, months: nat)
    requires Valid(start) && Valid(from)
    requires 12 * from.year + from.month == 12 * start.year + start.month + months
    ensures var later := AddMonths(from, step);
            && 12 * later.year + later.month == 12 * start.year + start.month + months + step
            && later.day == Lesser(from.day, MonthLength(start, months + step))
            && MonthLength(start, months + step) == DaysInMonth(later.year, later.month)
  {
    hide DaysInMonth;
    var index, whole := from.month - 1 + step, start.month - 1 + months + step;
    assert index == 12 * (index / 12) + index % 12 && whole == 12 * (whole / 12) + whole % 12;
  }

  /** Every period but the last ends in its own month, on the start day cut down to the shortest
      month reached so far. */
  lemma {:induction false} EndsOnTheReachedDay(d: Deposit, schedule: seq<Entry>, i: nat)
    requires TilesTo(d, schedule, d.maturity) && i < |schedule| - 1
    ensures var months, end := MonthsOf(d.frequency), schedule[i].end;
            && 12 * end.year + end.month == 12 * d.start.year + d.start.month + MonthsIn(i + 1, months)
            && end.day == ReachedDay(d.start, months, i + 1)
  {
    hide DaysInMonth, Earlier, SimpleInterest, AddMonths, MonthsOf, MonthLength;
    var months := MonthsOf(d.frequency);
    assert IsPeriod(d, schedule[0], 0) && IsPeriod(d, schedule[i], i);
    NonFinalPeriodsAreMonths(d, schedule, i);
    assert MonthsIn(i + 1, months) == MonthsIn(i, months) + months;
    if i > 0 {
      EndsOnTheReachedDay(d, schedule, i - 1);
      assert schedule[i - 1 + 1].start == schedule[i - 1].end;
    }
    MonthLengthAfter(d.start, schedule[i].start, months, MonthsIn(i, months));
  }

  lemma {:induction false} ReachedDayIsTheLeast(start: Date, months: nat, k: nat)
    ensures ReachedDay(start, months, k) <= start.day
    ensures forall j | 1 <= j <= k :: ReachedDay(start, months, k) <= MonthLength(start, MonthsIn(j, months))
    ensures ReachedDay(start, months, k) == start.day
            || exists j :: 1 <= j <= k && ReachedDay(start, months, k) == MonthLength(start, MonthsIn(j, months))
  {
    hide MonthLength;
    if k > 0 {
      ReachedDayIsTheLeast(start, months, k - 1);
    }
  }

  lemma ReachesTheDueDayExactlyWhen(start: Date, months: nat, i: nat)
    ensures var due := Lesser(start.day, MonthLength(start, MonthsIn(i + 1, months)));
            ReachedDay(start, months, i + 1) == due
            <==> forall j | 1 <= j <= i :: due <= MonthLength(start, MonthsIn(j, months))
  {
    hide MonthLength;
    ReachedDayIsTheLeast(start, months, i);
    hide ReachedDay;
    assert ReachedDay(start, months, i + 1)
        == Lesser(ReachedDay(start, months, i), MonthLength(start, MonthsIn(i + 1, months))) by {
      ReachedDayStep(start, months, i);
    }
  }

  lemma ReachedDayStep(start: Date, months: nat, i: nat)
    ensures ReachedDay(start, months, i + 1)
            == Lesser(ReachedDay(start, months, i), MonthLength(start, MonthsIn(i + 1, months)))
  {
  }

  lemma SameDateWhenSameDay(a: Date, b: Date)
    requires Valid(a) && Valid(b) && 12 * a.year + a.month == 12 * b.year + b.month
    ensures a == b <==> a.day == b.day
  {
  }

  /** A period ends where so many months from the start would be exactly when no earlier month
      reached was shorter than the day it should end on. */
  lemma EndsOnTheStartDayExactlyWhen(d: Deposit, schedule: seq<Entry>, i: nat)
    requires Valid(d.start) && TilesTo(d, schedule, d.maturity) && i < |schedule| - 1
    ensures var months := MonthsOf(d.frequency);
            var due := Lesser(d.start.day, MonthLength(d.start, MonthsIn(i + 1, months)));
            schedule[i].end == AddMonths(d.start, MonthsIn(i + 1, months))
            <==> forall j | 1 <= j <= i :: due <= MonthLength(d.start, MonthsIn(j, months))
  {
    hide Valid, MonthsOf, TilesTo, AddMonths, MonthLength, MonthsIn, ReachedDay, Lesser;
    var months := MonthsOf(d.frequency);
    EndsOnTheReachedDay(d, schedule, i);
    MonthLengthAfter(d.start, d.start, MonthsIn(i + 1, months), 0);
    ReachesTheDueDayExactlyWhen(d.start, months, i);
    EndsAreValid(d, schedule, i);
    SameDateWhenSameDay(schedule[i].end, AddMonths(d.start, MonthsIn(i + 1, months)));
  }

  lemma EndsAreValid(d: Deposit, schedule: seq<Entry>, i: nat)
    requires TilesTo(d, schedule, d.maturity) && i < |schedule|
    ensures Valid(schedule[i].end)
  {
    assert IsPeriod(d, schedule[i], i);
  }

  /** Monthly from 31 January 2025: the second period ends on 28 March, not on the 31st. */
  lemma JanuaryLosesItsDay(d: Deposit, schedule: seq<Entry>)
    requires d.frequency == Monthly && d.start == Date(2025, 1, 31)
    requires TilesTo(d, schedule, d.maturity) && |schedule| > 2
    ensures schedule[1].end == Date(2025, 3, 28) && AddMonths(d.start, 2) == Date(2025, 3, 31)
  {
    NonFinalPeriodsAreMonths(d, schedule, 0);
    NonFinalPeriodsAreMonths(d, schedule, 1);
    hide TilesTo, SimpleInterest;
    assert schedule[0].end == Date(2025, 2, 28);
  }
}
