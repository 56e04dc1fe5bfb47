/** The dates a recurring flow has of its own, counted from its start date, against the dates the
    forecast gives it.

    The expansion steps from the first day of the window.  When the flow began earlier that day
    need not be one of its dates. */
module RecurringSchedule {
  import opened Calendar
  import opened ReconciliationModel
  import opened RecurringFlows

  /** The flow's date number `n` from its start date, as a day number. */
  function Anchor(f: Flow, n: nat): int {
    if StepDays(f.frequency, f.custom) != 0 then Ordinal(f.start) + n * StepDays(f.frequency, f.custom)
    else Ordinal(MonthlyNext(f.start, n * MonthsStep(f.frequency), f.start.day))
  }

  /** One of the flow's own dates. */
  ghost predicate Anchored(f: Flow, o: int) {
    exists n: nat :: Anchor(f, n) == o
  }

  // ---------------------------------------------------------------- stepping along the own dates

  lemma StartIsItsOwn(f: Flow)
    ensures Anchor(f, 0) == Ordinal(f.start)
  {
    assert MonthlyNext(f.start, 0, f.start.day) == f.start;
  }

  lemma MonthStepsCompose(d: Day, a: nat, b: nat, day: int)
    requires day >= 1
    ensures MonthlyNext(MonthlyNext(d, a, day), b, day) == MonthlyNext(d, a + b, day)
  {
    hide DaysInMonth;
    var index := d.month - 1 + a;
    assert index == 12 * (index / 12) + index % 12;
  }

  /** From one of its dates the code steps to the next. */
  lemma StepFromAnchor(f: Flow, d: Day, n: nat)
    requires Ordinal(d) == Anchor(f, n)
    ensures NextOrdinal(f, d) == Anchor(f, n + 1)
  {
    hide Ordinal, MonthlyNext;
    var m := MonthsStep(f.frequency);
    if StepDays(f.frequency, f.custom) == 0 {
      StartDayIsPositive(f);
      var e := MonthlyNext(f.start, n * m, f.start.day);
      OrdinalsAreUnique(d);
      OrdinalsAreUnique(e);
      MonthStepsCompose(f.start, n * m, m, f.start.day);
      assert (n + 1) * m == n * m + m;
    } else {
      assert (n + 1) * StepDays(f.frequency, f.custom)
          == n * StepDays(f.frequency, f.custom) + StepDays(f.frequency, f.custom);
    }
  }

  lemma AnchorIncreases(f: Flow, n: nat)
    requires StepDays(f.frequency, f.custom) >= 0
    ensures Anchor(f, n) < Anchor(f, n + 1)
  {
    hide Ordinal, MonthlyNext;
    if StepDays(f.frequency, f.custom) == 0 {
      StartDayIsPositive(f);
      var d := MonthlyNext(f.start, n * MonthsStep(f.frequency), f.start.day);
      StepFromAnchor(f, d, n);
      MonthlyNextIsLater(d, MonthsStep(f.frequency), f.start.day);
    } else {
      var k := StepDays(f.frequency, f.custom);
      assert (n + 1) * k == n * k + k;
    }
  }

  lemma {:induction false} AnchorsIncrease(f: Flow, n: nat, m: nat)
    requires StepDays(f.frequency, f.custom) >= 0 && n <= m
    ensures Anchor(f, n) + (m - n) <= Anchor(f, m)
  {
    hide Anchor;
    if n < m {
      AnchorsIncrease(f, n, m - 1);
      AnchorIncreases(f, m - 1);
    }
  }

  lemma {:induction false} OccurrencesFollowAnchors(f: Flow, days: seq<Day>, first: Day, last: Day, a: nat, i: nat)
    requires StepThrough(f, days, first, last) && Ordinal(first) == Anchor(f, a) && i < |days|
    ensures Ordinal(days[i]) == Anchor(f, a + i)
  {
    hide Ordinal, Anchor, NextOrdinal, Valid;
    if i > 0 {
      OccurrencesFollowAnchors(f, days, first, last, a, i - 1);
      assert Ordinal(days[i - 1 + 1]) == NextOrdinal(f, days[i - 1]);
      StepFromAnchor(f, days[i - 1], a + i - 1);
    }
  }

  // ---------------------------------------------------------------- in figures

  /** The window runs from the later start to the earlier end, and consecutive dates in it are 1, 7 or
      14 days apart, the custom interval or else 30, or one or three months, on the start day or the
      month's last. */
  lemma DatesAreThisFarApart(f: Flow, days: seq<Day>, horizonStart: Day, horizonEnd: Day, i: nat)
    requires var first, last := WindowStart(f, horizonStart), WindowEnd(f, horizonEnd);
             StepThrough(f, days, first, last) && i < |days| - 1
    ensures Ordinal(days[0]) >= Ordinal(f.start) && Ordinal(days[0]) >= Ordinal(horizonStart)
            && (days[0] == f.start || days[0] == horizonStart)
    ensures Ordinal(days[i + 1]) <= Ordinal(horizonEnd)
            && (f.end.Some? ==> Ordinal(days[i + 1]) <= Ordinal(f.end.value))
    ensures var apart := Ordinal(days[i + 1]) - Ordinal(days[i]);
            var months := 12 * (days[i + 1].year - days[i].year) + days[i + 1].month - days[i].month;
            match f.frequency
            case Daily => apart == 1
            case Weekly => apart == 7
            case Biweekly => apart == 14
            case Custom => apart == if f.custom.Some? && f.custom.value != 0 then f.custom.value else 30
            case Monthly => months == 1 && OnStartDay(f, days[i + 1])
            case Quarterly => months == 3 && OnStartDay(f, days[i + 1])
  {
    hide Ordinal, Valid, DaysInMonth, MonthlyNext;
    EarlierMeansSmallerOrdinal(f.start, horizonStart);
    EarlierMeansSmallerOrdinal(horizonEnd, days[i + 1]);
    if f.end.Some? {
      EarlierMeansSmallerOrdinal(f.end.value, horizonEnd);
      EarlierMeansSmallerOrdinal(f.end.value, days[i + 1]);
    }
    assert Ordinal(days[i + 1]) == NextOrdinal(f, days[i]);
    if StepDays(f.frequency, f.custom) == 0 {
      StartDayIsPositive(f);
      NextMonthlyOccurrence(f, days, WindowStart(f, horizonStart), WindowEnd(f, horizonEnd), i + 1);
      MonthlyNextFields(days[i], MonthsStep(f.frequency), f.start.day);
    }
  }

  predicate OnStartDay(f: Flow, d: Day) {
    d.day == if f.start.day <= DaysInMonth(d.year, d.month) then f.start.day else DaysInMonth(d.year, d.month)
  }

  // ---------------------------------------------------------------- when the forecast keeps them

  /** The forecast has exactly the flow's own dates inside the window. */
  ghost predicate OnSchedule(f: Flow, days: seq<Day>, first: Day, last: Day) {
    forall d: Day :: d in days <==> Anchored(f, Ordinal(d)) && Ordinal(first) <= Ordinal(d) <= Ordinal(last)
  }

  /** Days are a whole number of steps from the start; months likewise, on the start day or the
      month's last. */
  predicate InPhase(f: Flow, d: Day) {
    var step := StepDays(f.frequency, f.custom);
    if step != 0 then (Ordinal(d) - Ordinal(f.start)) % step == 0
    else
      && (12 * (d.year - f.start.year) + d.month - f.start.month) % MonthsStep(f.frequency) == 0
      && d.day == (if f.start.day <= DaysInMonth(d.year, d.month) then f.start.day else DaysInMonth(d.year, d.month))
  }

  lemma MonthlyNextFields(d: Day, months: nat, day: int)
    requires day >= 1
    ensures var e := MonthlyNext(d, months, day);
            && 12 * e.year + e.month == 12 * d.year + d.month + months
            && e.day == if day <= DaysInMonth(e.year, e.month) then day else DaysInMonth(e.year, e.month)
  {
    hide DaysInMonth;
    var index := d.month - 1 + months;
    assert index == 12 * (index / 12) + index % 12;
  }

  lemma AtLeastOnce(a: int, m: int)
    requires m > 0
    ensures a >= 1 ==> a * m >= m
    ensures a <= -1 ==> a * m <= -m
  {
  }

  lemma Multiple(n: nat, m: int)
    requires m > 0
    ensures (n * m) % m == 0
  {
    var p := n * m;
    var q, r := p / m, p % m;
    assert p == q * m + r;
    assert (n - q) * m == n * m - q * m;
    AtLeastOnce(n - q, m);
  }

  lemma MonthAnchorIsInPhase(f: Flow, d: Day, n: nat)
    requires StepDays(f.frequency, f.custom) == 0 && Ordinal(d) == Anchor(f, n)
    ensures InPhase(f, d)
  {
    hide Ordinal, MonthlyNext, DaysInMonth;
    StartDayIsPositive(f);
    var months := n * MonthsStep(f.frequency);
    OrdinalsAreUnique(d);
    OrdinalsAreUnique(MonthlyNext(f.start, months, f.start.day));
    MonthlyNextFields(f.start, months, f.start.day);
    Multiple(n, MonthsStep(f.frequency));
    assert 12 * (d.year - f.start.year) + d.month - f.start.month == months;
  }

  lemma InPhaseIsMonthAnchor(f: Flow, d: Day)
    requires StepDays(f.frequency, f.custom) == 0 && !Earlier(d, f.start) && InPhase(f, d)
    ensures Anchored(f, Ordinal(d))
  {
    hide Ordinal, MonthlyNext, DaysInMonth;
    StartDayIsPositive(f);
    var diff := 12 * (d.year - f.start.year) + d.month - f.start.month;
    var n := diff / MonthsStep(f.frequency);
    assert n * MonthsStep(f.frequency) == diff;
    MonthlyNextFields(f.start, diff, f.start.day);
    assert Anchor(f, n) == Ordinal(d);
  }

  lemma PhaseOfDays(f: Flow, d: Day)
    requires StepDays(f.frequency, f.custom) > 0 && Ordinal(f.start) <= Ordinal(d)
    ensures Anchored(f, Ordinal(d)) <==> InPhase(f, d)
  {
    hide Ordinal;
    var k := StepDays(f.frequency, f.custom);
    if n: nat :| Anchor(f, n) == Ordinal(d) {
      Multiple(n, k);
    }
    if InPhase(f, d) {
      var n := (Ordinal(d) - Ordinal(f.start)) / k;
      assert Anchor(f, n) == Ordinal(d);
    }
  }

  /** On or after its start a flow has a day among its own dates exactly when it is in phase. */
  lemma AnchoredExactlyWhenInPhase(f: Flow, d: Day)
    requires StepDays(f.frequency, f.custom) >= 0 && Ordinal(f.start) <= Ordinal(d)
    ensures Anchored(f, Ordinal(d)) <==> InPhase(f, d)
  {
    hide Ordinal, InPhase, Anchor, StepDays;
    if StepDays(f.frequency, f.custom) == 0 {
      EarlierMeansSmallerOrdinal(d, f.start);
      if n: nat :| Anchor(f, n) == Ordinal(d) {
        MonthAnchorIsInPhase(f, d, n);
      }
      if InPhase(f, d) {
        InPhaseIsMonthAnchor(f, d);
      }
    } else {
      PhaseOfDays(f, d);
    }
  }

  lemma AnchoredWindowIsCovered(f: Flow, days: seq<Day>, first: Day, last: Day, a: nat, d: Day)
    requires StepThrough(f, days, first, last) && Complete(f, days, first, last)
    requires StepDays(f.frequency, f.custom) >= 0 && !Earlier(last, first) && Ordinal(first) == Anchor(f, a)
    requires Anchored(f, Ordinal(d)) && Ordinal(first) <= Ordinal(d) <= Ordinal(last)
    ensures d in days
  {
    hide Ordinal, Anchor, NextOrdinal, Valid, StepDays, Earlier;
    var k := |days| - 1;
    OccurrencesFollowAnchors(f, days, first, last, a, k);
    StepFromAnchor(f, days[k], a + k);
    var n: nat :| Anchor(f, n) == Ordinal(d);
    if n < a {
      AnchorsIncrease(f, n, a);
    } else if n > a + k {
      AnchorsIncrease(f, a + k + 1, n);
    } else {
      OccurrencesFollowAnchors(f, days, first, last, a, n - a);
      OrdinalsAreUnique(d);
      OrdinalsAreUnique(days[n - a]);
    }
  }

  lemma AnchoredStartKeepsTheSchedule(f: Flow, days: seq<Day>, first: Day, last: Day, a: nat)
    requires StepThrough(f, days, first, last) && Complete(f, days, first, last)
    requires StepDays(f.frequency, f.custom) >= 0 && !Earlier(last, first) && Ordinal(first) == Anchor(f, a)
    ensures OnSchedule(f, days, first, last)
  {
    hide Ordinal, Anchor, NextOrdinal, Valid, StepDays, Earlier, Complete;
    forall d: Day ensures d in days <==> Anchored(f, Ordinal(d)) && Ordinal(first) <= Ordinal(d) <= Ordinal(last) {
      if d in days {
        var i :| 0 <= i < |days| && days[i] == d;
        OccurrencesFollowAnchors(f, days, first, last, a, i);
        EarlierMeansSmallerOrdinal(last, d);
        if i > 0 {
          OccurrencesIncrease(f, days, first, last, 0, i);
        }
      } else if Anchored(f, Ordinal(d)) && Ordinal(first) <= Ordinal(d) <= Ordinal(last) {
        AnchoredWindowIsCovered(f, days, first, last, a, d);
      }
    }
  }

  /** The forecast of a flow has exactly its own dates if and only if the window is empty, the
      flow does not begin before the horizon, or the horizon begins in phase with it. */
  lemma OnScheduleExactlyWhen(f: Flow, days: seq<Day>, horizonStart: Day, horizonEnd: Day)
    requires var first, last := WindowStart(f, horizonStart), WindowEnd(f, horizonEnd);
             StepThrough(f, days, first, last) && Complete(f, days, first, last)
    ensures var first, last := WindowStart(f, horizonStart), WindowEnd(f, horizonEnd);
            OnSchedule(f, days, first, last)
            <==> Earlier(last, first) || !Earlier(f.start, horizonStart) || InPhase(f, horizonStart)
  {
    hide Ordinal, Anchor, NextOrdinal, Valid, StepDays, InPhase, WindowEnd;
    var first, last := WindowStart(f, horizonStart), WindowEnd(f, horizonEnd);
    EarlierMeansSmallerOrdinal(f.start, horizonStart);
    EarlierMeansSmallerOrdinal(last, first);
    if Earlier(last, first) {
      EmptyWindow(f, days, first, last);
    } else {
      ForwardStep(f, days, first, last);
      StartIsItsOwn(f);
      AnchoredExactlyWhenInPhase(f, first);
      if Anchored(f, Ordinal(first)) {
        var a: nat :| Anchor(f, a) == Ordinal(first);
        AnchoredStartKeepsTheSchedule(f, days, first, last, a);
      } else {
        assert days[0] in days && days[0] == first;
      }
    }
  }

  lemma EmptyWindow(f: Flow, days: seq<Day>, first: Day, last: Day)
    requires StepThrough(f, days, first, last) && Ordinal(last) < Ordinal(first)
    ensures OnSchedule(f, days, first, last)
  {
    hide Ordinal, Anchored;
    if days != [] {
      EarlierMeansSmallerOrdinal(last, days[0]);
    }
  }

  /** A negative interval expands to something only when it expands to nothing. */
  lemma ForwardStep(f: Flow, days: seq<Day>, first: Day, last: Day)
    requires StepThrough(f, days, first, last) && Complete(f, days, first, last) && !Earlier(last, first)
    ensures StepDays(f.frequency, f.custom) >= 0 && days != []
  {
    hide Ordinal, MonthlyNext, StepDays, Valid;
    EarlierMeansSmallerOrdinal(last, days[|days| - 1]);
  }

  // ---------------------------------------------------------------- out of phase

  lemma {:induction false} DayStepsKeepTheirPhase(f: Flow, days: seq<Day>, first: Day, last: Day, i: nat)
    requires StepThrough(f, days, first, last) && StepDays(f.frequency, f.custom) > 0 && i < |days|
    ensures InPhase(f, days[i]) <==> InPhase(f, first)
  {
    hide Ordinal, Valid;
    if i > 0 {
      DayStepsKeepTheirPhase(f, days, first, last, i - 1);
      assert Ordinal(days[i - 1 + 1]) == NextOrdinal(f, days[i - 1]);
      SameRemainder(Ordinal(days[i - 1]) - Ordinal(f.start), StepDays(f.frequency, f.custom));
    }
  }

  lemma SameRemainder(x: int, k: int)
    requires k > 0
    ensures (x + k) % k == 0 <==> x % k == 0
  {
    var q, r := x / k, x % k;
    assert x + k == (q + 1) * k + r;
    var p, t := (x + k) / k, (x + k) % k;
    assert (p - q - 1) * k == p * k - (q + 1) * k;
    AtLeastOnce(p - q - 1, k);
  }

  /** With day steps an out-of-phase start moves every date: none of the forecast is the flow's
      own. */
  lemma DayStepsMoveAllOrNone(f: Flow, days: seq<Day>, horizonStart: Day, horizonEnd: Day, d: Day)
    requires StepDays(f.frequency, f.custom) > 0 && Earlier(f.start, horizonStart)
    requires StepThrough(f, days, WindowStart(f, horizonStart), WindowEnd(f, horizonEnd)) && d in days
    ensures Anchored(f, Ordinal(d)) <==> InPhase(f, horizonStart)
  {
    hide Ordinal, Anchored, InPhase, StepDays, WindowEnd, Valid;
    var first, last := WindowStart(f, horizonStart), WindowEnd(f, horizonEnd);
    var i :| 0 <= i < |days| && days[i] == d;
    DayStepsKeepTheirPhase(f, days, first, last, i);
    EarlierMeansSmallerOrdinal(f.start, horizonStart);
    if i > 0 {
      OccurrencesIncrease(f, days, first, last, 0, i);
    }
    AnchoredExactlyWhenInPhase(f, d);
  }

  /** With month steps the day of the month is right from the second date on, so those dates are
      the flow's own exactly when the horizon begins a whole number of steps after it. */
  lemma MonthStepsMoveTheFirst(f: Flow, days: seq<Day>, horizonStart: Day, horizonEnd: Day, i: nat)
    requires StepDays(f.frequency, f.custom) == 0 && Earlier(f.start, horizonStart)
    requires StepThrough(f, days, WindowStart(f, horizonStart), WindowEnd(f, horizonEnd)) && 0 < i < |days|
    ensures Anchored(f, Ordinal(days[i]))
            <==> MonthsBetween(f.start, horizonStart) % MonthsStep(f.frequency) == 0
  {
    hide Ordinal, Anchored, WindowEnd, Valid;
    var first, last := WindowStart(f, horizonStart), WindowEnd(f, horizonEnd);
    EarlierMeansSmallerOrdinal(f.start, horizonStart);
    OccurrencesIncrease(f, days, first, last, 0, i);
    AnchoredExactlyWhenInPhase(f, days[i]);
    MonthStepsKeepTheirPhase(f, days, first, last, i);
  }

  function MonthsBetween(a: Date, b: Date): int {
    12 * (b.year - a.year) + b.month - a.month
  }

  lemma NextMonthlyOccurrence(f: Flow, days: seq<Day>, first: Day, last: Day, i: nat)
    requires StepThrough(f, days, first, last) && StepDays(f.frequency, f.custom) == 0 && 0 < i < |days|
    ensures days[i] == MonthlyNext(days[i - 1], MonthsStep(f.frequency), f.start.day)
  {
    hide Ordinal, Valid, DaysInMonth, MonthlyNext, Earlier;
    StartDayIsPositive(f);
    assert Ordinal(days[i - 1 + 1]) == NextOrdinal(f, days[i - 1]);
    OrdinalsAreUnique(days[i]);
    OrdinalsAreUnique(MonthlyNext(days[i - 1], MonthsStep(f.frequency), f.start.day));
  }

  lemma {:induction false} MonthStepsKeepTheirPhase(f: Flow, days: seq<Day>, first: Day, last: Day, i: nat)
    requires StepThrough(f, days, first, last) && StepDays(f.frequency, f.custom) == 0 && i < |days|
    ensures MonthsBetween(f.start, days[i]) % MonthsStep(f.frequency)
            == MonthsBetween(f.start, first) % MonthsStep(f.frequency)
    ensures var d := days[i];
            i > 0 ==> d.day == if f.start.day <= DaysInMonth(d.year, d.month) then f.start.day
                               else DaysInMonth(d.year, d.month)
  {
    hide Ordinal, Valid, DaysInMonth, MonthlyNext, NextOrdinal, Earlier, StepDays;
    if i > 0 {
      StartDayIsPositive(f);
      MonthStepsKeepTheirPhase(f, days, first, last, i - 1);
      NextMonthlyOccurrence(f, days, first, last, i);
      MonthlyNextFields(days[i - 1], MonthsStep(f.frequency), f.start.day);
    }
  }

  /** A weekly flow from Monday, 6 January 2025, in a horizon from Wednesday, 8 January: every
      forecast date is a Wednesday, two days off, and none is the flow's own. */
  lemma WeeklyFlowIsMoved(days: seq<Day>, horizonEnd: Day)
    requires var f, start := Flow(Date(2025, 1, 6), None, Weekly, None), Date(2025, 1, 8);
             && !Earlier(horizonEnd, start)
             && StepThrough(f, days, WindowStart(f, start), WindowEnd(f, horizonEnd))
             && Complete(f, days, WindowStart(f, start), WindowEnd(f, horizonEnd))
    ensures days != [] && days[0] == Date(2025, 1, 8)
    ensures forall d | d in days :: !Anchored(Flow(Date(2025, 1, 6), None, Weekly, None), Ordinal(d))
  {
    hide DaysBeforeYear, DaysBeforeMonth, Anchored, Complete;
    var f, start := Flow(Date(2025, 1, 6), None, Weekly, None), Date(2025, 1, 8);
    ForwardStep(f, days, start, horizonEnd);
    assert (Ordinal(start) - Ordinal(f.start)) % 7 == 2;
    forall d | d in days ensures !Anchored(f, Ordinal(d)) {
      DayStepsMoveAllOrNone(f, days, start, horizonEnd, d);
    }
  }

  // ---------------------------------------------------------------- in weeks

  /** The flow's own dates of one week that lie in its window. */
  ghost function OwnDates(f: Flow, first: Day, last: Day, start: int, n: nat, week: int): set<int> {
    set o: int | Ordinal(first) <= o <= Ordinal(last) && WeekOf(start, n, o) == Some(week) && Anchored(f, o)
  }

  ghost predicate LinesCountOwnDates(f: Flow, lines: map<int, int>, amount: int, start: Day, n: nat)
    requires n > 0
  {
    forall w | 1 <= w <= n ::
      (if w in lines then lines[w] else 0)
      == amount * |OwnDates(f, WindowStart(f, start), WindowEnd(f, LastDay(start, n)), Ordinal(start), n, w)|
  }

  function WeekDates(days: seq<Day>, start: int, n: nat, week: int): set<int> {
    set d | d in days && Number(start, n, d) == Some(week) :: Ordinal(d)
  }

  ghost predicate Rising(days: seq<Day>) {
    forall i, j | 0 <= i < j < |days| :: Ordinal(days[i]) < Ordinal(days[j])
  }

  lemma {:induction false} CountIsSize(days: seq<Day>, start: int, n: nat, week: int)
    requires Rising(days)
    ensures CountIn(days, start, n, week) == |WeekDates(days, start, n, week)|
  {
    hide Ordinal, Number;
    if days == [] {
      assert WeekDates(days, start, n, week) == {};
    } else {
      var front, last := days[..|days| - 1], days[|days| - 1];
      CountIsSize(front, start, n, week);
      assert Ordinal(last) !in WeekDates(front, start, n, week);
      assert days == front + [last];
      if Number(start, n, last) == Some(week) {
        assert WeekDates(days, start, n, week) == WeekDates(front, start, n, week) + {Ordinal(last)};
      } else {
        assert WeekDates(days, start, n, week) == WeekDates(front, start, n, week);
      }
    }
  }

  lemma WeekDatesAreOwn(f: Flow, days: seq<Day>, first: Day, last: Day, start: int, n: nat, week: int)
    requires OnSchedule(f, days, first, last)
    ensures WeekDates(days, start, n, week) == OwnDates(f, first, last, start, n, week)
  {
    hide Ordinal, WeekOf, Anchored, FromOrdinal;
    OrdinalsAreUnique(first);
    forall o | o in OwnDates(f, first, last, start, n, week) ensures o in WeekDates(days, start, n, week) {
      var d: Day := FromOrdinal(o);
      assert d in days;
    }
  }

  lemma OwnDatesAreCounted(f: Flow, days: seq<Day>, lines: map<int, int>, amount: int, start: Day, n: nat)
    requires n > 0 && AreLines(lines, days, Ordinal(start), n, amount)
    requires var first, last := WindowStart(f, start), WindowEnd(f, LastDay(start, n));
             && StepThrough(f, days, first, last) && Complete(f, days, first, last) && OnSchedule(f, days, first, last)
    ensures LinesCountOwnDates(f, lines, amount, start, n)
  {
    hide Ordinal, Valid, OnSchedule, WeekDates, OwnDates, CountIn, WindowStart, WindowEnd, LastDay, StepDays;
    var first, last := WindowStart(f, start), WindowEnd(f, LastDay(start, n));
    OccurrencesRise(f, days, first, last);
    forall w | 1 <= w <= n
      ensures CountIn(days, Ordinal(start), n, w) == |OwnDates(f, first, last, Ordinal(start), n, w)|
    {
      CountIsSize(days, Ordinal(start), n, w);
      WeekDatesAreOwn(f, days, first, last, Ordinal(start), n, w);
    }
  }

  lemma OccurrencesRise(f: Flow, days: seq<Day>, first: Day, last: Day)
    requires StepThrough(f, days, first, last) && Complete(f, days, first, last)
    ensures Rising(days)
  {
    hide Ordinal, Valid, StepDays, NextOrdinal;
    if days != [] {
      ForwardStep(f, days, first, last);
      forall i, j | 0 <= i < j < |days| ensures Ordinal(days[i]) < Ordinal(days[j]) {
        OccurrencesIncrease(f, days, first, last, i, j);
      }
    }
  }

  /** The last day of the last week. */
  function LastDay(start: Day, n: nat): Day
    requires n > 0
  {
    FromOrdinal(Ordinal(start) + 7 * n - 1)
  }

  /** One recurring flow in a forecast of `n` weeks: its occurrences step through the horizon
      with none missing, every line holds the amount times the occurrences of its week, and the
      lines sum to the amount times all occurrences.  In an empty window, in phase, or from its
      start on, each week has the amount times the flow's own dates in it. */
  method GatherRecurringFlows(f: Flow, amount: int, start: Day, n: nat) returns (r: Expansion, lines: map<int, int>)
    requires n > 0
    ensures var first, last := WindowStart(f, start), WindowEnd(f, LastDay(start, n));
            && (r.DateOverflow? <==> StepDays(f.frequency, f.custom) < 0 && !Earlier(last, first))
            && (r.Occurrences? ==> StepThrough(f, r.days, first, last) && Complete(f, r.days, first, last))
    ensures r.Occurrences? ==> AreLines(lines, r.days, Ordinal(start), n, amount)
    ensures r.Occurrences? ==> LineTotal(lines, n) == amount * |r.days|
    ensures var first, last := WindowStart(f, start), WindowEnd(f, LastDay(start, n));
            r.Occurrences? && (Earlier(last, first) || !Earlier(f.start, start) || InPhase(f, start)) ==>
              LinesCountOwnDates(f, lines, amount, start, n)
  {
    hide Ordinal, StepThrough, Complete, AreLines, AreWeeks, LineTotal, StepDays, Earlier, WindowStart, WindowEnd;
    hide LastDay, FromOrdinal, Valid, InPhase, OnSchedule, LinesCountOwnDates;
    var weeks := GenerateWeekBounds(Ordinal(start), n);
    LastWeekEnds(weeks, start, n);
    var horizonEnd: Day := FromOrdinal(weeks[|weeks| - 1].end);
    r := ExpandRecurringOccurrences(f, start, horizonEnd);
    lines := map[];
    if r.Occurrences? {
      lines := GatherRecurringFlow(weeks, Ordinal(start), n, r.days, amount);
      OccurrencesInWeeks(f, r.days, start, n);
      LinesSumToTheFlow(lines, r.days, Ordinal(start), n, amount);
      var first, last := WindowStart(f, start), WindowEnd(f, horizonEnd);
      if Earlier(last, first) || !Earlier(f.start, start) || InPhase(f, start) {
        OnScheduleExactlyWhen(f, r.days, start, horizonEnd);
        OwnDatesAreCounted(f, r.days, lines, amount, start, n);
      }
    }
  }

  lemma LastWeekEnds(weeks: seq<Week>, start: Day, n: nat)
    requires n > 0 && AreWeeks(weeks, Ordinal(start), n)
    ensures |weeks| == n && weeks[n - 1].end >= 1 && FromOrdinal(weeks[n - 1].end) == LastDay(start, n)
  {
    hide Ordinal, FromOrdinal, Valid;
    OrdinalsAreUnique(start);
    assert weeks[n - 1] == Week(n - 1 + 1, Ordinal(start) + 7 * (n - 1), Ordinal(start) + 7 * (n - 1) + 6);
  }

  lemma OccurrencesInWeeks(f: Flow, days: seq<Day>, start: Day, n: nat)
    requires n > 0
    requires var first, last := WindowStart(f, start), WindowEnd(f, LastDay(start, n));
             && StepThrough(f, days, first, last)
             && (StepDays(f.frequency, f.custom) < 0 ==> Earlier(last, first))
    ensures forall d | d in days :: Ordinal(start) <= Ordinal(d) < Ordinal(start) + 7 * n
  {
    hide Ordinal, StepThrough, StepDays, Earlier, WindowStart, WindowEnd;
    OrdinalsAreUnique(start);
    OccurrencesInHorizon(f, days, start, LastDay(start, n));
  }
}
