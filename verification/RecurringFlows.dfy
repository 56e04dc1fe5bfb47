/** Recurring cash flows expanded over the forecast horizon and counted into its weeks. */
module RecurringFlows {
  import opened Calendar
  import opened ReconciliationModel

  datatype Frequency = Daily | Weekly | Biweekly | Monthly | Quarterly | Custom

  datatype Week = Week(number: int, start: int, end: int)

  // ---------------------------------------------------------------- weeks

  /** Weeks of seven days from the start date, numbered from 1. */
  method GenerateWeekBounds(start: int, n: nat) returns (weeks: seq<Week>)
    ensures AreWeeks(weeks, start, n)
  {
    weeks := [];
    for i := 0 to n
      invariant AreWeeks(weeks, start, i)
    {
      var weekStart := start + 7 * i;
      var weekEnd := weekStart + 6;
      weeks := weeks + [Week(i + 1, weekStart, weekEnd)];
    }
  }

  ghost predicate AreWeeks(weeks: seq<Week>, start: int, n: nat) {
    |weeks| == n && forall i | 0 <= i < n :: weeks[i] == Week(i + 1, start + 7 * i, start + 7 * i + 6)
  }

  predicate InWeek(w: Week, d: int) {
    w.start <= d <= w.end
  }

  /** The division formula for the week of a date. */
  function WeekOf(start: int, n: nat, d: int): Option<int> {
    if start <= d < start + 7 * n then Some((d - start) / 7 + 1) else None
  }

  /** Linear search, first hit. */
  method WeekForDate(weeks: seq<Week>, d: int) returns (week: Option<int>)
    ensures week.Some? ==> exists k :: 0 <= k < |weeks| && InWeek(weeks[k], d) && week.value == weeks[k].number
    ensures week.None? ==> forall k | 0 <= k < |weeks| :: !InWeek(weeks[k], d)
    ensures forall start: int, n: nat | AreWeeks(weeks, start, n) :: week == WeekOf(start, n, d)
  {
    week := None;
    for i := 0 to |weeks|
      invariant forall k | 0 <= k < i :: !InWeek(weeks[k], d)
    {
      if weeks[i].start <= d <= weeks[i].end {
        forall start: int, n: nat | AreWeeks(weeks, start, n) ensures Some(weeks[i].number) == WeekOf(start, n, d) {
          InExactlyOneWeek(weeks, start, n, d);
        }
        return Some(weeks[i].number);
      }
    }
    forall start: int, n: nat | AreWeeks(weeks, start, n) ensures WeekOf(start, n, d).None? {
      InExactlyOneWeek(weeks, start, n, d);
    }
  }

  /** A date of the horizon is in exactly one week, the one the formula names; any other date
      is in none. */
  lemma InExactlyOneWeek(weeks: seq<Week>, start: int, n: nat, d: int)
    requires AreWeeks(weeks, start, n)
    ensures WeekOf(start, n, d).Some? ==> 1 <= WeekOf(start, n, d).value <= n
    ensures forall k | 0 <= k < n :: InWeek(weeks[k], d) <==> WeekOf(start, n, d) == Some(k + 1)
    ensures (forall k | 0 <= k < n :: !InWeek(weeks[k], d)) ==> WeekOf(start, n, d).None?
  {
    if WeekOf(start, n, d).Some? {
      var q := (d - start) / 7;
      assert d - start == 7 * q + (d - start) % 7;
      assert InWeek(weeks[q], d);
    }
  }

  // ---------------------------------------------------------------- expansion

  /** Days between occurrences, 0 for the calendar frequencies. */
  function StepDays(f: Frequency, custom: Option<int>): int {
    match f
    case Daily => 1
    case Weekly => 7
    case Biweekly => 14
    case Custom => if custom.None? || custom.value == 0 then 30 else custom.value
    case _ => 0
  }

  function MonthsStep(f: Frequency): nat {
    if f == Quarterly then 3 else 1
  }

  /** So many months on, on the given day of the month or the month's last. */
  function MonthlyNext(d: Day, months: nat, day: int): Day
    requires day >= 1
  {
    var index := d.month - 1 + months;
    var year := d.year + index / 12;
    var month := index % 12 + 1;
    Date(year, month, if day <= DaysInMonth(year, month) then day else DaysInMonth(year, month))
  }

  lemma MonthlyNextIsLater(d: Day, months: nat, day: int)
    requires day >= 1 && months >= 1
    ensures Ordinal(d) < Ordinal(MonthlyNext(d, months, day))
  {
    var index := d.month - 1 + months;
    assert index == 12 * (index / 12) + index % 12;
    EarlierIsSmaller(d, MonthlyNext(d, months, day));
  }

  datatype Flow = Flow(start: Day, end: Option<Day>, frequency: Frequency, custom: Option<int>)

  function Later(a: Day, b: Day): Day {
    if Earlier(a, b) then b else a
  }

  /** The window the occurrences must fall in. */
  function WindowStart(f: Flow, horizonStart: Day): Day {
    Later(f.start, horizonStart)
  }

  function WindowEnd(f: Flow, horizonEnd: Day): Day {
    if f.end.Some? && Earlier(f.end.value, horizonEnd) then f.end.value else horizonEnd
  }

  /** Where the next occurrence falls, as a day number. */
  function NextOrdinal(f: Flow, cursor: Day): int {
    if StepDays(f.frequency, f.custom) != 0 then Ordinal(cursor) + StepDays(f.frequency, f.custom)
    else Ordinal(MonthlyNext(cursor, MonthsStep(f.frequency), f.start.day))
  }

  /** Occurrences step by step: the first at the start of the window, each next one where the
      frequency puts it, all inside the window. */
  ghost predicate StepThrough(f: Flow, occurrences: seq<Day>, first: Day, last: Day) {
    && (occurrences != [] ==> occurrences[0] == first)
    && (forall i | 0 <= i < |occurrences| :: !Earlier(last, occurrences[i]))
    && (forall i | 0 <= i < |occurrences| - 1 :: Ordinal(occurrences[i + 1]) == NextOrdinal(f, occurrences[i]))
  }

  /** ... and none is missing: the step after the last one leaves the window. */
  ghost predicate Complete(f: Flow, occurrences: seq<Day>, first: Day, last: Day) {
    if occurrences == [] then Earlier(last, first) else NextOrdinal(f, occurrences[|occurrences| - 1]) > Ordinal(last)
  }

  datatype Expansion = Occurrences(days: seq<Day>) | DateOverflow

  /** Terminates for every frequency.  A negative custom interval walks back to the beginning
      of the calendar and fails there. */
  method ExpandRecurringOccurrences(f: Flow, horizonStart: Day, horizonEnd: Day) returns (r: Expansion)
    ensures var first, last := WindowStart(f, horizonStart), WindowEnd(f, horizonEnd);
            && (r.DateOverflow? <==> StepDays(f.frequency, f.custom) < 0 && !Earlier(last, first))
            && (r.Occurrences? ==> StepThrough(f, r.days, first, last) && Complete(f, r.days, first, last))
  {
    var first, last := WindowStart(f, horizonStart), WindowEnd(f, horizonEnd);
    var step := StepDays(f.frequency, f.custom);
    if step != 0 {
      r := ExpandByDays(f, first, last);
    } else {
      var days := ExpandByMonths(f, first, last);
      r := Occurrences(days);
    }
  }

  /** The cursor stands where the next occurrence falls. */
  ghost predicate AtNext(f: Flow, occurrences: seq<Day>, first: Day, cursor: Day) {
    if occurrences == [] then cursor == first else Ordinal(cursor) == NextOrdinal(f, occurrences[|occurrences| - 1])
  }

  lemma OneMoreOccurrence(f: Flow, occurrences: seq<Day>, first: Day, last: Day, cursor: Day)
    requires StepThrough(f, occurrences, first, last) && AtNext(f, occurrences, first, cursor) && !Earlier(last, cursor)
    ensures StepThrough(f, occurrences + [cursor], first, last)
  {
    hide NextOrdinal, Earlier, Ordinal;
  }

  lemma NothingLeft(f: Flow, occurrences: seq<Day>, first: Day, last: Day, cursor: Day)
    requires AtNext(f, occurrences, first, cursor) && Earlier(last, cursor)
    ensures Complete(f, occurrences, first, last)
  {
    hide NextOrdinal, Ordinal;
    EarlierMeansSmallerOrdinal(last, cursor);
  }

  lemma NothingYet(f: Flow, first: Day, last: Day)
    ensures StepThrough(f, [], first, last) && AtNext(f, [], first, first)
  {
  }

  method ExpandByDays(f: Flow, first: Day, last: Day) returns (r: Expansion)
    requires StepDays(f.frequency, f.custom) != 0
    ensures r.DateOverflow? <==> StepDays(f.frequency, f.custom) < 0 && !Earlier(last, first)
    ensures r.Occurrences? ==> StepThrough(f, r.days, first, last) && Complete(f, r.days, first, last)
  {
    hide Ordinal, MonthlyNext, StepThrough, Complete, StepDays;
    var step := StepDays(f.frequency, f.custom);
    var occurrences: seq<Day> := [];
    var cursor: Day := first;
    NothingYet(f, first, last);
    while !Earlier(last, cursor)
      invariant StepThrough(f, occurrences, first, last) && AtNext(f, occurrences, first, cursor)
      invariant Earlier(last, first) ==> cursor == first
      invariant step < 0 && !Earlier(last, first) ==> !Earlier(last, cursor)
      decreases if step > 0 then Ordinal(last) - Ordinal(cursor) else Ordinal(cursor)
    {
      OneMoreOccurrence(f, occurrences, first, last, cursor);
      occurrences := occurrences + [cursor];
      OrdinalsAreUnique(cursor);
      if Ordinal(cursor) + step < 1 {
        return DateOverflow;
      }
      var next: Day := FromOrdinal(Ordinal(cursor) + step);
      EarlierMeansSmallerOrdinal(last, cursor);
      EarlierMeansSmallerOrdinal(last, next);
      cursor := next;
    }
    NothingLeft(f, occurrences, first, last, cursor);
    r := Occurrences(occurrences);
  }

  method ExpandByMonths(f: Flow, first: Day, last: Day) returns (occurrences: seq<Day>)
    requires StepDays(f.frequency, f.custom) == 0
    ensures StepThrough(f, occurrences, first, last) && Complete(f, occurrences, first, last)
  {
    hide Ordinal, MonthlyNext, StepThrough, Complete, StepDays;
    occurrences := [];
    var cursor: Day := first;
    StartDayIsPositive(f);
    NothingYet(f, first, last);
    while !Earlier(last, cursor)
      invariant StepThrough(f, occurrences, first, last) && AtNext(f, occurrences, first, cursor)
      decreases Ordinal(last) - Ordinal(cursor)
    {
      OneMoreOccurrence(f, occurrences, first, last, cursor);
      occurrences := occurrences + [cursor];
      var next: Day := MonthlyNext(cursor, MonthsStep(f.frequency), f.start.day);
      MonthlyNextIsLater(cursor, MonthsStep(f.frequency), f.start.day);
      EarlierMeansSmallerOrdinal(last, cursor);
      cursor := next;
    }
    NothingLeft(f, occurrences, first, last, cursor);
  }

  lemma StartDayIsPositive(f: Flow)
    ensures f.start.day >= 1
  {
  }

  /** Occurrences strictly increase and stay inside the window. */
  lemma {:induction false} OccurrencesIncrease(f: Flow, days: seq<Day>, first: Day, last: Day, i: nat, j: nat)
    requires StepThrough(f, days, first, last) && StepDays(f.frequency, f.custom) >= 0 && i < j < |days|
    ensures Ordinal(first) <= Ordinal(days[i]) < Ordinal(days[j]) <= Ordinal(last)
  {
    hide Ordinal, Valid, MonthlyNext;
    StartDayIsPositive(f);
    if StepDays(f.frequency, f.custom) == 0 {
      MonthlyNextIsLater(days[j - 1], MonthsStep(f.frequency), f.start.day);
    }
    assert Ordinal(days[j - 1 + 1]) == NextOrdinal(f, days[j - 1]);
    EarlierMeansSmallerOrdinal(last, days[j]);
    if i < j - 1 {
      OccurrencesIncrease(f, days, first, last, i, j - 1);
    } else if i > 0 {
      OccurrencesIncrease(f, days, first, last, 0, i);
    }
  }

  /** Every occurrence is a day of the horizon, also a single one. */
  lemma OccurrencesInHorizon(f: Flow, days: seq<Day>, horizonStart: Day, horizonEnd: Day)
    requires var first, last := WindowStart(f, horizonStart), WindowEnd(f, horizonEnd);
             && StepThrough(f, days, first, last)
             && (StepDays(f.frequency, f.custom) < 0 ==> Earlier(last, first))
    ensures forall d | d in days :: Ordinal(horizonStart) <= Ordinal(d) <= Ordinal(horizonEnd)
  {
    hide Ordinal, NextOrdinal, Valid, StepDays;
    var first, last := WindowStart(f, horizonStart), WindowEnd(f, horizonEnd);
    EarlierMeansSmallerOrdinal(f.start, horizonStart);
    if f.end.Some? {
      EarlierMeansSmallerOrdinal(f.end.value, horizonEnd);
    }
    forall i | 0 <= i < |days| ensures Ordinal(horizonStart) <= Ordinal(days[i]) <= Ordinal(horizonEnd) {
      EarlierMeansSmallerOrdinal(last, days[i]);
      if i > 0 {
        OccurrencesIncrease(f, days, first, last, 0, i);
      }
    }
  }

  lemma {:induction false} SameSoFar(f: Flow, a: seq<Day>, b: seq<Day>, first: Day, last: Day, i: nat)
    requires StepThrough(f, a, first, last) && StepThrough(f, b, first, last) && i < |a| && i < |b|
    ensures a[i] == b[i]
  {
    hide Ordinal, NextOrdinal, Valid;
    if i > 0 {
      SameSoFar(f, a, b, first, last, i - 1);
      assert Ordinal(a[i - 1 + 1]) == NextOrdinal(f, a[i - 1]) && Ordinal(b[i - 1 + 1]) == NextOrdinal(f, b[i - 1]);
      OrdinalsAreUnique(a[i]);
      OrdinalsAreUnique(b[i]);
    }
  }

  lemma NoneLonger(f: Flow, a: seq<Day>, b: seq<Day>, first: Day, last: Day)
    requires StepThrough(f, a, first, last) && StepThrough(f, b, first, last) && Complete(f, a, first, last)
    ensures |b| <= |a|
  {
    hide Ordinal, NextOrdinal, Valid, Earlier;
    if |a| < |b| && a != [] {
      var k := |a| - 1;
      SameSoFar(f, a, b, first, last, k);
      assert Ordinal(b[k + 1]) == NextOrdinal(f, b[k]);
      EarlierMeansSmallerOrdinal(last, b[k + 1]);
    }
  }

  /** Stepping through the window and leaving nothing out determines the occurrences. */
  lemma OccurrencesAreDetermined(f: Flow, a: seq<Day>, b: seq<Day>, first: Day, last: Day)
    requires StepThrough(f, a, first, last) && Complete(f, a, first, last)
    requires StepThrough(f, b, first, last) && Complete(f, b, first, last)
    ensures a == b
  {
    hide StepThrough, Complete;
    NoneLonger(f, a, b, first, last);
    NoneLonger(f, b, a, first, last);
    forall i | 0 <= i < |a| ensures a[i] == b[i] {
      SameSoFar(f, a, b, first, last, i);
    }
  }

  // ---------------------------------------------------------------- counting into weeks

  function Number(start: int, n: nat, d: Day): Option<int> {
    WeekOf(start, n, Ordinal(d))
  }

  function CountIn(days: seq<Day>, start: int, n: nat, week: int): nat {
    if days == [] then 0
    else
      CountIn(days[..|days| - 1], start, n, week) + if Number(start, n, days[|days| - 1]) == Some(week) then 1 else 0
  }

  ghost predicate AreLines(lines: map<int, int>, days: seq<Day>, start: int, n: nat, amount: int) {
    && (forall w :: w in lines <==> CountIn(days, start, n, w) > 0)
    && (forall w | w in lines :: lines[w] == amount * CountIn(days, start, n, w))
  }

  /** One line per week that has an occurrence: the amount times how many it has. */
  method GatherRecurringFlow(weeks: seq<Week>, start: int, n: nat, days: seq<Day>, amount: int)
    returns (lines: map<int, int>)
    requires AreWeeks(weeks, start, n)
    ensures AreLines(lines, days, start, n, amount)
  {
    hide Ordinal, AreWeeks;
    var byWeek: map<int, nat> := map[];
    for i := 0 to |days|
      invariant forall w :: w in byWeek <==> CountIn(days[..i], start, n, w) > 0
      invariant forall w | w in byWeek :: byWeek[w] == CountIn(days[..i], start, n, w)
    {
      assert days[..i + 1][..i] == days[..i];
      var wn := WeekForDate(weeks, Ordinal(days[i]));
      assert wn == Number(start, n, days[i]);
      if wn.Some? {
        var before := if wn.value in byWeek then byWeek[wn.value] else 0;
        byWeek := byWeek[wn.value := before + 1];
      }
    }
    assert days[..|days|] == days;
    lines := map w | w in byWeek :: amount * byWeek[w];
  }

  /** The lines of weeks 1 to `k`. */
  function LineTotal(lines: map<int, int>, k: nat): int {
    if k == 0 then 0 else LineTotal(lines, k - 1) + if k in lines then lines[k] else 0
  }

  function CountUpTo(days: seq<Day>, start: int, n: nat, k: nat): nat {
    if k == 0 then 0 else CountUpTo(days, start, n, k - 1) + CountIn(days, start, n, k)
  }

  lemma {:induction false} LinesAreCounts(lines: map<int, int>, days: seq<Day>, start: int, n: nat, amount: int, k: nat)
    requires AreLines(lines, days, start, n, amount)
    ensures LineTotal(lines, k) == amount * CountUpTo(days, start, n, k)
  {
    hide CountIn;
    if k > 0 {
      LinesAreCounts(lines, days, start, n, amount, k - 1);
      assert amount * (CountUpTo(days, start, n, k - 1) + CountIn(days, start, n, k))
          == amount * CountUpTo(days, start, n, k - 1) + amount * CountIn(days, start, n, k);
    }
  }

  lemma {:induction false} OneMoreDay(days: seq<Day>, start: int, n: nat, k: nat)
    requires days != []
    ensures CountUpTo(days, start, n, k) == CountUpTo(days[..|days| - 1], start, n, k)
            + match Number(start, n, days[|days| - 1]) case Some(w) => (if 1 <= w <= k then 1 else 0) case None => 0
  {
    hide Number;
    if k > 0 {
      OneMoreDay(days, start, n, k - 1);
    }
  }

  lemma {:induction false} EveryDayIsCounted(days: seq<Day>, start: int, n: nat)
    requires forall d | d in days :: start <= Ordinal(d) < start + 7 * n
    ensures CountUpTo(days, start, n, n) == |days|
  {
    if days == [] {
      NothingToCount(start, n, n);
    } else {
      var front, last := days[..|days| - 1], days[|days| - 1];
      assert last in days && forall d | d in front :: d in days;
      EveryDayIsCounted(front, start, n);
      OneMoreDay(days, start, n, n);
    }
  }

  lemma {:induction false} NothingToCount(start: int, n: nat, k: nat)
    ensures CountUpTo([], start, n, k) == 0
  {
    if k > 0 {
      NothingToCount(start, n, k - 1);
    }
  }

  lemma LinesSumToTheFlow(lines: map<int, int>, days: seq<Day>, start: int, n: nat, amount: int)
    requires forall d | d in days :: start <= Ordinal(d) < start + 7 * n
    requires AreLines(lines, days, start, n, amount)
    ensures LineTotal(lines, n) == amount * |days|
  {
    LinesAreCounts(lines, days, start, n, amount, n);
    EveryDayIsCounted(days, start, n);
  }
}
