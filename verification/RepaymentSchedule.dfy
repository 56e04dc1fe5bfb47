/** Facility repayment schedules: equal principal, level installments and interest only. */
module RepaymentSchedule {
  import opened Money
  import opened Calendar
  import opened Interest

  datatype Method = EqualPrincipal | EqualInstallment | InterestOnly | Bullet | CustomSchedule

  /** Annual rate in percent, day count, period length in days and first period start. */
  datatype Terms = Terms(kind: Method, ratePct: real, convention: Convention, periodDays: nat, start: Date)

  datatype Installment = Installment(
    period: int, due: int, opening: int, principal: int, interest: int, total: int, closing: int)

  datatype Result = Schedule(rows: seq<Installment>) | DivisionByZero

  function Offset(t: Terms, i: nat): nat {
    t.periodDays * i
  }

  function Boundary(t: Terms, i: nat): (d: Date)
    requires Valid(t.start)
    ensures Valid(d)
  {
    AddDays(t.start, Offset(t, i))
  }

  /** The day number period `i` falls due. */
  function Due(t: Terms, i: nat): int
    requires Valid(t.start)
  {
    Ordinal(Boundary(t, i))
  }

  /** Interest of period `i` (from 1) on the outstanding principal. */
  function PeriodInterest(t: Terms, opening: int, i: nat): int
    requires Valid(t.start) && i >= 1
  {
    SimpleInterest(opening, t.ratePct, Boundary(t, i - 1), Boundary(t, i), t.convention)
  }

  // ---------------------------------------------------------------- the level amounts

  function Power(q: real, n: nat): real {
    if n == 0 then 1.0 else Power(q, n - 1) * q
  }

  function PeriodRate(t: Terms): real {
    (t.ratePct / 100.0) * t.periodDays as real / Denominator(t.convention)
  }

  function Share(principal: int, n: int): real
    requires n != 0
  {
    principal as real / n as real
  }

  /** The annuity payment before rounding, `factor` being (1 + r) to the number of periods. */
  function Annuity(principal: int, r: real, factor: real): real
    requires factor != 1.0
  {
    principal as real * r * factor / (factor - 1.0)
  }

  // ---------------------------------------------------------------- the rows

  /** What is repaid in period `i` of `n`; the last period always repays the rest. */
  function Repaid(kind: Method, level: int, i: nat, n: nat, opening: int, interest: int): int {
    if i == n then opening
    else match kind
      case EqualPrincipal => level
      case EqualInstallment => level - interest
      case _ => 0
  }

  function Row(t: Terms, level: int, n: nat, opening: int, i: nat): Installment
    requires Valid(t.start) && i >= 1
  {
    var interest := PeriodInterest(t, opening, i);
    var repaid := Repaid(t.kind, level, i, n, opening, interest);
    Installment(i, Due(t, i), opening, repaid, interest,
                if t.kind == EqualInstallment && i < n then level else repaid + interest, opening - repaid)
  }

  /** Principal outstanding after `i` periods. */
  function Balance(t: Terms, level: int, n: nat, principal: int, i: nat): int
    requires Valid(t.start)
  {
    if i == 0 then principal else Row(t, level, n, Balance(t, level, n, principal, i - 1), i).closing
  }

  function Rows(t: Terms, level: int, n: nat, principal: int, count: nat): (rows: seq<Installment>)
    requires Valid(t.start)
    ensures |rows| == count
  {
    if count == 0 then []
    else Rows(t, level, n, principal, count - 1) + [Row(t, level, n, Balance(t, level, n, principal, count - 1), count)]
  }

  lemma {:induction false} RowsAre(t: Terms, level: int, n: nat, principal: int, count: nat, i: nat)
    requires Valid(t.start) && i < count
    ensures Rows(t, level, n, principal, count)[i] == Row(t, level, n, Balance(t, level, n, principal, i), i + 1)
  {
    hide Row, Balance, Valid;
    if i < count - 1 {
      RowsAre(t, level, n, principal, count - 1, i);
    }
  }

  // ---------------------------------------------------------------- the generator

  /** The amount that stays level over a schedule: the principal share, the installment, or
      nothing. */
  function Level(t: Terms, principal: int, n: nat): int
    requires n >= 1 && (t.kind == EqualInstallment && PeriodRate(t) != 0.0 ==> Power(1.0 + PeriodRate(t), n) != 1.0)
  {
    match t.kind
    case EqualPrincipal => RoundCents(Share(principal, n))
    case EqualInstallment =>
      RoundCents(if PeriodRate(t) == 0.0 then Share(principal, n)
                 else Annuity(principal, PeriodRate(t), Power(1.0 + PeriodRate(t), n)))
    case _ => 0
  }

  method PowerOf(q: real, n: nat) returns (p: real)
    ensures p == Power(q, n)
  {
    p := 1.0;
    for i := 0 to n
      invariant p == Power(q, i)
    {
      p := p * q;
    }
  }

  method EqualPrincipalRows(t: Terms, principal: int, n: nat) returns (rows: seq<Installment>)
    requires Valid(t.start) && t.kind == EqualPrincipal && n >= 1
    ensures rows == Rows(t, Level(t, principal, n), n, principal, n)
  {
    hide PeriodInterest, Due, Boundary, Valid;
    var perPeriod := RoundCents(principal as real / n as real);
    var opening := principal;
    rows := [];
    for i := 1 to n + 1
      invariant rows == Rows(t, perPeriod, n, principal, i - 1) && opening == Balance(t, perPeriod, n, principal, i - 1)
    {
      var interest := PeriodInterest(t, opening, i);
      var repaid := if i < n then perPeriod else opening;
      var total := repaid + interest;
      var closing := opening - repaid;
      rows := rows + [Installment(i, Due(t, i), opening, repaid, interest, total, closing)];
      opening := closing;
    }
  }

  method EqualInstallmentRows(t: Terms, principal: int, n: nat, installment: int) returns (rows: seq<Installment>)
    requires Valid(t.start) && t.kind == EqualInstallment
    ensures rows == Rows(t, installment, n, principal, n)
  {
    hide PeriodInterest, Due, Boundary, Valid;
    var opening := principal;
    rows := [];
    for i := 1 to n + 1
      invariant rows == Rows(t, installment, n, principal, i - 1)
                && opening == Balance(t, installment, n, principal, i - 1)
    {
      var interest := PeriodInterest(t, opening, i);
      var repaid, total := installment - interest, installment;
      if i == n {
        repaid := opening;
        total := repaid + interest;
      }
      var closing := opening - repaid;
      rows := rows + [Installment(i, Due(t, i), opening, repaid, interest, total, closing)];
      opening := closing;
    }
  }

  method InterestOnlyRows(t: Terms, principal: int, n: nat) returns (rows: seq<Installment>)
    requires Valid(t.start) && t.kind == InterestOnly
    ensures rows == Rows(t, 0, n, principal, n)
  {
    hide PeriodInterest, Due, Boundary, Valid;
    var opening := principal;
    rows := [];
    for i := 1 to n + 1
      invariant rows == Rows(t, 0, n, principal, i - 1) && opening == Balance(t, 0, n, principal, i - 1)
    {
      var interest := PeriodInterest(t, opening, i);
      var repaid := if i == n then opening else 0;
      var closing := opening - repaid;
      rows := rows + [Installment(i, Due(t, i), opening, repaid, interest, repaid + interest, closing)];
      opening := closing;
    }
  }

  /** The period counts for which the level amount is not a division by zero. */
  predicate Divides(t: Terms, n: nat) {
    && (t.kind == EqualPrincipal ==> n >= 1)
    && (t.kind == EqualInstallment ==> n >= 1 && (PeriodRate(t) == 0.0 || Power(1.0 + PeriodRate(t), n) != 1.0))
  }

  method GenerateRepaymentSchedule(t: Terms, principal: int, n: nat) returns (result: Result)
    requires Valid(t.start)
    ensures result.DivisionByZero? <==> !Divides(t, n)
    ensures result.Schedule? ==>
              (result.rows == if t.kind in {Bullet, CustomSchedule} || n == 0 then []
                  else Rows(t, Level(t, principal, n), n, principal, n))
  {
    hide Rows, Valid, RoundCents, Power, PeriodInterest, Due, Boundary;
    match t.kind
    case EqualPrincipal =>
      if n == 0 {
        return DivisionByZero;
      }
      var rows := EqualPrincipalRows(t, principal, n);
      result := Schedule(rows);
    case EqualInstallment =>
      if n == 0 {
        return DivisionByZero;
      }
      var periodRate := PeriodRate(t);
      var installment;
      if periodRate == 0.0 {
        installment := RoundCents(principal as real / n as real);
      } else {
        var factor := PowerOf(1.0 + periodRate, n);
        if factor == 1.0 {
          return DivisionByZero;
        }
        installment := RoundCents(Annuity(principal, periodRate, factor));
      }
      var rows := EqualInstallmentRows(t, principal, n, installment);
      result := Schedule(rows);
    case InterestOnly =>
      var rows := InterestOnlyRows(t, principal, n);
      assert n == 0 ==> rows == [];
      result := Schedule(rows);
    case Bullet =>
      result := Schedule([]);
    case CustomSchedule =>
      result := Schedule([]);
  }

  // ---------------------------------------------------------------- conservation

  function SumPrincipal(rows: seq<Installment>): int {
    if rows == [] then 0 else SumPrincipal(rows[..|rows| - 1]) + rows[|rows| - 1].principal
  }

  lemma {:induction false} RepaidSoFar(t: Terms, level: int, n: nat, principal: int, count: nat)
    requires Valid(t.start)
    ensures SumPrincipal(Rows(t, level, n, principal, count)) == principal - Balance(t, level, n, principal, count)
  {
    hide PeriodInterest, Due, Boundary, Valid, Repaid;
    if count > 0 {
      RepaidSoFar(t, level, n, principal, count - 1);
      var rows := Rows(t, level, n, principal, count);
      assert rows[..count - 1] == Rows(t, level, n, principal, count - 1);
    }
  }

  /** Principal is conserved: the first opening is the principal, each closing is the next
      opening and what was not repaid, every total is principal plus interest, the repayments
      sum to exactly the principal and nothing is left at the end. */
  lemma ScheduleConservesPrincipal(t: Terms, level: int, principal: int, n: nat)
    requires Valid(t.start) && n >= 1
    ensures var rows := Rows(t, level, n, principal, n);
            && rows[0].opening == principal
            && (forall i: nat | i < n - 1 :: rows[i + 1].opening == rows[i].closing)
            && (forall i: nat | i < n :: rows[i].closing == rows[i].opening - rows[i].principal)
            && (forall i: nat | i < n :: rows[i].total == rows[i].principal + rows[i].interest)
            && rows[n - 1].closing == 0
            && SumPrincipal(rows) == principal
  {
    hide PeriodInterest, Due, Boundary, Valid, Rows;
    RepaidSoFar(t, level, n, principal, n);
    forall i: nat | i < n
      ensures Rows(t, level, n, principal, n)[i] == Row(t, level, n, Balance(t, level, n, principal, i), i + 1)
    {
      RowsAre(t, level, n, principal, n, i);
    }
  }

  // ---------------------------------------------------------------- equal principal stays positive

  function Times(i: int, level: int): int {
    i * level
  }

  lemma TimesGrows(i: int, k: int, level: int)
    requires i <= k && level >= 0
    ensures Times(i, level) <= Times(k, level)
    ensures Times(0, level) == 0
  {
  }

  lemma {:induction false} EqualPrincipalBalance(t: Terms, level: int, n: nat, principal: int, i: nat)
    requires Valid(t.start) && t.kind == EqualPrincipal && i < n
    ensures Balance(t, level, n, principal, i) == principal - Times(i, level)
  {
    hide PeriodInterest, Due, Boundary, Valid;
    if i > 0 {
      EqualPrincipalBalance(t, level, n, principal, i - 1);
    }
  }

  ghost predicate NothingNegative(rows: seq<Installment>) {
    forall i | 0 <= i < |rows| :: rows[i].principal >= 0 && rows[i].closing >= 0 && rows[i].opening >= 0
  }

  /** Exactly when no repayment and no balance of an equal-principal schedule is negative: the
      principal is not negative, and the rounded shares before the last do not exceed it. */
  lemma EqualPrincipalNonNegativeExactlyWhen(t: Terms, principal: int, n: nat)
    requires Valid(t.start) && t.kind == EqualPrincipal && n >= 1
    ensures NothingNegative(Rows(t, Level(t, principal, n), n, principal, n))
            <==> principal >= 0 && Times(n - 1, Level(t, principal, n)) <= principal
  {
    hide PeriodInterest, Due, Boundary, Valid, RoundCents, Level, Times, Rows;
    var level := Level(t, principal, n);
    var rows := Rows(t, level, n, principal, n);
    forall i: nat | i < n
      ensures rows[i].opening == principal - Times(i, level)
      ensures rows[i].principal == if i == n - 1 then rows[i].opening else level
      ensures rows[i].closing == rows[i].opening - rows[i].principal
    {
      RowsAre(t, level, n, principal, n, i);
      EqualPrincipalBalance(t, level, n, principal, i);
    }
    hide Row;
    ScheduleConservesPrincipal(t, level, principal, n);
    assert rows[n - 1].opening == principal - Times(n - 1, level) && rows[0].opening == principal;
    if principal >= 0 && Times(n - 1, level) <= principal {
      ShareIsNonNegative(t, principal, n);
      forall i: nat | i < n ensures rows[i].opening >= 0 {
        TimesGrows(i, n - 1, level);
      }
      forall i: nat | i < n ensures rows[i].closing >= 0 {
        assert i < n - 1 ==> rows[i + 1].opening == rows[i].closing;
      }
    }
  }

  lemma ShareIsNonNegative(t: Terms, principal: int, n: nat)
    requires t.kind == EqualPrincipal && n >= 1 && principal >= 0
    ensures Level(t, principal, n) >= 0
  {
    assert Share(principal, n) >= 0.0;
  }

  lemma RoundedShareBound(principal: int, n: nat, level: int)
    requires n >= 1 && level == RoundCents(Share(principal, n))
    ensures 2 * principal - n <= 2 * (n * level) <= 2 * principal + n
  {
    var s, size := Share(principal, n), n as real;
    RoundingError(s);
    hide RoundCents;
    var total := SizedError(size, s, level as real);
    assert s * size == principal as real;
    ProductAsReal(n, level);
  }

  lemma SizedError(size: real, s: real, level: real) returns (total: real)
    requires size >= 0.0 && Abs(level - s) <= 0.5
    ensures total == size * level && s * size - 0.5 * size <= total <= s * size + 0.5 * size
  {
    var low, middle := ScaleUp(size, s - 0.5, level);
    var same, high := ScaleUp(size, level, s + 0.5);
    Spread(size, s, 0.5);
    Spread(size, s, -0.5);
    total := middle;
  }

  lemma ScaleUp(size: real, a: real, b: real) returns (x: real, y: real)
    requires size >= 0.0 && a <= b
    ensures x == size * a && y == size * b && x <= y
  {
    x, y := size * a, size * b;
  }

  lemma Spread(size: real, s: real, d: real)
    ensures size * (s + d) == s * size + d * size
  {
  }

  lemma Monotone(k: int, a: int, b: int)
    requires k >= 0 && a <= b
    ensures k * a <= k * b
  {
  }

  lemma Cancel(k: int, a: int, b: int)
    requires k >= 1 && k * a <= k * b
    ensures a <= b
  {
  }

  lemma Swap(a: int, b: int, c: int)
    ensures a * (2 * (b * c)) == b * (2 * (a * c))
  {
    assert a * (b * c) == b * (a * c);
  }

  lemma Distribute(n: int, y: int)
    ensures (n - 1) * (y + n) == n * y - y + n * (n - 1)
  {
  }

  lemma RoundedShareFits(principal: int, n: nat, level: int)
    requires n >= 1 && 2 * (n * level) <= 2 * principal + n && 2 * principal >= n * (n - 1)
    ensures Times(n - 1, level) <= principal
  {
    Monotone(n - 1, 2 * (n * level), 2 * principal + n);
    Swap(n - 1, n, level);
    Distribute(n, 2 * principal);
    Cancel(n, 2 * ((n - 1) * level), 2 * principal);
  }

  /** n(n-1)/2 cents are always enough. */
  lemma EnoughPrincipalIsNeverNegative(t: Terms, principal: int, n: nat)
    requires Valid(t.start) && t.kind == EqualPrincipal && n >= 1
    requires 2 * principal >= n * (n - 1)
    ensures NothingNegative(Rows(t, Level(t, principal, n), n, principal, n))
  {
    hide Rows, NothingNegative, Valid, RoundCents, Share, Times;
    RoundedShareBound(principal, n, Level(t, principal, n));
    RoundedShareFits(principal, n, Level(t, principal, n));
    EqualPrincipalNonNegativeExactlyWhen(t, principal, n);
  }

  /** Fewer may not be: two cents over four periods round up to one cent each and the last
      repayment is negative. */
  lemma TooLittlePrincipalGoesNegative(t: Terms)
    requires Valid(t.start) && t.kind == EqualPrincipal
    ensures !NothingNegative(Rows(t, Level(t, 2, 4), 4, 2, 4))
  {
    hide Rows, NothingNegative, Valid;
    EqualPrincipalNonNegativeExactlyWhen(t, 2, 4);
  }

  predicate WithinHalf(x: int, n: int) {
    -n <= 2 * x <= n
  }

  /** The last repayment takes up the rounding of all shares: it is within n / 2 cents of the
      level share that every other period repays. */
  lemma LastShareIsClose(t: Terms, principal: int, n: nat)
    requires Valid(t.start) && t.kind == EqualPrincipal && n >= 1
    ensures var last := Rows(t, Level(t, principal, n), n, principal, n)[n - 1].principal;
            WithinHalf(last - Level(t, principal, n), n)
  {
    hide PeriodInterest, Due, Boundary, Valid, Rows, RoundCents, Share, Times;
    var level := Level(t, principal, n);
    RowsAre(t, level, n, principal, n, n - 1);
    EqualPrincipalBalance(t, level, n, principal, n - 1);
    LastShareBound(principal, n, level);
  }

  lemma SharesAreLevel(t: Terms, principal: int, n: nat, i: nat)
    requires Valid(t.start) && t.kind == EqualPrincipal && i < n - 1
    ensures Rows(t, Level(t, principal, n), n, principal, n)[i].principal == Level(t, principal, n)
  {
    hide PeriodInterest, Due, Boundary, Valid, Rows, RoundCents, Share, Balance;
    RowsAre(t, Level(t, principal, n), n, principal, n, i);
  }

  lemma LastShareBound(principal: int, n: nat, level: int)
    requires n >= 1 && level == RoundCents(Share(principal, n))
    ensures WithinHalf(principal - Times(n - 1, level) - level, n)
  {
    hide RoundCents, Share;
    RoundedShareBound(principal, n, level);
  }

  // ---------------------------------------------------------------- interest only, and due dates

  /** Until the last period nothing is repaid and interest runs on the whole principal. */
  lemma {:induction false} InterestOnlyRepaysAtTheEnd(t: Terms, principal: int, n: nat, i: nat)
    requires Valid(t.start) && t.kind == InterestOnly && i < n
    ensures var row := Rows(t, 0, n, principal, n)[i];
            && row.opening == principal
            && row.principal == (if i == n - 1 then principal else 0)
            && row.interest == PeriodInterest(t, principal, i + 1)
  {
    hide PeriodInterest, Due, Boundary, Valid, Rows;
    RowsAre(t, 0, n, principal, n, i);
    if i > 0 {
      InterestOnlyRepaysAtTheEnd(t, principal, n, i - 1);
      RowsAre(t, 0, n, principal, n, i - 1);
    }
  }

  /** Installment `i` falls due `i` whole periods after the start, under every method. */
  lemma DueDatesAreEquallySpaced(t: Terms, level: int, principal: int, n: nat, i: nat)
    requires Valid(t.start) && i < n
    ensures var row := Rows(t, level, n, principal, n)[i];
            row.period == i + 1 && row.due == Ordinal(t.start) + Offset(t, i + 1)
  {
    hide PeriodInterest, Valid, Rows, Ordinal, FromOrdinal, Balance;
    RowsAre(t, level, n, principal, n, i);
  }
}
