/** How far the last installment of a level schedule can be from the others.

    Interest is rounded to cents in every period and so is the installment.  The rounding
    errors compound like a deposit of one cent a period: the last total differs from the level
    installment by at most ((1 + r)^n - 1) / r cents, n / 2 when the rate is zero. */
module LevelInstallments {
  import opened Money
  import opened Calendar
  import opened Interest
  import opened RepaymentSchedule

  function Scale(x: real, q: real): real {
    x * q
  }

  /** 1 + q + ... + q^(n-1). */
  function GeometricSum(q: real, n: nat): real {
    if n == 0 then 0.0 else Scale(GeometricSum(q, n - 1), q) + 1.0
  }

  lemma SumStep(q: real, sum: real, power: real)
    requires sum * (q - 1.0) == power - 1.0
    ensures (sum * q + 1.0) * (q - 1.0) == power * q - 1.0
  {
    assert (sum * q + 1.0) * (q - 1.0) == (sum * (q - 1.0)) * q + q - 1.0;
  }

  lemma {:induction false} GeometricSumIs(q: real, n: nat)
    ensures GeometricSum(q, n) * (q - 1.0) == Power(q, n) - 1.0
  {
    if n > 0 {
      GeometricSumIs(q, n - 1);
      SumStep(q, GeometricSum(q, n - 1), Power(q, n - 1));
    }
  }

  lemma {:induction false} GeometricSumIsPositive(q: real, n: nat)
    requires q > 0.0 && n >= 1
    ensures GeometricSum(q, n) >= 1.0
  {
    if n > 1 {
      GeometricSumIsPositive(q, n - 1);
      assert GeometricSum(q, n - 1) * q >= 0.0;
    }
  }

  lemma NonZero(a: real, b: real)
    requires a != 0.0 && b != 0.0
    ensures a * b != 0.0
  {
  }

  /** The annuity formula never divides by zero above a rate of -100 % a period. */
  lemma GrowthIsNotOne(r: real, n: nat)
    requires r > -1.0 && r != 0.0 && n >= 1
    ensures Power(1.0 + r, n) != 1.0
  {
    GeometricSumIs(1.0 + r, n);
    GeometricSumIsPositive(1.0 + r, n);
    NonZero(GeometricSum(1.0 + r, n), r);
  }

  /** Above that rate a schedule divides by zero exactly when it has a level amount and no periods. */
  lemma DividesExactlyWhen(t: Terms, n: nat)
    requires PeriodRate(t) > -1.0
    ensures Divides(t, n) <==> n > 0 || (t.kind != EqualPrincipal && t.kind != EqualInstallment)
  {
    hide PeriodRate, Power;
    if n > 0 && PeriodRate(t) != 0.0 {
      GrowthIsNotOne(PeriodRate(t), n);
    }
  }

  // ---------------------------------------------------------------- interest of one period

  lemma Regroup(a: real, b: real, c: real, d: real)
    requires d != 0.0
    ensures a * b * c / d == a * (b * c / d)
  {
    assert a * b * c == a * (b * c);
    assert a * (b * c) / d == a * ((b * c) / d);
  }

  lemma OnePeriodOfDays(t: Terms, i: nat)
    ensures Offset(t, i + 1) == Offset(t, i) + t.periodDays
  {
  }

  lemma PeriodHasItsDays(t: Terms, i: nat)
    requires Valid(t.start) && t.convention != Thirty360 && i >= 1
    ensures DaysBetween(Boundary(t, i - 1), Boundary(t, i), t.convention) == t.periodDays
  {
    hide Ordinal, FromOrdinal;
    OnePeriodOfDays(t, i - 1);
  }

  /** Interest at a period rate, rounded. */
  function RateInterest(balance: int, r: real): int {
    RoundCents(balance as real * r)
  }

  lemma AccruedInOnePeriod(t: Terms, opening: int)
    ensures Accrued(opening, t.ratePct, t.periodDays, t.convention) == opening as real * PeriodRate(t)
  {
    Regroup(opening as real, t.ratePct / 100.0, t.periodDays as real, Denominator(t.convention));
  }

  /** Under an actual day count every period charges the same rate. */
  lemma InterestIsRateTimesBalance(t: Terms, opening: int, i: nat)
    requires Valid(t.start) && t.convention != Thirty360 && i >= 1
    ensures PeriodInterest(t, opening, i) == RateInterest(opening, PeriodRate(t))
  {
    hide Valid, RoundCents, Boundary, DaysBetween, Accrued, PeriodRate;
    PeriodHasItsDays(t, i);
    AccruedInOnePeriod(t, opening);
  }

  lemma RateInterestError(balance: int, r: real)
    ensures Abs(RateInterest(balance, r) as real - Scale(balance as real, r)) <= 0.5
  {
    RoundingError(balance as real * r);
  }

  // ---------------------------------------------------------------- paid and exact balances

  /** The balance after `i` periods of paying exactly the installment, the last one included. */
  function LevelBalance(principal: int, r: real, installment: int, i: nat): int {
    if i == 0 then principal
    else
      var before := LevelBalance(principal, r, installment, i - 1);
      before + RateInterest(before, r) - installment
  }

  /** The same without any rounding. */
  function ExactBalance(principal: real, q: real, payment: real, i: nat): real {
    if i == 0 then principal else Scale(ExactBalance(principal, q, payment, i - 1), q) - payment
  }

  lemma ExactStep(p: real, q: real, payment: real, power: real, nextPower: real, sum: real, nextSum: real)
    requires nextPower == power * q && nextSum == Scale(sum, q) + 1.0
    ensures Scale(Scale(p, power) - Scale(payment, sum), q) - payment == Scale(p, nextPower) - Scale(payment, nextSum)
  {
    assert (p * power) * q == p * (power * q);
    assert (payment * sum) * q == payment * (sum * q);
  }

  lemma StartOfBalance(principal: real, payment: real)
    ensures principal == Scale(principal, 1.0) - Scale(payment, 0.0)
  {
  }

  lemma {:induction false} ExactBalanceIs(principal: real, q: real, payment: real, i: nat)
    ensures ExactBalance(principal, q, payment, i) == Scale(principal, Power(q, i)) - Scale(payment, GeometricSum(q, i))
  {
    hide Scale;
    if i == 0 {
      StartOfBalance(principal, payment);
    } else {
      ExactBalanceIs(principal, q, payment, i - 1);
      ExactStep(principal, q, payment, Power(q, i - 1), Power(q, i), GeometricSum(q, i - 1), GeometricSum(q, i));
    }
  }

  lemma PaymentTimesSum(principal: int, r: real, f: real, sum: real)
    requires f != 1.0 && r != 0.0 && sum * r == f - 1.0
    ensures Scale(Annuity(principal, r, f), sum) == Scale(principal as real, f)
  {
    var p := principal as real;
    var payment := Annuity(principal, r, f);
    assert payment * (f - 1.0) == p * r * f;
    assert payment * (sum * r) == (payment * sum) * r;
    assert (payment * sum) * r == (p * f) * r;
  }

  /** The annuity is the payment that leaves nothing. */
  lemma AnnuityPaysOff(principal: int, r: real, n: nat)
    requires n >= 1 && r > -1.0 && r != 0.0 && Power(1.0 + r, n) != 1.0
    ensures ExactBalance(principal as real, 1.0 + r, Annuity(principal, r, Power(1.0 + r, n)), n) == 0.0
  {
    hide Annuity, Power, GeometricSum, ExactBalance, Scale;
    var q, f := 1.0 + r, Power(1.0 + r, n);
    GeometricSumIs(q, n);
    ExactBalanceIs(principal as real, q, Annuity(principal, r, f), n);
    PaymentTimesSum(principal, r, f, GeometricSum(q, n));
  }

  // ---------------------------------------------------------------- how the errors grow

  lemma ErrorStep(q: real, error: real, bound: real) returns (drift: real)
    requires q >= 0.0 && Abs(error) <= bound
    ensures drift == error * q && Abs(drift) <= bound * q
  {
    drift := error * q;
    assert error * q <= bound * q;
    assert (-bound) * q <= error * q;
    assert (-bound) * q == -(bound * q);
  }

  /** One period: the error grows with the balance and gains the two roundings. */
  lemma CompoundStep(q: real, level: real, exact: real, interest: real, installment: real, payment: real, bound: real)
    returns (error: real)
    requires q >= 0.0 && Abs(level - exact) <= bound
    requires Abs(interest - Scale(level, q - 1.0)) <= 0.5 && Abs(installment - payment) <= 0.5
    ensures error == level + interest - installment - (Scale(exact, q) - payment)
    ensures Abs(error) <= Scale(bound, q) + 1.0
  {
    var drift := ErrorStep(q, level - exact, bound);
    var limit, x, y := bound * q, interest - level * (q - 1.0), installment - payment;
    error := level + interest - installment - (exact * q - payment);
    assert error == drift + x - y;
    Triangle(drift, limit, x, y);
  }

  lemma Triangle(drift: real, limit: real, x: real, y: real)
    requires Abs(drift) <= limit && Abs(x) <= 0.5 && Abs(y) <= 0.5
    ensures Abs(drift + x - y) <= limit + 1.0
  {
  }

  /** How far rounding has moved the balance after `i` periods. */
  function Error(principal: int, q: real, installment: int, payment: real, i: nat): real {
    LevelBalance(principal, q - 1.0, installment, i) as real - ExactBalance(principal as real, q, payment, i)
  }

  lemma {:induction false} ErrorsCompound(principal: int, q: real, installment: int, payment: real, i: nat)
    requires q >= 0.0 && Abs(installment as real - payment) <= 0.5
    ensures Abs(Error(principal, q, installment, payment, i)) <= GeometricSum(q, i)
  {
    if i > 0 {
      ErrorsCompound(principal, q, installment, payment, i - 1);
      hide RoundCents, RateInterest, Abs, Scale;
      var level, exact :=
          LevelBalance(principal, q - 1.0, installment, i - 1), ExactBalance(principal as real, q, payment, i - 1);
      RateInterestError(level, q - 1.0);
      var error := CompoundStep(q, level as real, exact, RateInterest(level, q - 1.0) as real, installment as real,
          payment, GeometricSum(q, i - 1));
      assert Error(principal, q, installment, payment, i) == error;
      assert GeometricSum(q, i) == GeometricSum(q, i - 1) * q + 1.0;
    }
  }

  /** At rate zero only the installment's own rounding accumulates. */
  lemma {:induction false} ZeroRateBalance(principal: int, installment: int, i: nat)
    ensures LevelBalance(principal, 0.0, installment, i) == principal - Times(i, installment)
  {
    if i > 0 {
      ZeroRateBalance(principal, installment, i - 1);
      WholeCentsStay(0);
    }
  }

  // ---------------------------------------------------------------- the schedule

  lemma {:induction false} BalancesAreLevel(t: Terms, level: int, n: nat, principal: int, i: nat)
    requires Valid(t.start) && t.kind == EqualInstallment && t.convention != Thirty360 && i < n
    ensures Balance(t, level, n, principal, i) == LevelBalance(principal, PeriodRate(t), level, i)
  {
    hide PeriodInterest, Due, Boundary, Valid, PeriodRate, RateInterest;
    if i > 0 {
      BalancesAreLevel(t, level, n, principal, i - 1);
      InterestIsRateTimesBalance(t, Balance(t, level, n, principal, i - 1), i);
    }
  }

  lemma LastTotalIsLevelPlusResidue(t: Terms, level: int, n: nat, principal: int)
    requires Valid(t.start) && t.kind == EqualInstallment && t.convention != Thirty360 && n >= 1
    ensures Rows(t, level, n, principal, n)[n - 1].total == level + LevelBalance(principal, PeriodRate(t), level, n)
  {
    hide PeriodInterest, Due, Boundary, Valid, PeriodRate, RateInterest, Rows;
    RowsAre(t, level, n, principal, n, n - 1);
    BalancesAreLevel(t, level, n, principal, n - 1);
    InterestIsRateTimesBalance(t, Balance(t, level, n, principal, n - 1), n);
  }

  lemma LevelIsTheRoundedAnnuity(t: Terms, principal: int, n: nat)
    requires t.kind == EqualInstallment && n >= 1 && PeriodRate(t) > -1.0 && PeriodRate(t) != 0.0
    ensures Divides(t, n) && Power(1.0 + PeriodRate(t), n) != 1.0
    ensures var exact := Annuity(principal, PeriodRate(t), Power(1.0 + PeriodRate(t), n));
            Abs(Level(t, principal, n) as real - exact) <= 0.5
  {
    hide PeriodRate, Power, Annuity;
    GrowthIsNotOne(PeriodRate(t), n);
    RoundingError(Annuity(principal, PeriodRate(t), Power(1.0 + PeriodRate(t), n)));
    hide RoundCents;
  }

  /** For any principal, any number of periods and any period rate above -100 % other than
      zero, the last total is within ((1 + r)^n - 1) / r cents of the level installment. */
  lemma LastInstallmentIsClose(t: Terms, principal: int, n: nat)
    requires Valid(t.start) && t.kind == EqualInstallment && t.convention != Thirty360 && n >= 1
    requires PeriodRate(t) > -1.0 && PeriodRate(t) != 0.0
    ensures Divides(t, n)
    ensures var r := PeriodRate(t);
            var last := Rows(t, Level(t, principal, n), n, principal, n)[n - 1].total;
            && Abs((last - Level(t, principal, n)) as real) <= GeometricSum(1.0 + r, n)
            && GeometricSum(1.0 + r, n) == (Power(1.0 + r, n) - 1.0) / r
  {
    hide PeriodRate, Valid, Power, Rows, Annuity, Level, Divides, GeometricSum, LevelBalance, ExactBalance;
    LevelIsTheRoundedAnnuity(t, principal, n);
    var r := PeriodRate(t);
    GrowthIsNotOne(r, n);
    var level, payment := Level(t, principal, n), Annuity(principal, r, Power(1.0 + r, n));
    assert 1.0 + r - 1.0 == r;
    ErrorsCompound(principal, 1.0 + r, level, payment, n);
    AnnuityPaysOff(principal, r, n);
    LastTotalIsLevelPlusResidue(t, level, n, principal);
    GeometricSumIs(1.0 + r, n);
    DivideBack(GeometricSum(1.0 + r, n), r, Power(1.0 + r, n) - 1.0);
  }

  lemma DivideBack(a: real, r: real, b: real)
    requires r != 0.0 && a * r == b
    ensures a == b / r
  {
  }

  /** At a zero rate it is within half a cent for every period. */
  lemma LastInstallmentIsCloseAtZero(t: Terms, principal: int, n: nat)
    requires Valid(t.start) && t.kind == EqualInstallment && t.convention != Thirty360 && n >= 1
    requires PeriodRate(t) == 0.0
    ensures Divides(t, n)
    ensures var last := Rows(t, Level(t, principal, n), n, principal, n)[n - 1].total;
            Abs((last - Level(t, principal, n)) as real) <= n as real / 2.0
  {
    var level := Level(t, principal, n);
    hide PeriodRate, Valid, Rows, RoundCents;
    LastTotalIsLevelPlusResidue(t, level, n, principal);
    ZeroRateBalance(principal, level, n);
    RoundedShareIsClose(principal, n, level);
  }

  lemma RoundedShareIsClose(principal: int, n: nat, level: int)
    requires n >= 1 && level == RoundCents(Share(principal, n))
    ensures Abs((principal - Times(n, level)) as real) <= n as real / 2.0
  {
    RoundedShareBound(principal, n, level);
    hide RoundCents, Share;
  }
}
