/** Simple interest on a day-count fraction, rounded to cents: the formula the facility and
    the investment engines share. */
module Interest {
  import opened Money
  import opened Calendar

  /** Before rounding: principal x rate x days / denominator. */
  function Accrued(principal: int, ratePct: real, days: int, c: Convention): real {
    principal as real * (ratePct / 100.0) * days as real / Denominator(c)
  }

  function SimpleInterest(principal: int, ratePct: real, start: Date, end: Date, c: Convention): int
    requires Valid(start) && Valid(end)
  {
    RoundCents(Accrued(principal, ratePct, DaysBetween(start, end, c), c))
  }

  lemma AccrualAddsUp(principal: int, ratePct: real, m: int, n: int, c: Convention)
    ensures Accrued(principal, ratePct, m + n, c)
            == Accrued(principal, ratePct, m, c) + Accrued(principal, ratePct, n, c)
  {
    var x := principal as real * (ratePct / 100.0);
    assert x * (m + n) as real == x * m as real + x * n as real;
  }
}
