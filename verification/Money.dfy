/** Amounts in cents.  Decimal arithmetic is exact here; rounding to cents is explicit. */
module Money {

  function Abs(x: real): real {
    if x < 0.0 then -x else x
  }

  function Max(a: int, b: int): int {
    if a >= b then a else b
  }

  /** Half-up rounding as the decimal library does it: ties go away from zero. */
  function RoundCents(x: real): int {
    if x >= 0.0 then (x + 0.5).Floor else -((0.5 - x).Floor)
  }

  /** The rounded amount is the nearest whole cent; on a tie, the one further from zero. */
  lemma RoundingIsNearest(x: real, n: int)
    ensures n == RoundCents(x) <==>
            Abs(n as real - x) < 0.5 || (Abs(n as real - x) == 0.5 && Abs(n as real) > Abs(x))
  {
  }

  lemma RoundingError(x: real)
    ensures Abs(RoundCents(x) as real - x) <= 0.5
  {
  }

  lemma WholeCentsStay(n: int)
    ensures RoundCents(n as real) == n
  {
  }

  lemma {:induction false} ProductAsReal(a: nat, b: int)
    ensures (a * b) as real == a as real * b as real
  {
    if a > 0 {
      ProductAsReal(a - 1, b);
      assert a * b == (a - 1) * b + b;
    }
  }
}
