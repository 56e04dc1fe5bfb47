/** Early termination of an investment, in one go or split over several same-day requests. */
module EarlyTermination {
  import opened Money
  import opened Calendar
  import opened Interest

  datatype Penalty = NoPenalty | FlatAmount(amount: int) | RateReduction(rate: real) | ForfeitInterest

  datatype Contract = Contract(
    ratePct: real, start: Date, convention: Convention, penalty: Penalty, originalPrincipal: int)

  datatype Proceeds = Proceeds(principal: int, interest: int, forfeited: int, penalty: int, net: int)

  /** The share of the original principal that is terminated; 1 if there was none. */
  function Proportion(c: Contract, amount: int): real {
    if c.originalPrincipal == 0 then 1.0 else amount as real / c.originalPrincipal as real
  }

  function ReducedRate(ratePct: real, reduction: real): real {
    if ratePct - reduction < 0.0 then 0.0 else ratePct - reduction
  }

  function InterestTo(c: Contract, amount: int, ratePct: real, date: Date): int
    requires Valid(c.start) && Valid(date)
  {
    SimpleInterest(amount, ratePct, c.start, date, c.convention)
  }

  function FlatShare(c: Contract, amount: int): real
    requires c.penalty.FlatAmount?
  {
    c.penalty.amount as real * Proportion(c, amount)
  }

  function Penalised(c: Contract, amount: int): int
    requires c.penalty.FlatAmount?
  {
    RoundCents(FlatShare(c, amount))
  }

  function Terminated(c: Contract, amount: int, date: Date): Proceeds
    requires Valid(c.start) && Valid(date)
  {
    var earned := InterestTo(c, amount, c.ratePct, date);
    match c.penalty
    case NoPenalty => Proceeds(amount, earned, 0, 0, amount + earned)
    case FlatAmount(_) => Proceeds(amount, earned, 0, Penalised(c, amount), amount + earned - Penalised(c, amount))
    case RateReduction(rate) =>
      if rate == 0.0 then Proceeds(amount, earned, 0, 0, amount + earned)
      else
        var reduced := InterestTo(c, amount, ReducedRate(c.ratePct, rate), date);
        Proceeds(amount, reduced, 0, earned - reduced, amount + reduced - (earned - reduced))
    case ForfeitInterest => Proceeds(amount, 0, earned, earned, amount)
  }

  method CalculateEarlyTermination(c: Contract, amount: int, date: Date) returns (r: Proceeds)
    requires Valid(c.start) && Valid(date)
    ensures r == Terminated(c, amount, date)
  {
    hide Valid, RoundCents, DaysBetween;
    var earned := SimpleInterest(amount, c.ratePct, c.start, date, c.convention);
    var penalty := 0;
    if c.penalty.FlatAmount? {
      penalty := RoundCents(FlatShare(c, amount));
    } else if c.penalty.RateReduction? && c.penalty.rate != 0.0 {
      var reducedRate := ReducedRate(c.ratePct, c.penalty.rate);
      var reducedInterest := SimpleInterest(amount, reducedRate, c.start, date, c.convention);
      penalty := earned - reducedInterest;
      earned := reducedInterest;
    } else if c.penalty.ForfeitInterest? {
      penalty := earned;
      earned := 0;
    }
    var forfeited := if c.penalty.ForfeitInterest? then penalty else 0;
    var net := amount + earned - (if c.penalty.ForfeitInterest? then 0 else penalty);
    r := Proceeds(amount, earned, forfeited, penalty, net);
  }

  /** A rate reduction is charged twice: the interest is already the reduced one when the
      difference is subtracted from it again. */
  lemma RateReductionChargesTwice(c: Contract, amount: int, date: Date)
    requires Valid(c.start) && Valid(date) && c.penalty.RateReduction? && c.penalty.rate != 0.0
    ensures var r := Terminated(c, amount, date);
            r.net == amount + InterestTo(c, amount, c.ratePct, date) - 2 * r.penalty
  {
  }

  // ---------------------------------------------------------------- rounding parts or the whole

  function SumOf(amounts: seq<int>): int {
    if amounts == [] then 0 else SumOf(amounts[..|amounts| - 1]) + amounts[|amounts| - 1]
  }

  function Scaled(a: int, slope: real): real {
    a as real * slope
  }

  function RoundedParts(amounts: seq<int>, slope: real): int {
    if amounts == [] then 0
    else RoundedParts(amounts[..|amounts| - 1], slope) + RoundCents(Scaled(amounts[|amounts| - 1], slope))
  }

  lemma ScaledSum(a: int, b: int, slope: real)
    ensures Scaled(a + b, slope) == Scaled(a, slope) + Scaled(b, slope)
    ensures Scaled(0, slope) == 0.0
  {
  }

  lemma {:induction false} PartsAreClose(amounts: seq<int>, slope: real)
    ensures Abs(RoundedParts(amounts, slope) as real - Scaled(SumOf(amounts), slope)) <= |amounts| as real / 2.0
  {
    hide RoundCents, Scaled;
    ScaledSum(0, 0, slope);
    if amounts != [] {
      var front, last := amounts[..|amounts| - 1], amounts[|amounts| - 1];
      PartsAreClose(front, slope);
      ScaledSum(SumOf(front), last, slope);
      RoundingError(Scaled(last, slope));
    }
  }

  /** Rounding k parts or the whole differs by at most (k + 1) / 2 cents. */
  lemma PartsOrWhole(amounts: seq<int>, slope: real)
    ensures var difference := RoundedParts(amounts, slope) - RoundCents(Scaled(SumOf(amounts), slope));
            -(|amounts| + 1) <= 2 * difference <= |amounts| + 1
  {
    hide RoundCents, Scaled;
    PartsAreClose(amounts, slope);
    RoundingError(Scaled(SumOf(amounts), slope));
  }

  // ---------------------------------------------------------------- interest and penalty are linear

  function InterestSlope(c: Contract, ratePct: real, date: Date): real
    requires Valid(c.start) && Valid(date)
  {
    Growth(ratePct, DaysBetween(c.start, date, c.convention), c.convention)
  }

  /** Interest per cent of principal. */
  function Growth(ratePct: real, days: int, c: Convention): real {
    (ratePct / 100.0) * days as real / Denominator(c)
  }

  lemma AccrualIsScaled(amount: int, ratePct: real, days: int, c: Convention)
    ensures Accrued(amount, ratePct, days, c) == Scaled(amount, Growth(ratePct, days, c))
  {
    var a, b, d, n := amount as real, ratePct / 100.0, days as real, Denominator(c);
    assert a * b * d == a * (b * d);
    assert a * (b * d) / n == a * ((b * d) / n);
  }

  lemma InterestIsScaled(c: Contract, amount: int, ratePct: real, date: Date)
    requires Valid(c.start) && Valid(date)
    ensures InterestTo(c, amount, ratePct, date) == RoundCents(Scaled(amount, InterestSlope(c, ratePct, date)))
  {
    hide Valid, DaysBetween, RoundCents, Scaled, Accrued, Growth;
    AccrualIsScaled(amount, ratePct, DaysBetween(c.start, date, c.convention), c.convention);
  }

  function PenaltySlope(c: Contract): real
    requires c.penalty.FlatAmount? && c.originalPrincipal != 0
  {
    c.penalty.amount as real / c.originalPrincipal as real
  }

  lemma ExchangeFactors(p: real, a: real, o: real)
    requires o != 0.0
    ensures p * (a / o) == a * (p / o)
  {
    assert p * (a / o) == p * a / o;
    assert a * (p / o) == a * p / o;
  }

  lemma FlatShareIsScaled(c: Contract, amount: int)
    requires c.penalty.FlatAmount? && c.originalPrincipal != 0
    ensures FlatShare(c, amount) == Scaled(amount, PenaltySlope(c))
  {
    ExchangeFactors(c.penalty.amount as real, amount as real, c.originalPrincipal as real);
  }

  lemma PenaltyIsScaled(c: Contract, amount: int)
    requires c.penalty.FlatAmount? && c.originalPrincipal != 0
    ensures Penalised(c, amount) == RoundCents(Scaled(amount, PenaltySlope(c)))
  {
    hide RoundCents, Scaled, FlatShare, PenaltySlope;
    FlatShareIsScaled(c, amount);
  }

  // ---------------------------------------------------------------- splitting a termination

  /** Same-day terminations of the parts: what they return together. */
  function Together(c: Contract, amounts: seq<int>, date: Date): Proceeds
    requires Valid(c.start) && Valid(date)
  {
    if amounts == [] then Proceeds(0, 0, 0, 0, 0)
    else
      var front, last := Together(c, amounts[..|amounts| - 1], date), Terminated(c, amounts[|amounts| - 1], date);
      Proceeds(front.principal + last.principal, front.interest + last.interest, front.forfeited + last.forfeited,
               front.penalty + last.penalty, front.net + last.net)
  }

  lemma {:induction false} TogetherByParts(c: Contract, amounts: seq<int>, date: Date)
    requires Valid(c.start) && Valid(date) && (c.penalty.FlatAmount? ==> c.originalPrincipal != 0)
    ensures var t := Together(c, amounts, date);
            var full := RoundedParts(amounts, InterestSlope(c, c.ratePct, date));
            && t.principal == SumOf(amounts)
            && match c.penalty
               case NoPenalty => t.net == SumOf(amounts) + full
               case FlatAmount(_) => t.net == SumOf(amounts) + full - RoundedParts(amounts, PenaltySlope(c))
               case RateReduction(rate) =>
                 t.net == if rate == 0.0 then SumOf(amounts) + full
                          else SumOf(amounts) - full
                               + 2 * RoundedParts(amounts, InterestSlope(c, ReducedRate(c.ratePct, rate), date))
               case ForfeitInterest => t.net == SumOf(amounts)
  {
    hide RoundCents, Scaled, InterestSlope, PenaltySlope, InterestTo, Penalised, ReducedRate, Valid;
    if amounts != [] {
      var last := amounts[|amounts| - 1];
      TogetherByParts(c, amounts[..|amounts| - 1], date);
      InterestIsScaled(c, last, c.ratePct, date);
      if c.penalty.FlatAmount? {
        PenaltyIsScaled(c, last);
      }
      if c.penalty.RateReduction? {
        InterestIsScaled(c, last, ReducedRate(c.ratePct, c.penalty.rate), date);
      }
    }
  }

  /** Twice the largest difference k same-day terminations can make, in cents. */
  function SplitBound(p: Penalty, k: nat): int {
    match p
    case NoPenalty => k + 1
    case FlatAmount(_) => 2 * (k + 1)
    case RateReduction(rate) => if rate == 0.0 then k + 1 else 3 * (k + 1)
    case ForfeitInterest => 0
  }

  /** Splitting a termination over k same-day requests returns the same principal, and net
      proceeds within k + 1 cents for a flat penalty, half of that without one, exactly the
      same when interest is forfeited, and 3(k + 1) / 2 cents for a rate reduction. */
  lemma SplittingChangesOnlyCents(c: Contract, amounts: seq<int>, date: Date)
    requires Valid(c.start) && Valid(date) && (c.penalty.FlatAmount? ==> c.originalPrincipal != 0)
    ensures var parts, whole := Together(c, amounts, date), Terminated(c, SumOf(amounts), date);
            && parts.principal == whole.principal
            && -SplitBound(c.penalty, |amounts|) <= 2 * (parts.net - whole.net) <= SplitBound(c.penalty, |amounts|)
  {
    hide RoundCents, Scaled, InterestSlope, PenaltySlope, InterestTo, Penalised, ReducedRate, Valid;
    hide RoundedParts, SumOf, Together;
    TogetherByParts(c, amounts, date);
    var sum := SumOf(amounts);
    InterestIsScaled(c, sum, c.ratePct, date);
    PartsOrWhole(amounts, InterestSlope(c, c.ratePct, date));
    match c.penalty
    case FlatAmount(_) =>
      PenaltyIsScaled(c, sum);
      PartsOrWhole(amounts, PenaltySlope(c));
    case RateReduction(rate) =>
      InterestIsScaled(c, sum, ReducedRate(c.ratePct, rate), date);
      PartsOrWhole(amounts, InterestSlope(c, ReducedRate(c.ratePct, rate), date));
    case _ =>
  }

  /** Given an original principal of zero the engine charges every part the whole flat penalty,
      so k parts pay it k times.  No investment that can be terminated has one. */
  lemma {:induction false} WithoutOriginalPrincipalPenaltiesMultiply(c: Contract, amounts: seq<int>, date: Date)
    requires Valid(c.start) && Valid(date) && c.penalty.FlatAmount? && c.originalPrincipal == 0
    ensures Together(c, amounts, date).penalty == |amounts| * Terminated(c, SumOf(amounts), date).penalty
  {
    hide InterestTo, Valid, RoundCents;
    if amounts != [] {
      var front, last := amounts[..|amounts| - 1], amounts[|amounts| - 1];
      WithoutOriginalPrincipalPenaltiesMultiply(c, front, date);
      assert FlatShare(c, last) == FlatShare(c, SumOf(front)) == FlatShare(c, SumOf(amounts));
      hide FlatShare;
      var penalty := Terminated(c, SumOf(amounts), date).penalty;
      assert |amounts| * penalty == |front| * penalty + penalty;
    }
  }
}
