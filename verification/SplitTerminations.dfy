/** Splitting an early termination into same-day requests, seen in the books: the investment
    ends the same and the cash received differs by cents only. */
module SplitTerminations {
  import opened Calendar
  import opened Interest
  import opened ReconciliationModel
  import opened InvestmentBook
  import opened InvestmentInvariants
  import ET = EarlyTermination

  function Received(cash: seq<Cash>): int {
    if cash == [] then 0
    else Received(cash[..|cash| - 1]) + if cash[|cash| - 1].direction == Inflow then cash[|cash| - 1].amount else 0
  }

  function Requests(i: nat, amounts: seq<int>, date: Day): (steps: seq<Step>)
    ensures |steps| == |amounts|
  {
    if amounts == [] then []
    else Requests(i, amounts[..|amounts| - 1], date) + [Terminate(i, amounts[|amounts| - 1], date)]
  }

  /** An investment whose principal can be terminated in part. */
  predicate Divisible(b: Book, i: nat) {
    i < |b.investments| && Running(b.investments[i]) && b.investments[i].terms.early && b.investments[i].terms.partial
  }

  predicate Positive(amounts: seq<int>) {
    forall a | a in amounts :: a > 0
  }

  lemma OneTermination(b: Book, i: nat, amount: int, date: Day)
    requires Divisible(b, i) && 0 < amount <= b.investments[i].principal
    ensures var step := Terminate(i, amount, date);
            var inv, after := b.investments[i], Next(b, step);
            && Allowed(b, step)
            && |after.investments| == |b.investments|
            && after.investments[i] == Reduced(inv, amount, Terminated)
            && ContractOf(after.investments[i]) == ContractOf(inv)
            && (amount < inv.principal ==> Divisible(after, i))
            && after.investments[i].principal == inv.principal - amount
            && Received(after.cash) == Received(b.cash) + ET.Terminated(ContractOf(inv), amount, date).net
  {
    hide Expected, ET.Terminated;
    var after := Next(b, Terminate(i, amount, date));
    assert after.cash[..|b.cash|] == b.cash;
  }

  lemma {:induction false} PositiveSum(amounts: seq<int>)
    requires Positive(amounts)
    ensures ET.SumOf(amounts) >= |amounts|
  {
    if amounts != [] {
      var front := amounts[..|amounts| - 1];
      forall a | a in front ensures a > 0 {
        assert a in amounts;
      }
      PositiveSum(front);
      assert amounts[|amounts| - 1] in amounts;
    }
  }

  lemma ReducedTwice(inv: Investment, a: int, b: int)
    requires a > 0 && b > 0 && a + b <= inv.principal
    ensures Reduced(Reduced(inv, a, Terminated), b, Terminated) == Reduced(inv, a + b, Terminated)
  {
    hide SimpleInterest;
  }

  lemma {:induction false} RequestsTogether(b: Book, i: nat, amounts: seq<int>, date: Day)
    requires Divisible(b, i) && Positive(amounts) && ET.SumOf(amounts) <= b.investments[i].principal
    ensures var inv, after := b.investments[i], After(b, Requests(i, amounts, date));
            && i < |after.investments|
            && after.investments[i].principal == inv.principal - ET.SumOf(amounts)
            && ContractOf(after.investments[i]) == ContractOf(inv)
            && (ET.SumOf(amounts) < inv.principal ==> Divisible(after, i))
            && (amounts != [] ==> after.investments[i] == Reduced(inv, ET.SumOf(amounts), Terminated))
            && Received(after.cash) == Received(b.cash) + ET.Together(ContractOf(inv), amounts, date).net
  {
    hide Expected, ET.Terminated, Next;
    if amounts != [] {
      var front, last := amounts[..|amounts| - 1], amounts[|amounts| - 1];
      assert last in amounts && forall a | a in front :: a in amounts;
      PositiveSum(front);
      RequestsTogether(b, i, front, date);
      var mid := After(b, Requests(i, front, date));
      AfterOneMore(b, Requests(i, front, date), Terminate(i, last, date));
      OneTermination(mid, i, last, date);
      if front == [] {
        assert amounts == [last];
      } else {
        ReducedTwice(b.investments[i], ET.SumOf(front), last);
      }
    }
  }

  /** An investment of a reachable book that still has principal to terminate had some to
      begin with. */
  lemma ReachableOriginalIsPositive(steps: seq<Step>, i: nat)
    requires var b := After(EMPTY, steps); i < |b.investments| && b.investments[i].principal > 0
    ensures After(EMPTY, steps).investments[i].original > 0
  {
    hide After;
    RunsStayWithinOriginals(steps);
  }

  /** After any run of the system: splitting a termination of any investment into same-day parts
      leaves it with the same principal, status and terms, and moves the cash received by no
      more than the rounding bound. */
  lemma SplittingLeavesTheSameInvestment(steps: seq<Step>, i: nat, amounts: seq<int>, date: Day)
    requires var b := After(EMPTY, steps);
             && Divisible(b, i) && Positive(amounts) && amounts != []
             && ET.SumOf(amounts) <= b.investments[i].principal
    ensures var b := After(EMPTY, steps);
            var parts, whole := After(b, Requests(i, amounts, date)), Next(b, Terminate(i, ET.SumOf(amounts), date));
            var bound := ET.SplitBound(b.investments[i].terms.penalty, |amounts|);
            && i < |parts.investments| && i < |whole.investments|
            && parts.investments[i] == whole.investments[i]
            && -bound <= 2 * (Received(parts.cash) - Received(whole.cash)) <= bound
  {
    hide Expected, ET.Terminated, Next, After, Reduced, ET.Together, Received, ET.SplitBound;
    var b := After(EMPTY, steps);
    PositiveSum(amounts);
    ReachableOriginalIsPositive(steps, i);
    RequestsTogether(b, i, amounts, date);
    OneTermination(b, i, ET.SumOf(amounts), date);
    ET.SplittingChangesOnlyCents(ContractOf(b.investments[i]), amounts, date);
  }
}
