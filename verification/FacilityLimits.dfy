/** When a facility stays inside its limits, step by step and over whole runs. */
module FacilityLimits {
  import opened ReconciliationModel
  import opened FacilityLedger
  import Money

  ghost predicate WithinLimits(f: Facility) {
    && 0 <= f.drawn <= f.limit
    && (forall k | 0 <= k < |f.subs| :: 0 <= f.subs[k].drawn <= f.subs[k].limit)
    && (forall r | 0 <= r < |f.repayments| :: 0 <= f.repayments[r].paid <= f.repayments[r].original)
  }

  /** What the service would have to ask of an amount, and does not. */
  predicate Keeps(f: Facility, step: Step)
    requires Allowed(f, step)
  {
    match step
    case Amend(limit, _) => f.drawn <= limit.UnwrapOr(f.limit)
    case AddSubLimit(limit) => limit >= 0
    case Execute(d) =>
      var amount, sub := f.drawdowns[d].amount, f.drawdowns[d].sub;
      && 0 <= f.drawn + amount <= f.limit
      && (sub.Some? ==> f.subs[sub.value].drawn + amount >= 0)
    case AddRepayment(_, original, _) => original >= 0
    case Pay(r, amount) =>
      var freed := FreedSub(f, r);
      && f.repayments[r].paid + amount >= 0
      && (f.repayments[r].kind == PrincipalRepayment ==>
            && f.drawn - amount <= f.limit
            && (freed.Some? ==> f.subs[freed.value].drawn - amount <= f.subs[freed.value].limit))
    case _ => true
  }

  lemma SubAfter(subs: seq<SubLimit>, k: nat, drawn: int)
    requires k < |subs|
    requires forall j | 0 <= j < |subs| :: 0 <= subs[j].drawn <= subs[j].limit
    ensures var after := WithSub(subs, Some(k), drawn);
            (forall j | 0 <= j < |after| :: 0 <= after[j].drawn <= after[j].limit) <==> 0 <= drawn <= subs[k].limit
  {
    var after := WithSub(subs, Some(k), drawn);
    assert after[k].drawn == drawn && after[k].limit == subs[k].limit;
  }

  /** An allowed step keeps the limits exactly when its amounts pass the test above. */
  lemma StepKeepsLimitsExactlyWhen(f: Facility, step: Step)
    requires WithinLimits(f) && Allowed(f, step)
    ensures WithinLimits(Apply(f, step)) <==> Keeps(f, step)
  {
    var after := Apply(f, step);
    match step
    case AddSubLimit(limit) => assert after.subs[|f.subs|] == SubLimit(limit, 0);
    case AddRepayment(_, original, _) => assert after.repayments[|f.repayments|].original == original;
    case Execute(d) =>
      var dd := f.drawdowns[d];
      if dd.sub.Some? {
        SubAfter(f.subs, dd.sub.value, f.subs[dd.sub.value].drawn + dd.amount);
      }
    case Pay(r, amount) =>
      assert after.repayments[r].paid == f.repayments[r].paid + amount;
      var freed := FreedSub(f, r);
      if freed.Some? {
        SubAfter(f.subs, freed.value, Money.Max(0, f.subs[freed.value].drawn - amount));
      }
    case _ =>
  }

  // ---------------------------------------------------------------- whole runs

  /** The limits hold after every prefix of the run. */
  ghost predicate AlwaysWithin(start: Facility, steps: seq<Step>) {
    forall n | 0 <= n <= |steps| :: WithinLimits(After(start, steps[..n]))
  }

  /** Every step that was carried out passed the test. */
  ghost predicate AlwaysKeeps(start: Facility, steps: seq<Step>) {
    forall n | 0 <= n < |steps| && Allowed(After(start, steps[..n]), steps[n]) ::
      Keeps(After(start, steps[..n]), steps[n])
  }

  lemma AlwaysWithinStep(start: Facility, steps: seq<Step>)
    requires steps != []
    ensures AlwaysWithin(start, steps)
            <==> AlwaysWithin(start, steps[..|steps| - 1]) && WithinLimits(After(start, steps))
  {
    hide WithinLimits, After;
    var front := steps[..|steps| - 1];
    assert steps[..|steps|] == steps;
    assert forall n | 0 <= n <= |front| :: front[..n] == steps[..n];
    assert AlwaysWithin(start, steps) ==> WithinLimits(After(start, steps[..|steps|]));
  }

  lemma AlwaysKeepsStep(start: Facility, steps: seq<Step>)
    requires steps != []
    ensures var front, step := After(start, steps[..|steps| - 1]), steps[|steps| - 1];
            AlwaysKeeps(start, steps)
            <==> AlwaysKeeps(start, steps[..|steps| - 1]) && (Allowed(front, step) ==> Keeps(front, step))
  {
    hide Keeps, After, Allowed;
    var front, last := steps[..|steps| - 1], |steps| - 1;
    assert forall n | 0 <= n < last :: front[..n] == steps[..n] && front[n] == steps[n];
    assert AlwaysKeeps(start, steps) && Allowed(After(start, steps[..last]), steps[last]) ==>
        Keeps(After(start, steps[..last]), steps[last]);
  }

  /** Over any run whatever, the drawn balance, the sub-limits and the repayments stay inside
      their limits throughout exactly when every step carried out passed the test. */
  lemma {:induction false} LimitsHoldExactlyWhen(start: Facility, steps: seq<Step>)
    requires WithinLimits(start)
    ensures AlwaysWithin(start, steps) <==> AlwaysKeeps(start, steps)
  {
    hide WithinLimits, Keeps, Allowed, Apply, AlwaysWithin, AlwaysKeeps;
    if steps == [] {
      EmptyRun(start);
    } else {
      var front, step := steps[..|steps| - 1], steps[|steps| - 1];
      LimitsHoldExactlyWhen(start, front);
      AlwaysWithinStep(start, steps);
      AlwaysKeepsStep(start, steps);
      var f := After(start, front);
      if AlwaysWithin(start, front) {
        EndsWithin(start, front);
        if Allowed(f, step) {
          StepKeepsLimitsExactlyWhen(f, step);
        }
      }
    }
  }

  lemma EmptyRun(start: Facility)
    requires WithinLimits(start)
    ensures AlwaysWithin(start, []) && AlwaysKeeps(start, [])
  {
    hide WithinLimits;
  }

  lemma EndsWithin(start: Facility, steps: seq<Step>)
    requires AlwaysWithin(start, steps)
    ensures WithinLimits(After(start, steps))
  {
    hide WithinLimits, After;
    assert steps[..|steps|] == steps;
  }

  // ---------------------------------------------------------------- positive amounts are enough

  /** Amounts are positive and the limit is not cut. */
  predicate Sensible(f: Facility, step: Step) {
    match step
    case Amend(limit, _) => limit.UnwrapOr(f.limit) >= f.limit
    case AddSubLimit(limit) => limit >= 0
    case Request(amount, _, _, _) => amount > 0
    case AddRepayment(_, original, _) => original > 0
    case Pay(_, amount) => amount > 0
    case _ => true
  }

  ghost predicate AmountsPositive(f: Facility) {
    f.terms.restricted >= 0 && forall d | 0 <= d < |f.drawdowns| :: f.drawdowns[d].amount > 0
  }

  lemma SensibleStepsKeep(f: Facility, step: Step)
    requires WithinLimits(f) && AmountsPositive(f) && Allowed(f, step) && Sensible(f, step)
    ensures Keeps(f, step) && AmountsPositive(Apply(f, step))
  {
  }

  /** With positive amounts and no cut of the limit every facility stays inside its limits. */
  lemma {:induction false} PositiveAmountsHold(start: Facility, steps: seq<Step>)
    requires WithinLimits(start) && AmountsPositive(start)
    requires forall n | 0 <= n < |steps| :: Sensible(After(start, steps[..n]), steps[n])
    ensures WithinLimits(After(start, steps)) && AmountsPositive(After(start, steps))
  {
    hide Allowed, Apply, WithinLimits, AmountsPositive, Sensible, Keeps;
    if steps != [] {
      var front, last := steps[..|steps| - 1], |steps| - 1;
      forall n | 0 <= n < |front| ensures Sensible(After(start, front[..n]), front[n]) {
        assert front[..n] == steps[..n];
      }
      PositiveAmountsHold(start, front);
      var f := After(start, front);
      assert Sensible(After(start, steps[..last]), steps[last]);
      if Allowed(f, steps[last]) {
        SensibleStepsKeep(f, steps[last]);
        StepKeepsLimitsExactlyWhen(f, steps[last]);
      }
    }
  }

  // ---------------------------------------------------------------- inputs that leave the limits

  function Opened(limit: int): Facility {
    Facility(Terms(false, 0, 1, None, None, 100), Active, limit, 0, [], [], [])
  }

  /** Nothing rejects a negative drawdown: requested, approved and executed on a fresh
      facility it drives the drawn balance below zero. */
  lemma NegativeDrawdownIsAccepted(limit: nat)
    ensures After(Opened(limit), [Request(-5, 1, 10, None), Approve(0), Execute(0)]).drawn == -5
  {
    var steps := [Request(-5, 1, 10, None), Approve(0), Execute(0)];
    assert steps[..2][..1] == steps[..1] && steps[..1][..0] == [];
    assert After(Opened(limit), steps[..1]) == Next(Opened(limit), steps[0]);
    assert After(Opened(limit), steps[..2]) == Next(After(Opened(limit), steps[..1]), steps[1]);
    assert After(Opened(limit), steps) == Next(After(Opened(limit), steps[..2]), steps[2]);
  }

  /** Nothing rejects a negative payment either: it draws, past the committed limit. */
  lemma NegativePaymentExceedsTheLimit()
    ensures var after := After(Opened(100), [AddRepayment(PrincipalRepayment, 50, None), Pay(0, -1000)]);
            after.drawn == 1000 && after.limit == 100 && after.repayments[0].paid == -1000
  {
    var steps := [AddRepayment(PrincipalRepayment, 50, None), Pay(0, -1000)];
    assert steps[..1][..0] == [];
    assert After(Opened(100), steps[..1]) == Next(Opened(100), steps[0]);
    assert After(Opened(100), steps) == Next(After(Opened(100), steps[..1]), steps[1]);
  }

  /** A cut below what is drawn, a negative sub-limit and a negative repayment are all
      accepted and leave the limits at once. */
  lemma OtherInputsThatLeaveTheLimits(f: Facility)
    requires WithinLimits(f) && f.drawn > 0
    ensures Allowed(f, Amend(Some(0), None)) && !WithinLimits(Apply(f, Amend(Some(0), None)))
    ensures Allowed(f, AddSubLimit(-1)) && !WithinLimits(Apply(f, AddSubLimit(-1)))
    ensures var step := AddRepayment(FeeRepayment, -1, None); Allowed(f, step) && !WithinLimits(Apply(f, step))
  {
    StepKeepsLimitsExactlyWhen(f, Amend(Some(0), None));
    StepKeepsLimitsExactlyWhen(f, AddSubLimit(-1));
    StepKeepsLimitsExactlyWhen(f, AddRepayment(FeeRepayment, -1, None));
  }
}
