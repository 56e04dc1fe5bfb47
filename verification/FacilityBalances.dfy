/** Over whole runs the balances drawn are the executed draws less the principal paid, for the
    facility and for each sub-limit, exactly as long as the zero clamp of payments never fires. */
module FacilityBalances {
  import opened ReconciliationModel
  import opened Money
  import opened FacilityLedger

  // ---------------------------------------------------------------- draws and payments add up

  function ExecutedTotal(ds: seq<Drawdown>): int {
    if ds == [] then 0
    else
      var d := ds[|ds| - 1];
      ExecutedTotal(ds[..|ds| - 1]) + if d.status == Executed then d.amount else 0
  }

  function PrincipalPaid(rs: seq<Repayment>): int {
    if rs == [] then 0
    else
      var p := rs[|rs| - 1];
      PrincipalPaid(rs[..|rs| - 1]) + if p.kind == PrincipalRepayment then p.paid else 0
  }

  lemma {:induction false} ExecutedAfterUpdate(ds: seq<Drawdown>, d: nat, changed: Drawdown)
    requires d < |ds|
    ensures ExecutedTotal(ds[d := changed]) == ExecutedTotal(ds)
            - (if ds[d].status == Executed then ds[d].amount else 0)
            + (if changed.status == Executed then changed.amount else 0)
  {
    var last := |ds| - 1;
    if d < last {
      ExecutedAfterUpdate(ds[..last], d, changed);
      assert ds[d := changed][..last] == ds[..last][d := changed];
    } else {
      assert ds[d := changed][..last] == ds[..last];
    }
  }

  lemma {:induction false} PaidAfterUpdate(rs: seq<Repayment>, r: nat, changed: Repayment)
    requires r < |rs| && changed.kind == rs[r].kind
    ensures PrincipalPaid(rs[r := changed]) == PrincipalPaid(rs)
            + if changed.kind == PrincipalRepayment then changed.paid - rs[r].paid else 0
  {
    var last := |rs| - 1;
    if r < last {
      PaidAfterUpdate(rs[..last], r, changed);
      assert rs[r := changed][..last] == rs[..last][r := changed];
    } else {
      assert rs[r := changed][..last] == rs[..last];
    }
  }

  /** What is drawn beyond the executed draws less the principal paid. */
  function Gap(f: Facility): int {
    f.drawn - (ExecutedTotal(f.drawdowns) - PrincipalPaid(f.repayments))
  }

  /** The part of a principal payment the zero clamp swallows. */
  function Clamped(f: Facility, step: Step): int {
    if step.Pay? && Allowed(f, step) && f.repayments[step.r].kind == PrincipalRepayment
    then Max(0, step.amount - f.drawn) else 0
  }

  lemma StepWidensTheGap(f: Facility, step: Step)
    ensures Gap(Next(f, step)) == Gap(f) + Clamped(f, step)
  {
    if Allowed(f, step) {
      match step
      case Request(amount, currency, date, sub) =>
        assert (f.drawdowns + [Drawdown(amount, currency, date, sub, Submitted)])[..|f.drawdowns|] == f.drawdowns;
      case Approve(d) => ExecutedAfterUpdate(f.drawdowns, d, f.drawdowns[d].(status := Approved));
      case Execute(d) => ExecutedAfterUpdate(f.drawdowns, d, f.drawdowns[d].(status := Executed));
      case AddRepayment(kind, original, drawdown) =>
        assert (f.repayments + [Repayment(kind, original, 0, drawdown, Scheduled)])[..|f.repayments|] == f.repayments;
      case Pay(r, amount) => PaidAfterUpdate(f.repayments, r, PaidOff(f.repayments[r], amount));
      case _ =>
    }
  }

  /** No principal payment of the run exceeded what was drawn at the time. */
  ghost predicate NeverClamped(start: Facility, steps: seq<Step>) {
    forall n | 0 <= n < |steps| :: Clamped(After(start, steps[..n]), steps[n]) == 0
  }

  lemma NeverClampedStep(start: Facility, steps: seq<Step>)
    requires steps != []
    ensures var front := steps[..|steps| - 1];
            NeverClamped(start, steps)
            <==> NeverClamped(start, front) && Clamped(After(start, front), steps[|steps| - 1]) == 0
  {
    hide Clamped, After;
    var front, last := steps[..|steps| - 1], |steps| - 1;
    assert forall n | 0 <= n < last :: front[..n] == steps[..n] && front[n] == steps[n];
    assert NeverClamped(start, steps) ==> Clamped(After(start, steps[..last]), steps[last]) == 0;
  }

  /** Over any run whatever, the drawn balance equals the executed draws minus the principal
      paid exactly as long as no principal payment has exceeded what was drawn. */
  lemma {:induction false} DrawnIsDrawsLessPayments(start: Facility, steps: seq<Step>)
    requires Gap(start) == 0
    ensures Gap(After(start, steps)) >= 0
    ensures Gap(After(start, steps)) == 0 <==> NeverClamped(start, steps)
  {
    if steps == [] {
      assert NeverClamped(start, steps);
    } else {
      hide Gap, Clamped, Next, NeverClamped;
      var front := steps[..|steps| - 1];
      DrawnIsDrawsLessPayments(start, front);
      StepWidensTheGap(After(start, front), steps[|steps| - 1]);
      NeverClampedStep(start, steps);
    }
  }

  // ---------------------------------------------------------------- the same for each sub-limit

  function Under(ds: seq<Drawdown>, k: nat): int {
    if ds == [] then 0
    else
      var d := ds[|ds| - 1];
      Under(ds[..|ds| - 1], k) + if d.status == Executed && d.sub == Some(k) then d.amount else 0
  }

  /** Whether a repayment frees sub-limit `k`. */
  predicate Frees(p: Repayment, ds: seq<Drawdown>, k: nat) {
    && p.kind == PrincipalRepayment
    && p.drawdown.Some? && p.drawdown.value < |ds| && ds[p.drawdown.value].sub == Some(k)
  }

  function PaidUnder(rs: seq<Repayment>, ds: seq<Drawdown>, k: nat): int {
    if rs == [] then 0
    else PaidUnder(rs[..|rs| - 1], ds, k) + if Frees(rs[|rs| - 1], ds, k) then rs[|rs| - 1].paid else 0
  }

  /** Repayments refer to drawdowns that exist, and drawdowns to sub-limits that exist. */
  ghost predicate Linked(f: Facility) {
    && (forall r | 0 <= r < |f.repayments| && f.repayments[r].drawdown.Some? ::
          f.repayments[r].drawdown.value < |f.drawdowns|)
    && (forall d | 0 <= d < |f.drawdowns| && f.drawdowns[d].sub.Some? :: f.drawdowns[d].sub.value < |f.subs|)
  }

  lemma {:induction false} UnderAfterUpdate(ds: seq<Drawdown>, d: nat, changed: Drawdown, k: nat)
    requires d < |ds|
    ensures Under(ds[d := changed], k) == Under(ds, k)
            - (if ds[d].status == Executed && ds[d].sub == Some(k) then ds[d].amount else 0)
            + (if changed.status == Executed && changed.sub == Some(k) then changed.amount else 0)
  {
    var last := |ds| - 1;
    if d < last {
      UnderAfterUpdate(ds[..last], d, changed, k);
      assert ds[d := changed][..last] == ds[..last][d := changed];
    } else {
      assert ds[d := changed][..last] == ds[..last];
    }
  }

  lemma {:induction false} PaidUnderAfterUpdate(
      rs: seq<Repayment>, ds: seq<Drawdown>, r: nat, changed: Repayment, k: nat)
    requires r < |rs| && changed.kind == rs[r].kind && changed.drawdown == rs[r].drawdown
    ensures PaidUnder(rs[r := changed], ds, k) == PaidUnder(rs, ds, k)
            + if Frees(changed, ds, k) then changed.paid - rs[r].paid else 0
  {
    var last := |rs| - 1;
    if r < last {
      PaidUnderAfterUpdate(rs[..last], ds, r, changed, k);
      assert rs[r := changed][..last] == rs[..last][r := changed];
    } else {
      assert rs[r := changed][..last] == rs[..last];
    }
  }

  /** Which sub-limit a repayment frees depends only on the drawdown it is tied to. */
  lemma {:induction false} PaidUnderKeepsLinks(rs: seq<Repayment>, ds: seq<Drawdown>, es: seq<Drawdown>, k: nat)
    requires |ds| <= |es| && forall d | 0 <= d < |ds| :: ds[d].sub == es[d].sub
    requires forall r | 0 <= r < |rs| && rs[r].drawdown.Some? :: rs[r].drawdown.value < |ds|
    ensures PaidUnder(rs, ds, k) == PaidUnder(rs, es, k)
  {
    if rs != [] {
      PaidUnderKeepsLinks(rs[..|rs| - 1], ds, es, k);
    }
  }

  /** What is drawn under sub-limit `k`; nothing before it exists. */
  function DrawnUnder(f: Facility, k: nat): int {
    SubDrawn(f.subs, Some(k))
  }

  function SubGap(f: Facility, k: nat): int {
    DrawnUnder(f, k) - (Under(f.drawdowns, k) - PaidUnder(f.repayments, f.drawdowns, k))
  }

  /** The part of a payment the zero clamp of sub-limit `k` swallows. */
  function SubClamped(f: Facility, step: Step, k: nat): int {
    if step.Pay? && Allowed(f, step) && Frees(f.repayments[step.r], f.drawdowns, k)
    then Max(0, step.amount - DrawnUnder(f, k)) else 0
  }

  lemma RequestKeepsTheSubGap(f: Facility, step: Step, k: nat)
    requires step.Request? && Allowed(f, step) && Linked(f)
    ensures Linked(Apply(f, step)) && SubGap(Apply(f, step), k) == SubGap(f, k)
  {
    hide PaidUnder, Capacity;
    var after := Apply(f, step);
    assert after.drawdowns[..|f.drawdowns|] == f.drawdowns;
    PaidUnderKeepsLinks(f.repayments, f.drawdowns, after.drawdowns, k);
  }

  lemma ApprovalKeepsTheSubGap(f: Facility, d: nat, k: nat)
    requires Allowed(f, Approve(d)) && Linked(f)
    ensures Linked(Apply(f, Approve(d))) && SubGap(Apply(f, Approve(d)), k) == SubGap(f, k)
  {
    hide PaidUnder, Under;
    var after := Apply(f, Approve(d));
    UnderAfterUpdate(f.drawdowns, d, after.drawdowns[d], k);
    PaidUnderKeepsLinks(f.repayments, f.drawdowns, after.drawdowns, k);
  }

  lemma ExecutionKeepsTheSubGap(f: Facility, d: nat, k: nat)
    requires Allowed(f, Execute(d)) && Linked(f)
    ensures Linked(Apply(f, Execute(d))) && SubGap(Apply(f, Execute(d)), k) == SubGap(f, k)
  {
    hide PaidUnder, Under, Capacity;
    var after := Apply(f, Execute(d));
    UnderAfterUpdate(f.drawdowns, d, after.drawdowns[d], k);
    PaidUnderKeepsLinks(f.repayments, f.drawdowns, after.drawdowns, k);
  }

  lemma PaymentWidensTheSubGap(f: Facility, step: Step, k: nat)
    requires step.Pay? && Allowed(f, step) && Linked(f)
    ensures Linked(Apply(f, step)) && SubGap(Apply(f, step), k) == SubGap(f, k) + SubClamped(f, step, k)
  {
    hide PaidUnder, Under;
    PaidUnderAfterUpdate(f.repayments, f.drawdowns, step.r, PaidOff(f.repayments[step.r], step.amount), k);
  }

  lemma AdditionKeepsTheSubGap(f: Facility, step: Step, k: nat)
    requires (step.AddSubLimit? || step.AddRepayment?) && Allowed(f, step) && Linked(f)
    ensures Linked(Apply(f, step)) && SubGap(Apply(f, step), k) == SubGap(f, k)
  {
    hide Under;
    if step.AddRepayment? {
      assert Apply(f, step).repayments[..|f.repayments|] == f.repayments;
    }
  }

  lemma StepWidensTheSubGap(f: Facility, step: Step, k: nat)
    requires Linked(f)
    ensures Linked(Next(f, step)) && SubGap(Next(f, step), k) == SubGap(f, k) + SubClamped(f, step, k)
  {
    hide Under, PaidUnder, Capacity, SubDrawn, WithSub, Frees;
    if Allowed(f, step) {
      match step
      case Request(_, _, _, _) => RequestKeepsTheSubGap(f, step, k);
      case Approve(d) => ApprovalKeepsTheSubGap(f, d, k);
      case Execute(d) => ExecutionKeepsTheSubGap(f, d, k);
      case AddSubLimit(_) => AdditionKeepsTheSubGap(f, step, k);
      case AddRepayment(_, _, _) => AdditionKeepsTheSubGap(f, step, k);
      case Pay(_, _) => PaymentWidensTheSubGap(f, step, k);
      case _ =>
    }
  }

  /** No payment of the run exceeded what was drawn under the sub-limit it frees. */
  ghost predicate NeverSubClamped(start: Facility, steps: seq<Step>, k: nat) {
    forall n | 0 <= n < |steps| :: SubClamped(After(start, steps[..n]), steps[n], k) == 0
  }

  lemma NeverSubClampedStep(start: Facility, steps: seq<Step>, k: nat)
    requires steps != []
    ensures var front, step := steps[..|steps| - 1], steps[|steps| - 1];
            NeverSubClamped(start, steps, k)
            <==> NeverSubClamped(start, front, k) && SubClamped(After(start, front), step, k) == 0
  {
    hide SubClamped, After;
    var front, last := steps[..|steps| - 1], |steps| - 1;
    assert forall n | 0 <= n < last :: front[..n] == steps[..n] && front[n] == steps[n];
    assert NeverSubClamped(start, steps, k) ==> SubClamped(After(start, steps[..last]), steps[last], k) == 0;
  }

  /** Over any run whatever, a sub-limit's balance, also of one opened during the run, equals its
      executed draws minus the principal paid on them exactly as long as no payment has exceeded
      what was drawn under it. */
  lemma {:induction false} SubDrawnIsDrawsLessPayments(start: Facility, steps: seq<Step>, k: nat)
    requires Linked(start) && SubGap(start, k) == 0
    ensures Linked(After(start, steps)) && SubGap(After(start, steps), k) >= 0
    ensures SubGap(After(start, steps), k) == 0 <==> NeverSubClamped(start, steps, k)
  {
    if steps == [] {
      assert NeverSubClamped(start, steps, k);
    } else {
      hide SubGap, Linked, Next, NeverSubClamped, Under, PaidUnder;
      var front := steps[..|steps| - 1];
      SubDrawnIsDrawsLessPayments(start, front, k);
      StepWidensTheSubGap(After(start, front), steps[|steps| - 1], k);
      NeverSubClampedStep(start, steps, k);
    }
  }
}
