/** Drawdowns and payments in figures: exactly when one is accepted, and what it leaves. */
module FacilityFigures {
  import opened ReconciliationModel
  import opened FacilityLedger

  /** What is drawn, the amount and, on a committed facility, what is restricted fit into the limit. */
  predicate FitsTheLimit(f: Facility, amount: int) {
    if f.terms.uncommitted then f.drawn + amount <= f.limit
    else amount <= 0 || f.drawn + f.terms.restricted + amount <= f.limit
  }

  predicate FitsTheSubLimit(f: Facility, amount: int, sub: Option<nat>) {
    sub.Some? ==> sub.value < |f.subs| && f.subs[sub.value].drawn + amount <= f.subs[sub.value].limit
  }

  /** Active, in its currency, on a day of availability, within limit and sub-limit. */
  predicate MayDraw(f: Facility, amount: int, currency: Id, date: int, sub: Option<nat>) {
    && f.status == Active && currency == f.terms.currency
    && f.terms.from.UnwrapOr(date) <= date <= f.terms.until.UnwrapOr(date) && date <= f.terms.maturity
    && FitsTheLimit(f, amount) && FitsTheSubLimit(f, amount, sub)
  }

  /** A drawdown is accepted when requested, and again when executed, exactly when it may be drawn; a
      sub-limit exactly up to the limit of the facility. */
  lemma DrawdownsAreAcceptedExactlyWhen(f: Facility, step: Step)
    ensures step.AddSubLimit? ==> (Allowed(f, step) <==> step.limit <= f.limit)
    ensures step.Request? ==> (Allowed(f, step) <==> MayDraw(f, step.amount, step.currency, step.date, step.sub))
    ensures step.Execute? ==>
              (Allowed(f, step) <==>
                 && step.d < |f.drawdowns| && f.drawdowns[step.d].status == Approved
                 && var dd := f.drawdowns[step.d]; MayDraw(f, dd.amount, dd.currency, dd.date, dd.sub))
  {
  }

  /** An executed drawdown: facility and sub-limit gain the amount, and a positive one leaves both
      inside their limits, restricted amount included. */
  lemma ExecutionLeaves(f: Facility, step: Step)
    requires step.Execute? && Allowed(f, step)
    ensures var dd, after := f.drawdowns[step.d], Next(f, step);
            && after.drawn == f.drawn + dd.amount
            && (dd.amount > 0 ==>
                  after.drawn + (if f.terms.uncommitted then 0 else f.terms.restricted) <= after.limit == f.limit)
            && after.drawdowns == f.drawdowns[step.d := dd.(status := Executed)]
            && |after.subs| == |f.subs|
            && forall k | 0 <= k < |f.subs| ::
                 && after.subs[k].limit == f.subs[k].limit
                 && after.subs[k].drawn == f.subs[k].drawn + (if dd.sub == Some(k) then dd.amount else 0)
                 && (dd.sub == Some(k) ==> after.subs[k].drawn <= after.subs[k].limit)
  {
  }

  /** A payment is accepted exactly up to what is open on a repayment that is not closed. */
  lemma PaymentsAreAcceptedExactlyWhen(f: Facility, r: nat, amount: int)
    ensures Allowed(f, Pay(r, amount)) <==>
            && r < |f.repayments| && f.repayments[r].status in {Scheduled, PartiallyPaid}
            && f.repayments[r].paid + amount <= f.repayments[r].original
  {
  }

  /** A payment of principal takes its amount off the facility and off the sub-limit its drawdown was
      made against, neither below zero; any other payment frees nothing. */
  lemma PaymentLeaves(f: Facility, r: nat, amount: int)
    requires Allowed(f, Pay(r, amount))
    ensures var before, after := f.repayments[r], Next(f, Pay(r, amount));
            && after.repayments[r].paid == before.paid + amount
            && (after.repayments[r].status == Paid <==> before.paid + amount == before.original)
            && after.repayments == f.repayments[r := after.repayments[r]]
            && after.drawn == (if before.kind != PrincipalRepayment then f.drawn
                               else if amount >= f.drawn then 0 else f.drawn - amount)
            && |after.subs| == |f.subs|
            && forall k | 0 <= k < |f.subs| ::
                 && after.subs[k].limit == f.subs[k].limit
                 && after.subs[k].drawn
                    == (if before.kind != PrincipalRepayment || !MadeAgainst(f, before, k) then f.subs[k].drawn
                        else if amount >= f.subs[k].drawn then 0 else f.subs[k].drawn - amount)
  {
  }

  /** The repayment is tied to a drawdown under this sub-limit. */
  predicate MadeAgainst(f: Facility, p: Repayment, k: int) {
    p.drawdown.Some? && p.drawdown.value < |f.drawdowns| && f.drawdowns[p.drawdown.value].sub.Some?
    && f.drawdowns[p.drawdown.value].sub.value == k
  }

  // ---------------------------------------------------------------- the life of a facility

  /** Closed and withdrawn facilities stay so over any run, and nothing is drawn on them any more. */
  lemma {:induction false} ClosedIsFinal(f: Facility, steps: seq<Step>)
    requires f.status in {Closed, Withdrawn}
    ensures var after := After(f, steps);
            && after.status == f.status && |f.drawdowns| == |after.drawdowns|
            && forall d | 0 <= d < |f.drawdowns| :: after.drawdowns[d].status == Executed
                <==> f.drawdowns[d].status == Executed
  {
    hide Capacity;
    if steps != [] {
      ClosedIsFinal(f, steps[..|steps| - 1]);
    }
  }

  /** A request moves a facility exactly along these edges. */
  lemma StatusesFollow(f: Facility, to: FacilityStatus)
    ensures Allowed(f, Move(to)) <==>
            to == f.status
            || (to == Active && f.status in {Draft, Suspended, Renewed})
            || (to == Suspended && f.status == Active)
            || (to == RenewalPending && f.status in {Active, Matured})
            || (to == Renewed && f.status == RenewalPending)
            || (to == Matured && f.status == Active)
            || (to == Expired && f.status in {Active, RenewalPending})
            || (to == Closed && f.status in {Active, Suspended, RenewalPending, Matured, Expired})
            || (to == Withdrawn && f.status in {Draft, Suspended})
  {
  }
}
