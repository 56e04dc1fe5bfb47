/** Credit facilities: drawing, sub-limits and repayments against the committed limit. */
module FacilityLedger {
  import opened ReconciliationModel
  import opened Money

  datatype FacilityStatus =
    Draft | Active | Suspended | RenewalPending | Renewed | Matured | Expired | Closed | Withdrawn
  datatype DrawdownStatus = Submitted | Approved | Executed
  datatype RepaymentStatus = Scheduled | PartiallyPaid | Paid | Cancelled
  datatype RepaymentKind = PrincipalRepayment | InterestRepayment | FeeRepayment

  datatype SubLimit = SubLimit(limit: int, drawn: int)
  datatype Drawdown = Drawdown(amount: int, currency: Id, date: int, sub: Option<nat>, status: DrawdownStatus)
  datatype Repayment = Repayment(
    kind: RepaymentKind, original: int, paid: int, drawdown: Option<nat>, status: RepaymentStatus)

  /** What a facility is agreed to be.  Of these only the maturity can be amended. */
  datatype Terms = Terms(
    uncommitted: bool, restricted: int, currency: Id, from: Option<int>, until: Option<int>, maturity: int)

  datatype Facility = Facility(
    terms: Terms, status: FacilityStatus, limit: int, drawn: int,
    subs: seq<SubLimit>, drawdowns: seq<Drawdown>, repayments: seq<Repayment>)

  datatype Step =
    | Move(to: FacilityStatus)
    | Amend(newLimit: Option<int>, newMaturity: Option<int>)
    | AddSubLimit(limit: int)
    | Request(amount: int, currency: Id, date: int, sub: Option<nat>)
    | Approve(d: nat)
    | Execute(d: nat)
    | AddRepayment(kind: RepaymentKind, original: int, drawdown: Option<nat>)
    | Pay(r: nat, amount: int)

  // ---------------------------------------------------------------- validation

  function Undrawn(f: Facility): int {
    f.limit - f.drawn
  }

  /** Uncommitted capacity is not guaranteed, but it can be drawn up to the limit. */
  function Capacity(f: Facility): int {
    if f.terms.uncommitted then Undrawn(f) else Max(0, Undrawn(f) - f.terms.restricted)
  }

  predicate ValidDrawdown(f: Facility, amount: int, currency: Id, date: int, sub: Option<nat>) {
    && f.status == Active
    && currency == f.terms.currency
    && (f.terms.from.Some? ==> f.terms.from.value <= date)
    && (f.terms.until.Some? ==> date <= f.terms.until.value)
    && date <= f.terms.maturity
    && amount <= Capacity(f)
    && (sub.Some? ==> sub.value < |f.subs| && amount <= f.subs[sub.value].limit - f.subs[sub.value].drawn)
  }

  /** The statuses a facility may move to; staying where it is is allowed as well. */
  function Successors(status: FacilityStatus): set<FacilityStatus> {
    match status
    case Draft => {Active, Withdrawn}
    case Active => {Suspended, Expired, Matured, RenewalPending, Closed}
    case Suspended => {Active, Closed, Withdrawn}
    case RenewalPending => {Renewed, Expired, Closed}
    case Renewed => {Active}
    case Matured => {Closed, RenewalPending}
    case Expired => {Closed}
    case Closed => {}
    case Withdrawn => {}
  }

  predicate Allowed(f: Facility, step: Step) {
    match step
    case Move(to) => to == f.status || to in Successors(f.status)
    case Amend(_, _) => true
    case AddSubLimit(limit) => limit <= f.limit
    case Request(amount, currency, date, sub) => ValidDrawdown(f, amount, currency, date, sub)
    case Approve(d) => d < |f.drawdowns| && f.drawdowns[d].status == Submitted
    case Execute(d) =>
      && d < |f.drawdowns| && f.drawdowns[d].status == Approved
      && ValidDrawdown(f, f.drawdowns[d].amount, f.drawdowns[d].currency, f.drawdowns[d].date, f.drawdowns[d].sub)
    case AddRepayment(_, _, drawdown) => drawdown.Some? ==> drawdown.value < |f.drawdowns|
    case Pay(r, amount) =>
      && r < |f.repayments| && f.repayments[r].status != Paid && f.repayments[r].status != Cancelled
      && amount <= f.repayments[r].original - f.repayments[r].paid
  }

  // ---------------------------------------------------------------- effects

  /** The sub-limit a repayment frees: that of the drawdown it is tied to. */
  function FreedSub(f: Facility, r: nat): Option<nat>
    requires r < |f.repayments|
  {
    var d := f.repayments[r].drawdown;
    if d.None? || d.value >= |f.drawdowns| then None
    else
      var sub := f.drawdowns[d.value].sub;
      if sub.Some? && sub.value < |f.subs| then sub else None
  }

  function WithSub(subs: seq<SubLimit>, k: Option<nat>, drawn: int): seq<SubLimit> {
    if k.Some? && k.value < |subs| then subs[k.value := subs[k.value].(drawn := drawn)] else subs
  }

  function SubDrawn(subs: seq<SubLimit>, k: Option<nat>): int {
    if k.Some? && k.value < |subs| then subs[k.value].drawn else 0
  }

  function PaidOff(p: Repayment, amount: int): Repayment {
    p.(paid := p.paid + amount, status := if p.paid + amount >= p.original then Paid else PartiallyPaid)
  }

  function Apply(f: Facility, step: Step): Facility
    requires Allowed(f, step)
  {
    match step
    case Move(to) => f.(status := to)
    case Amend(limit, maturity) =>
      f.(limit := limit.UnwrapOr(f.limit), terms := f.terms.(maturity := maturity.UnwrapOr(f.terms.maturity)))
    case AddSubLimit(limit) => f.(subs := f.subs + [SubLimit(limit, 0)])
    case Request(amount, currency, date, sub) =>
      f.(drawdowns := f.drawdowns + [Drawdown(amount, currency, date, sub, Submitted)])
    case Approve(d) => f.(drawdowns := f.drawdowns[d := f.drawdowns[d].(status := Approved)])
    case Execute(d) =>
      var dd := f.drawdowns[d];
      f.(drawdowns := f.drawdowns[d := dd.(status := Executed)], drawn := f.drawn + dd.amount,
         subs := WithSub(f.subs, dd.sub, SubDrawn(f.subs, dd.sub) + dd.amount))
    case AddRepayment(kind, original, drawdown) =>
      f.(repayments := f.repayments + [Repayment(kind, original, 0, drawdown, Scheduled)])
    case Pay(r, amount) =>
      var paid := f.(repayments := f.repayments[r := PaidOff(f.repayments[r], amount)]);
      if f.repayments[r].kind != PrincipalRepayment then paid
      else paid.(drawn := Max(0, f.drawn - amount),
                 subs := WithSub(f.subs, FreedSub(f, r), Max(0, SubDrawn(f.subs, FreedSub(f, r)) - amount)))
  }

  function Next(f: Facility, step: Step): Facility {
    if Allowed(f, step) then Apply(f, step) else f
  }

  /** A step that is refused changes nothing. */
  function After(f: Facility, steps: seq<Step>): Facility {
    if steps == [] then f else Next(After(f, steps[..|steps| - 1]), steps[|steps| - 1])
  }
}
