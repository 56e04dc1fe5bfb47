/** The facility service as it runs: validation collects reasons, execution and payment change
    the locked rows in place, and each does what `FacilityLedger` says. */
module FacilityService {
  import opened ReconciliationModel
  import opened Money
  import opened FacilityLedger

  class Service {
    var terms: Terms
    var status: FacilityStatus
    var limit: int
    var drawn: int
    var subs: seq<SubLimit>
    var drawdowns: seq<Drawdown>
    var repayments: seq<Repayment>

    function Rows(): Facility
      reads this
    {
      Facility(terms, status, limit, drawn, subs, drawdowns, repayments)
    }

    constructor (terms: Terms, limit: int)
      ensures Rows() == Facility(terms, Draft, limit, 0, [], [], [])
    {
      this.terms, status, this.limit, drawn := terms, Draft, limit, 0;
      subs, drawdowns, repayments := [], [], [];
    }

    /** Every reason against the drawdown, and none exactly when it is valid. */
    method ValidateDrawdown(amount: int, currency: Id, date: int, sub: Option<nat>) returns (reasons: seq<string>)
      requires sub.Some? ==> sub.value < |subs|
      ensures reasons == [] <==> ValidDrawdown(Rows(), amount, currency, date, sub)
    {
      reasons := [];
      if status != Active {
        reasons := reasons + ["not active"];
      }
      if currency != terms.currency {
        reasons := reasons + ["currency"];
      }
      if terms.from.Some? && date < terms.from.value {
        reasons := reasons + ["before availability"];
      }
      if terms.until.Some? && date > terms.until.value {
        reasons := reasons + ["after availability"];
      }
      if date > terms.maturity {
        reasons := reasons + ["after maturity"];
      }
      var undrawn := limit - drawn;
      if terms.uncommitted {
        if amount > undrawn {
          reasons := reasons + ["undrawn capacity"];
        }
      } else if amount > Max(0, undrawn - terms.restricted) {
        reasons := reasons + ["available capacity"];
      }
      if sub.Some? {
        var remaining := subs[sub.value].limit - subs[sub.value].drawn;
        if amount > remaining {
          reasons := reasons + ["sub-limit"];
        }
      }
    }

    method ChangeStatus(to: FacilityStatus) returns (done: bool)
      modifies this
      ensures done == Allowed(old(Rows()), Move(to))
      ensures Rows() == Next(old(Rows()), Move(to))
    {
      if to !in Successors(status) && to != status {
        return false;
      }
      status := to;
      done := true;
    }

    /** Only what is given is set, and neither value is checked against what is drawn. */
    method UpdateFacility(newLimit: Option<int>, newMaturity: Option<int>)
      modifies this
      ensures Rows() == Next(old(Rows()), Amend(newLimit, newMaturity))
    {
      if newLimit.Some? {
        limit := newLimit.value;
      }
      if newMaturity.Some? {
        terms := terms.(maturity := newMaturity.value);
      }
    }

    method CreateSubLimit(subLimit: int) returns (done: bool)
      modifies this
      ensures done == Allowed(old(Rows()), AddSubLimit(subLimit))
      ensures Rows() == Next(old(Rows()), AddSubLimit(subLimit))
    {
      if subLimit > limit {
        return false;
      }
      subs := subs + [SubLimit(subLimit, 0)];
      done := true;
    }

    method CreateDrawdown(amount: int, currency: Id, date: int, sub: Option<nat>) returns (done: bool)
      modifies this
      ensures done == Allowed(old(Rows()), Request(amount, currency, date, sub))
      ensures Rows() == Next(old(Rows()), Request(amount, currency, date, sub))
    {
      if sub.Some? && sub.value >= |subs| {
        return false;
      }
      var reasons := ValidateDrawdown(amount, currency, date, sub);
      if reasons != [] {
        return false;
      }
      drawdowns := drawdowns + [Drawdown(amount, currency, date, sub, Submitted)];
      done := true;
    }

    method ApproveDrawdown(d: nat) returns (done: bool)
      modifies this
      ensures done == Allowed(old(Rows()), Approve(d))
      ensures Rows() == Next(old(Rows()), Approve(d))
    {
      if d >= |drawdowns| || drawdowns[d].status != Submitted {
        return false;
      }
      drawdowns := drawdowns[d := drawdowns[d].(status := Approved)];
      done := true;
    }

    /** Validated again against the locked rows before anything changes. */
    method ExecuteDrawdown(d: nat) returns (done: bool)
      modifies this
      ensures done == Allowed(old(Rows()), Execute(d))
      ensures Rows() == Next(old(Rows()), Execute(d))
    {
      if d >= |drawdowns| || drawdowns[d].status != Approved {
        return false;
      }
      var dd := drawdowns[d];
      if dd.sub.Some? && dd.sub.value >= |subs| {
        return false;
      }
      var reasons := ValidateDrawdown(dd.amount, dd.currency, dd.date, dd.sub);
      if reasons != [] {
        return false;
      }
      drawdowns := drawdowns[d := dd.(status := Executed)];
      drawn := drawn + dd.amount;
      if dd.sub.Some? {
        var k := dd.sub.value;
        subs := subs[k := subs[k].(drawn := subs[k].drawn + dd.amount)];
      }
      done := true;
    }

    /** The foreign key is the only check on a new repayment. */
    method CreateRepayment(kind: RepaymentKind, original: int, drawdown: Option<nat>) returns (done: bool)
      modifies this
      ensures done == Allowed(old(Rows()), AddRepayment(kind, original, drawdown))
      ensures Rows() == Next(old(Rows()), AddRepayment(kind, original, drawdown))
    {
      if drawdown.Some? && drawdown.value >= |drawdowns| {
        return false;
      }
      repayments := repayments + [Repayment(kind, original, 0, drawdown, Scheduled)];
      done := true;
    }

    method RecordRepaymentPayment(r: nat, amount: int) returns (done: bool)
      modifies this
      ensures done == Allowed(old(Rows()), Pay(r, amount))
      ensures Rows() == Next(old(Rows()), Pay(r, amount))
    {
      if r >= |repayments| || repayments[r].status == Paid || repayments[r].status == Cancelled {
        return false;
      }
      var p := repayments[r];
      var remaining := p.original - p.paid;
      if amount > remaining {
        return false;
      }
      p := p.(paid := p.paid + amount);
      p := p.(status := if p.paid >= p.original then Paid else PartiallyPaid);
      repayments := repayments[r := p];
      if p.kind == PrincipalRepayment {
        drawn := Max(0, drawn - amount);
        if p.drawdown.Some? && p.drawdown.value < |drawdowns| {
          var dd := drawdowns[p.drawdown.value];
          if dd.sub.Some? && dd.sub.value < |subs| {
            var k := dd.sub.value;
            subs := subs[k := subs[k].(drawn := Max(0, subs[k].drawn - amount))];
          }
        }
      }
      done := true;
    }
  }
}
