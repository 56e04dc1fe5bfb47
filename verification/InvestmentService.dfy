/** The investment service as it runs: each operation changes the stored rows in place, and
    does to them what `InvestmentBook` says. */
module InvestmentService {
  import opened Calendar
  import opened Interest
  import opened Money
  import opened ReconciliationModel
  import opened InvestmentBook
  import ET = EarlyTermination

  class Service {
    var investments: seq<Investment>
    var txns: seq<Txn>
    var cash: seq<Cash>
    var rebookings: seq<RebookEvent>

    function Rows(): Book
      reads this
    {
      Book(investments, txns, cash, rebookings)
    }

    constructor ()
      ensures Rows() == EMPTY
    {
      investments, txns, cash, rebookings := [], [], [], [];
    }

    method CreateCashTransaction(i: nat, direction: Direction, amount: int, principal: int)
      modifies this`cash
      ensures cash == old(cash) + [Cash(i, direction, amount, principal)]
    {
      cash := cash + [Cash(i, direction, amount, principal)];
    }

    method CreateInvestment(terms: Terms, principal: int, ratePct: real, maturity: Day) returns (done: bool)
      modifies this
      ensures done == Allowed(old(Rows()), Create(terms, principal, ratePct, maturity))
      ensures Rows() == Next(old(Rows()), Create(terms, principal, ratePct, maturity))
    {
      if principal <= 0 || Earlier(maturity, terms.start) {
        return false;
      }
      var inv := Investment(terms, Draft, principal, principal, ratePct, maturity, 0, 0, None, None);
      investments := investments + [inv.(expected := Expected(inv))];
      done := true;
    }

    method UpdateDraft(i: nat, newRate: Option<real>, newMaturity: Option<Day>) returns (done: bool)
      modifies this
      ensures done == Allowed(old(Rows()), Edit(i, newRate, newMaturity))
      ensures Rows() == Next(old(Rows()), Edit(i, newRate, newMaturity))
    {
      if i >= |investments| || investments[i].status != Draft || (newRate.None? && newMaturity.None?) {
        return false;
      }
      ApplyUpdate(i, newRate, newMaturity, 0);
      done := true;
    }

    /** Sets the given terms and brings the projection up to date. */
    method ApplyUpdate(i: nat, newRate: Option<real>, newMaturity: Option<Day>, additional: int)
      requires i < |investments|
      modifies this`investments
      ensures investments == old(investments)[i := Renegotiated(old(investments)[i], newRate, newMaturity, additional)]
    {
      var inv := investments[i];
      if newRate.Some? {
        inv := inv.(ratePct := newRate.value);
      }
      if newMaturity.Some? {
        inv := inv.(maturity := newMaturity.value);
      }
      if additional != 0 {
        inv := inv.(principal := inv.principal + additional, original := inv.original + additional);
      }
      investments := investments[i := inv.(expected := Expected(inv))];
    }

    method TransitionStatus(i: nat, to: Status) returns (done: bool)
      modifies this
      ensures done == Allowed(old(Rows()), ChangeStatus(i, to))
      ensures Rows() == Next(old(Rows()), ChangeStatus(i, to))
    {
      if i >= |investments| || (to !in Transitions(investments[i].status) && to != investments[i].status) {
        return false;
      }
      investments := investments[i := investments[i].(status := to)];
      done := true;
    }

    /** The reasons against a placement are collected; any of them refuses it. */
    method PlaceInvestment(i: nat, date: Day, sourceAllowed: bool, available: Option<int>) returns (done: bool)
      modifies this
      ensures done == Allowed(old(Rows()), Place(i, date, sourceAllowed, available))
      ensures Rows() == Next(old(Rows()), Place(i, date, sourceAllowed, available))
    {
      if i >= |investments| {
        return false;
      }
      var inv := investments[i];
      var reasons := 0;
      if inv.status != Approved && inv.status != PlacementPending { reasons := reasons + 1; }
      if inv.principal <= 0 { reasons := reasons + 1; }
      if Earlier(inv.maturity, inv.terms.start) { reasons := reasons + 1; }
      if !sourceAllowed { reasons := reasons + 1; }
      if Earlier(inv.maturity, date) { reasons := reasons + 1; }
      if available.Some? && inv.principal > available.value { reasons := reasons + 1; }
      if reasons > 0 || HasTxn(txns, i, Placement) {
        return false;
      }
      CreateCashTransaction(i, Outflow, inv.principal, inv.principal);
      txns := txns + [Txn(i, Placement, inv.principal)];
      investments := investments[i := inv.(status := Active)];
      done := true;
    }

    method TerminateInvestment(i: nat, amount: int, date: Day) returns (done: bool)
      modifies this
      ensures done == Allowed(old(Rows()), Terminate(i, amount, date))
      ensures Rows() == Next(old(Rows()), Terminate(i, amount, date))
    {
      hide SimpleInterest, ET.Terminated;
      if i >= |investments| || !Running(investments[i]) || !investments[i].terms.early {
        return false;
      }
      var inv := investments[i];
      if amount <= 0 || amount > inv.principal || (!inv.terms.partial && amount < inv.principal) {
        return false;
      }
      var isFull := amount >= inv.principal;
      var result := ET.CalculateEarlyTermination(ContractOf(inv), amount, date);
      PrincipalIsTheAmount(ContractOf(inv), amount, date);
      CreateCashTransaction(i, Inflow, result.net, result.principal);
      txns := txns + [Txn(i, if isFull then FullTermination else PartialTermination, result.net)];
      if result.penalty > 0 {
        txns := txns + [Txn(i, PenaltyCharge, result.penalty)];
      }
      inv := inv.(principal := Max(0, inv.principal - amount));
      inv := inv.(status := if inv.principal == 0 then Terminated else PartiallyTerminated);
      investments := investments[i := inv.(expected := Expected(inv))];
      done := true;
    }

    method SettleMaturity(i: nat, date: Day, actual: Option<int>) returns (done: bool)
      modifies this
      ensures done == Allowed(old(Rows()), Settle(i, date, actual))
      ensures Rows() == Next(old(Rows()), Settle(i, date, actual))
    {
      if i >= |investments| || !Running(investments[i]) || Earlier(date, investments[i].maturity) {
        return false;
      }
      if HasTxn(txns, i, MaturitySettlement) {
        return false;
      }
      var inv := investments[i];
      var interest := if actual.Some? then actual.value else inv.expected;
      var proceeds := inv.principal + interest;
      CreateCashTransaction(i, Inflow, proceeds, inv.principal);
      txns := txns + [Txn(i, MaturitySettlement, proceeds)];
      investments := investments[i := inv.(received := inv.received + interest, principal := 0, status := Matured)];
      done := true;
    }

    /** The service reduces the original and adds its successor; the endpoint then projects
        the successor's interest. */
    method RolloverInvestment(i: nat, amount: int, ratePct: real, start: Day, maturity: Day) returns (done: bool)
      modifies this
      ensures done == Allowed(old(Rows()), Roll(i, amount, ratePct, start, maturity))
      ensures Rows() == Next(old(Rows()), Roll(i, amount, ratePct, start, maturity))
    {
      hide SimpleInterest, DaysInMonth;
      if i >= |investments| || (!Running(investments[i]) && investments[i].status != Matured) {
        return false;
      }
      if !investments[i].terms.rollover {
        return false;
      }
      var inv := investments[i];
      if amount <= 0 || amount > inv.principal {
        return false;
      }
      var isFull := amount >= inv.principal;
      var next := |investments|;
      CreateCashTransaction(i, NonCash, amount, amount);
      var successor := Investment(
        inv.terms.(start := start), Active, amount, amount, ratePct, maturity, 0, 0, Some(i), None);
      investments := investments + [successor];
      txns := txns + [Txn(next, Placement, amount)];
      inv := inv.(rolledTo := Some(next), principal := Max(0, inv.principal - amount),
                  status := if isFull then RolledOver else PartiallyTerminated);
      investments := investments[i := inv.(expected := Expected(inv))];
      txns := txns + [Txn(i, Rollover, amount)];
      investments := investments[next := successor.(expected := Expected(successor))];
      done := true;
    }

    /** A retry is recognised before anything changes. */
    method RebookInvestment(
      i: nat, newRate: Option<real>, newMaturity: Option<Day>, additional: int, key: Option<string>,
      available: Option<int>)
      returns (done: bool)
      modifies this
      ensures done == Allowed(old(Rows()), Rebook(i, newRate, newMaturity, additional, key, available))
      ensures Rows() == Next(old(Rows()), Rebook(i, newRate, newMaturity, additional, key, available))
    {
      if i >= |investments| || !Running(investments[i]) {
        return false;
      }
      if additional > 0 && available.Some? && additional > available.value {
        return false;
      }
      if key.Some? && RebookEvent(i, key) in rebookings {
        return false;
      }
      ApplyUpdate(i, newRate, newMaturity, additional);
      if additional != 0 {
        CreateCashTransaction(i, Outflow, additional, additional);
        txns := txns + [Txn(i, Rebooking, additional)];
      }
      rebookings := rebookings + [RebookEvent(i, key)];
      done := true;
    }
  }

  lemma PrincipalIsTheAmount(c: ET.Contract, amount: int, date: Day)
    requires Valid(c.start)
    ensures ET.Terminated(c, amount, date).principal == amount
  {
  }
}
