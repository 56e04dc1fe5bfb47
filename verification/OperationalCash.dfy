/** Operational cash of an account: the last reported balance plus the postings after it.

    Dates are day ordinals; day 1 is the first day of the calendar and anchors an account that
    has never reported. */
module OperationalCash {
  import opened ReconciliationModel

  datatype Report = Report(date: int, closing: Option<int>, available: Option<int>)
  datatype Posting = Posting(date: int, direction: Direction, amount: int, posted: bool)
  datatype Position = Position(reportedOn: Option<int>, reported: int, inflows: int, outflows: int, operational: int)

  const FIRST_DAY := 1

  /** What a report says is available: the available balance, else the closing balance, else nothing. */
  function ReportedValue(r: Report): int {
    match r.available
    case Some(a) => a
    case None => if r.closing.Some? then r.closing.value else 0
  }

  /** The available balance, whatever the closing balance is; without one the closing balance; with
      neither, nothing. */
  predicate SaysAvailable(r: Report, amount: int) {
    || r.available == Some(amount)
    || (r.available == None && r.closing == Some(amount))
    || (r.available == None && r.closing == None && amount == 0)
  }

  function Flow(p: Posting, direction: Direction, after: int): int {
    if p.posted && p.date > after && p.direction == direction then p.amount else 0
  }

  function Sum(ps: seq<Posting>, direction: Direction, after: int): int {
    if ps == [] then 0 else Sum(ps[..|ps| - 1], direction, after) + Flow(ps[|ps| - 1], direction, after)
  }

  /** Net cash movement posted after a day.  Transfers and non-cash rows do not count. */
  function NetAfter(ps: seq<Posting>, after: int): int {
    Sum(ps, Inflow, after) - Sum(ps, Outflow, after)
  }

  /** `r` is a latest report not later than `asOf`.  Two sources may report the same day. */
  predicate Latest(reports: seq<Report>, asOf: int, r: Report) {
    r in reports && r.date <= asOf && forall q | q in reports && q.date <= asOf :: q.date <= r.date
  }

  predicate NeverReported(reports: seq<Report>, asOf: int) {
    forall r | r in reports :: r.date > asOf
  }

  /** The latest dated rows that the balance query returns, for this account. */
  method LatestBalances(reports: seq<Report>, asOf: int) returns (balances: seq<Report>)
    ensures forall r :: r in balances <==> Latest(reports, asOf, r)
  {
    var maxDate: Option<int> := None;
    for i := 0 to |reports|
      invariant maxDate.None? ==> forall r | r in reports[..i] :: r.date > asOf
      invariant maxDate.Some? ==> maxDate.value <= asOf && exists r :: r in reports[..i] && r.date == maxDate.value
      invariant maxDate.Some? ==> forall r | r in reports[..i] && r.date <= asOf :: r.date <= maxDate.value
    {
      assert reports[..i + 1] == reports[..i] + [reports[i]];
      if reports[i].date <= asOf && (maxDate.None? || reports[i].date > maxDate.value) {
        maxDate := Some(reports[i].date);
      }
    }
    assert reports[..|reports|] == reports;
    balances := [];
    if maxDate.None? {
      return;
    }
    for i := 0 to |reports|
      invariant forall r :: r in balances <==> r in reports[..i] && r.date == maxDate.value
    {
      assert reports[..i + 1] == reports[..i] + [reports[i]];
      if reports[i].date == maxDate.value {
        balances := balances + [reports[i]];
      }
    }
  }

  /** The figure that decides whether the account can fund something. */
  method CalculateOperationalAvailableCash(reports: seq<Report>, ps: seq<Posting>, asOf: int) returns (p: Position)
    ensures p.operational == p.reported + p.inflows - p.outflows
    ensures p.reportedOn.None? <==> NeverReported(reports, asOf)
    ensures p.reportedOn.None? ==> p.reported == 0 && p.operational == NetAfter(ps, 1)
    ensures p.reportedOn.Some? ==>
            exists r :: Latest(reports, asOf, r) && p.reportedOn == Some(r.date) && SaysAvailable(r, p.reported)
    ensures p.reportedOn.Some? ==> p.operational == p.reported + NetAfter(ps, p.reportedOn.value)
  {
    var balances := LatestBalances(reports, asOf);
    var anchor, reported := FIRST_DAY, 0;
    var reportedOn: Option<int> := None;
    if balances != [] {
      assert Latest(reports, asOf, balances[0]);
      anchor, reportedOn, reported := balances[0].date, Some(balances[0].date), ReportedValue(balances[0]);
    } else {
      NoLatestMeansNone(reports, asOf);
    }
    var inflows, outflows := 0, 0;
    for i := 0 to |ps|
      invariant inflows == Sum(ps[..i], Inflow, anchor) && outflows == Sum(ps[..i], Outflow, anchor)
    {
      assert ps[..i + 1][..i] == ps[..i];
      if ps[i].posted && ps[i].date > anchor {
        if ps[i].direction == Inflow {
          inflows := inflows + ps[i].amount;
        } else if ps[i].direction == Outflow {
          outflows := outflows + ps[i].amount;
        }
      }
    }
    assert ps[..|ps|] == ps;
    p := Position(reportedOn, reported, inflows, outflows, reported + inflows - outflows);
  }

  lemma {:induction false} LatestExists(reports: seq<Report>, asOf: int)
    requires !NeverReported(reports, asOf)
    ensures exists r :: Latest(reports, asOf, r)
  {
    var front, last := reports[..|reports| - 1], reports[|reports| - 1];
    assert reports == front + [last];
    if NeverReported(front, asOf) {
      assert Latest(reports, asOf, last);
    } else {
      LatestExists(front, asOf);
      var r :| Latest(front, asOf, r);
      assert Latest(reports, asOf, if last.date <= asOf && r.date < last.date then last else r);
    }
  }

  lemma NoLatestMeansNone(reports: seq<Report>, asOf: int)
    ensures NeverReported(reports, asOf) <==> forall r :: !Latest(reports, asOf, r)
  {
    if !NeverReported(reports, asOf) {
      LatestExists(reports, asOf);
    }
  }

  // ---------------------------------------------------------------- independence of the anchor

  /** The figure when `r` is the report the query returns. */
  function Figure(r: Report, ps: seq<Posting>): int {
    ReportedValue(r) + NetAfter(ps, r.date)
  }

  function NetBetween(ps: seq<Posting>, after: int, upTo: int): int {
    if ps == [] then 0
    else
      var p := ps[|ps| - 1];
      NetBetween(ps[..|ps| - 1], after, upTo)
      + if p.posted && after < p.date <= upTo
          then (if p.direction == Inflow then p.amount else if p.direction == Outflow then -p.amount else 0)
        else 0
  }

  /** A report says what an earlier one said, plus what was posted in between. */
  predicate Consistent(first: Report, r: Report, ps: seq<Posting>) {
    first.date <= r.date && ReportedValue(r) == ReportedValue(first) + NetBetween(ps, first.date, r.date)
  }

  lemma {:induction false} NetSplits(ps: seq<Posting>, after: int, upTo: int)
    requires after <= upTo
    ensures NetAfter(ps, after) == NetBetween(ps, after, upTo) + NetAfter(ps, upTo)
  {
    if ps != [] {
      NetSplits(ps[..|ps| - 1], after, upTo);
    }
  }

  /** Moving the anchor to a later report leaves the figure alone exactly when that report is
      consistent with the earlier one: no movement is dropped or counted twice. */
  lemma AnchorsAgreeExactlyWhenConsistent(first: Report, r: Report, ps: seq<Posting>)
    requires first.date <= r.date
    ensures Figure(r, ps) == Figure(first, ps) <==> Consistent(first, r, ps)
  {
    NetSplits(ps, first.date, r.date);
  }

  /** For any posting history and any reports consistent with a first one, whichever of the
      latest reports the query returns, at whatever day: the figure is the first reported
      balance plus everything posted since. */
  lemma FigureIsThePlainSum(first: Report, reports: seq<Report>, ps: seq<Posting>, asOf: int, r: Report)
    requires first in reports && forall q | q in reports :: Consistent(first, q, ps)
    requires Latest(reports, asOf, r)
    ensures Figure(r, ps) == ReportedValue(first) + NetAfter(ps, first.date)
  {
    AnchorsAgreeExactlyWhenConsistent(first, r, ps);
  }

  /** A later posting moves the figure by its own amount; one on or before the anchor is taken
      as already reported and does not. */
  lemma PostingMovesTheFigureOnce(r: Report, ps: seq<Posting>, p: Posting)
    ensures Figure(r, ps + [p]) - Figure(r, ps)
            == if !p.posted || p.date <= r.date then 0
               else if p.direction == Inflow then p.amount else if p.direction == Outflow then -p.amount else 0
    ensures SaysAvailable(r, Figure(r, []))
  {
    assert (ps + [p])[..|ps|] == ps;
  }

  /** Two sources reporting different balances for one day: the answer depends on which row
      the query returns first. */
  lemma SameDayReportsCanDisagree()
    ensures var a, b := Report(10, Some(100), None), Report(10, Some(250), None);
            Latest([a, b], 20, a) && Latest([a, b], 20, b) && Figure(a, []) != Figure(b, [])
  {
    var a, b := Report(10, Some(100), None), Report(10, Some(250), None);
    assert a in [a, b] && b in [a, b];
  }
}
