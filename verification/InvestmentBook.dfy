/** The investment lifecycle against the single cash ledger: what each operation demands and
    what it does to the investments, their transactions, the ledger and the rebooking record. */
module InvestmentBook {
  import opened Calendar
  import opened Interest
  import opened Money
  import opened ReconciliationModel
  import ET = EarlyTermination

  datatype Status =
    | Draft | Submitted | UnderReview | Approved | PlacementPending | Active | Matured
    | PartiallyTerminated | Terminated | RolledOver | Rebooked | Cancelled | Rejected

  datatype Terms = Terms(
    start: Day, convention: Convention, penalty: ET.Penalty, early: bool, partial: bool, rollover: bool)

  /** Investments are numbered in the order they are created. */
  datatype Investment = Investment(
    terms: Terms, status: Status, principal: int, original: int, ratePct: real, maturity: Day,
    expected: int, received: int, previous: Option<nat>, rolledTo: Option<nat>)

  datatype TxnKind =
    | Placement | PartialTermination | FullTermination | PenaltyCharge | MaturitySettlement | Rollover | Rebooking
  datatype Txn = Txn(investment: nat, kind: TxnKind, amount: int)

  /** A ledger row; `principal` is the part of the amount its narration calls principal. */
  datatype Cash = Cash(investment: nat, direction: Direction, amount: int, principal: int)

  /** The event every rebooking leaves, with its idempotency key. */
  datatype RebookEvent = RebookEvent(investment: nat, key: Option<string>)

  datatype Book = Book(investments: seq<Investment>, txns: seq<Txn>, cash: seq<Cash>, rebookings: seq<RebookEvent>)

  datatype Step =
    | Create(terms: Terms, principal: int, ratePct: real, maturity: Day)
    | Edit(i: nat, newRate: Option<real>, newMaturity: Option<Day>)
    | ChangeStatus(i: nat, to: Status)
    | Place(i: nat, date: Day, sourceAllowed: bool, available: Option<int>)
    | Terminate(i: nat, amount: int, date: Day)
    | Settle(i: nat, date: Day, actual: Option<int>)
    | Roll(i: nat, amount: int, ratePct: real, start: Day, maturity: Day)
    | Rebook(
        i: nat, newRate: Option<real>, newMaturity: Option<Day>, additional: int, key: Option<string>,
        available: Option<int>)

  // ---------------------------------------------------------------- guards

  function Transitions(s: Status): set<Status> {
    match s
    case Draft => {Submitted, Cancelled}
    case Submitted => {UnderReview, Rejected, Cancelled}
    case UnderReview => {Approved, Rejected, Cancelled}
    case Approved => {PlacementPending, Cancelled}
    case PlacementPending => {Active, Cancelled}
    case Active => {Matured, PartiallyTerminated, Terminated, RolledOver, Rebooked}
    case PartiallyTerminated => {Matured, Terminated, RolledOver, Rebooked}
    case Matured => {Terminated, RolledOver}
    case _ => {}
  }

  predicate HasTxn(txns: seq<Txn>, i: nat, kind: TxnKind) {
    exists t | t in txns :: t.investment == i && t.kind == kind
  }

  predicate Running(inv: Investment) {
    inv.status == Active || inv.status == PartiallyTerminated
  }

  predicate Affordable(amount: int, available: Option<int>) {
    available.Some? ==> amount <= available.value
  }

  predicate PlacementValid(inv: Investment, date: Day, sourceAllowed: bool, available: Option<int>) {
    && (inv.status == Approved || inv.status == PlacementPending)
    && inv.principal > 0
    && !Earlier(inv.maturity, inv.terms.start)
    && sourceAllowed
    && !Earlier(inv.maturity, date)
    && Affordable(inv.principal, available)
  }

  predicate TerminationValid(outstanding: int, amount: int, allowPartial: bool) {
    0 < amount <= outstanding && (allowPartial || amount == outstanding)
  }

  /** What the endpoint and the service demand before they change anything. */
  predicate Allowed(b: Book, step: Step) {
    match step
    case Create(terms, principal, _, maturity) => principal > 0 && !Earlier(maturity, terms.start)
    case Edit(i, newRate, newMaturity) =>
      i < |b.investments| && b.investments[i].status == Draft && (newRate.Some? || newMaturity.Some?)
    case ChangeStatus(i, to) =>
      i < |b.investments| && (to in Transitions(b.investments[i].status) || to == b.investments[i].status)
    case Place(i, date, sourceAllowed, available) =>
      && i < |b.investments|
      && PlacementValid(b.investments[i], date, sourceAllowed, available)
      && !HasTxn(b.txns, i, Placement)
    case Terminate(i, amount, _) =>
      && i < |b.investments|
      && Running(b.investments[i]) && b.investments[i].terms.early
      && TerminationValid(b.investments[i].principal, amount, b.investments[i].terms.partial)
    case Settle(i, date, _) =>
      && i < |b.investments|
      && Running(b.investments[i]) && !Earlier(date, b.investments[i].maturity)
      && !HasTxn(b.txns, i, MaturitySettlement)
    case Roll(i, amount, _, _, _) =>
      && i < |b.investments|
      && (Running(b.investments[i]) || b.investments[i].status == Matured)
      && b.investments[i].terms.rollover
      && 0 < amount <= b.investments[i].principal
    case Rebook(i, _, _, additional, key, available) =>
      && i < |b.investments|
      && Running(b.investments[i])
      && (additional > 0 ==> Affordable(additional, available))
      && !AlreadyRebooked(b.rebookings, i, key)
  }

  /** A retry: this investment already has a rebooking with this key. */
  predicate AlreadyRebooked(rebookings: seq<RebookEvent>, i: nat, key: Option<string>) {
    key.Some? && RebookEvent(i, key) in rebookings
  }

  // ---------------------------------------------------------------- effects

  /** Current projection under current terms. */
  function Expected(inv: Investment): int {
    SimpleInterest(inv.principal, inv.ratePct, inv.terms.start, inv.maturity, inv.terms.convention)
  }

  function Fresh(inv: Investment): Investment {
    inv.(expected := Expected(inv))
  }

  function ContractOf(inv: Investment): ET.Contract {
    ET.Contract(inv.ratePct, inv.terms.start, inv.terms.convention, inv.terms.penalty, inv.original)
  }

  function Reduced(inv: Investment, amount: int, emptied: Status): Investment {
    var left := Max(0, inv.principal - amount);
    Fresh(inv.(principal := left, status := if left == 0 then emptied else PartiallyTerminated))
  }

  function Renegotiated(inv: Investment, newRate: Option<real>, newMaturity: Option<Day>, additional: int): Investment {
    Fresh(inv.(ratePct := if newRate.Some? then newRate.value else inv.ratePct,
               maturity := if newMaturity.Some? then newMaturity.value else inv.maturity,
               principal := inv.principal + additional, original := inv.original + additional))
  }

  /** The investment that carries on the rolled amount, with its own projection. */
  function Successor(inv: Investment, i: nat, step: Step): Investment
    requires step.Roll?
  {
    Fresh(Investment(inv.terms.(start := step.start), Active, step.amount, step.amount, step.ratePct, step.maturity,
                     0, 0, Some(i), None))
  }

  function With(b: Book, i: nat, inv: Investment, txns: seq<Txn>, cash: seq<Cash>): Book
    requires i < |b.investments|
  {
    Book(b.investments[i := inv], b.txns + txns, b.cash + cash, b.rebookings)
  }

  function Apply(b: Book, step: Step): Book
    requires Allowed(b, step)
  {
    match step
    case Create(terms, principal, ratePct, maturity) =>
      var inv := Fresh(Investment(terms, Draft, principal, principal, ratePct, maturity, 0, 0, None, None));
      b.(investments := b.investments + [inv])
    case Edit(i, newRate, newMaturity) =>
      b.(investments := b.investments[i := Renegotiated(b.investments[i], newRate, newMaturity, 0)])
    case ChangeStatus(i, to) => b.(investments := b.investments[i := b.investments[i].(status := to)])
    case Place(i, _, _, _) =>
      var inv := b.investments[i];
      With(b, i, inv.(status := Active),
           [Txn(i, Placement, inv.principal)], [Cash(i, Outflow, inv.principal, inv.principal)])
    case Terminate(i, amount, date) =>
      var inv := b.investments[i];
      var r := ET.Terminated(ContractOf(inv), amount, date);
      With(b, i, Reduced(inv, amount, Terminated),
           [Txn(i, if amount >= inv.principal then FullTermination else PartialTermination, r.net)]
           + (if r.penalty > 0 then [Txn(i, PenaltyCharge, r.penalty)] else []),
           [Cash(i, Inflow, r.net, amount)])
    case Settle(i, _, actual) =>
      var inv := b.investments[i];
      var interest := if actual.Some? then actual.value else inv.expected;
      With(b, i, inv.(received := inv.received + interest, principal := 0, status := Matured),
           [Txn(i, MaturitySettlement, inv.principal + interest)],
           [Cash(i, Inflow, inv.principal + interest, inv.principal)])
    case Roll(i, amount, _, _, _) =>
      var inv := b.investments[i];
      var next := |b.investments|;
      var rolled := With(b, i, Reduced(inv, amount, RolledOver).(rolledTo := Some(next)),
                         [Txn(next, Placement, amount), Txn(i, Rollover, amount)], [Cash(i, NonCash, amount, amount)]);
      rolled.(investments := rolled.investments + [Successor(inv, i, step)])
    case Rebook(i, newRate, newMaturity, additional, key, _) =>
      var inv := Renegotiated(b.investments[i], newRate, newMaturity, additional);
      var after := With(b, i, inv, if additional != 0 then [Txn(i, Rebooking, additional)] else [],
                        if additional != 0 then [Cash(i, Outflow, additional, additional)] else []);
      after.(rebookings := b.rebookings + [RebookEvent(i, key)])
  }

  /** A refused request, and a retried rebooking, change nothing. */
  function Next(b: Book, step: Step): Book {
    if Allowed(b, step) then Apply(b, step) else b
  }

  function After(b: Book, steps: seq<Step>): Book {
    if steps == [] then b else Next(After(b, steps[..|steps| - 1]), steps[|steps| - 1])
  }

  lemma AfterOneMore(b: Book, steps: seq<Step>, step: Step)
    ensures After(b, steps + [step]) == Next(After(b, steps), step)
  {
    assert (steps + [step])[..|steps|] == steps;
  }

  const EMPTY := Book([], [], [], [])
}
