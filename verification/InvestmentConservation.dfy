/** Where the principal is: everything the ledger paid out is either still outstanding on a
    placed investment or has been returned. */
module InvestmentConservation {
  import opened Calendar
  import opened ReconciliationModel
  import opened InvestmentBook
  import ET = EarlyTermination

  // ---------------------------------------------------------------- the three totals

  function PaidOut(cash: seq<Cash>): int {
    if cash == [] then 0
    else PaidOut(cash[..|cash| - 1]) + if cash[|cash| - 1].direction == Outflow then cash[|cash| - 1].amount else 0
  }

  function PrincipalReturned(cash: seq<Cash>): int {
    if cash == [] then 0
    else
      var last := cash[|cash| - 1];
      PrincipalReturned(cash[..|cash| - 1]) + if last.direction == Inflow then last.principal else 0
  }

  predicate Placed(b: Book, i: nat) {
    HasTxn(b.txns, i, Placement)
  }

  function PlacedIds(txns: seq<Txn>): set<nat> {
    set t | t in txns && t.kind == Placement :: t.investment
  }

  /** Principal of the investments in `placed`. */
  function Outstanding(investments: seq<Investment>, placed: set<nat>): int {
    if investments == [] then 0
    else
      var last := |investments| - 1;
      Outstanding(investments[..last], placed) + if last in placed then investments[last].principal else 0
  }

  /** Zero when every cent paid out is accounted for. */
  function Imbalance(b: Book): int {
    PaidOut(b.cash) - Outstanding(b.investments, PlacedIds(b.txns)) - PrincipalReturned(b.cash)
  }

  // ---------------------------------------------------------------- how the totals move

  lemma {:induction false} OutstandingAfterUpdate(
      investments: seq<Investment>, placed: set<nat>, i: nat, inv: Investment)
    requires i < |investments|
    ensures Outstanding(investments[i := inv], placed)
            == Outstanding(investments, placed) + if i in placed then inv.principal - investments[i].principal else 0
  {
    var last, after := |investments| - 1, investments[i := inv];
    if i < last {
      OutstandingAfterUpdate(investments[..last], placed, i, inv);
      assert after[..last] == investments[..last][i := inv];
    } else {
      assert after[..last] == investments[..last];
    }
  }

  lemma {:induction false} OutstandingAfterPlacing(investments: seq<Investment>, placed: set<nat>, i: nat)
    requires i < |investments| && i !in placed
    ensures Outstanding(investments, placed + {i}) == Outstanding(investments, placed) + investments[i].principal
  {
    var last := |investments| - 1;
    if i < last {
      OutstandingAfterPlacing(investments[..last], placed, i);
    } else {
      OutstandingIgnoresOthers(investments[..last], placed, i);
    }
  }

  lemma {:induction false} OutstandingIgnoresOthers(investments: seq<Investment>, placed: set<nat>, i: nat)
    requires |investments| <= i
    ensures Outstanding(investments, placed + {i}) == Outstanding(investments, placed)
  {
    if investments != [] {
      OutstandingIgnoresOthers(investments[..|investments| - 1], placed, i);
    }
  }

  lemma OutstandingAfterCreating(investments: seq<Investment>, placed: set<nat>, inv: Investment)
    ensures Outstanding(investments + [inv], placed)
            == Outstanding(investments, placed) + if |investments| in placed then inv.principal else 0
  {
    assert (investments + [inv])[..|investments|] == investments;
  }

  lemma CashAfterOne(cash: seq<Cash>, c: Cash)
    ensures PaidOut(cash + [c]) == PaidOut(cash) + if c.direction == Outflow then c.amount else 0
    ensures PrincipalReturned(cash + [c]) == PrincipalReturned(cash) + if c.direction == Inflow then c.principal else 0
  {
    assert (cash + [c])[..|cash|] == cash;
  }

  lemma PlacedAfter(txns: seq<Txn>, more: seq<Txn>)
    ensures PlacedIds(txns + more) == PlacedIds(txns) + PlacedIds(more)
  {
  }

  lemma PlacedIsRecorded(b: Book, i: nat)
    ensures Placed(b, i) <==> i in PlacedIds(b.txns)
  {
  }

  // ---------------------------------------------------------------- every step

  /** Only investments that exist have transactions. */
  ghost predicate TxnsKnown(b: Book) {
    forall t | t in b.txns :: t.investment < |b.investments|
  }

  /** How a step changes the balance: not at all if its investment was placed, and otherwise
      by the principal it moves. */
  function Shift(b: Book, step: Step): int
    requires Allowed(b, step)
  {
    match step
    case Terminate(i, amount, _) => if Placed(b, i) then 0 else -amount
    case Settle(i, _, _) => if Placed(b, i) then 0 else -b.investments[i].principal
    case Roll(i, amount, _, _, _) => if Placed(b, i) then 0 else -amount
    case Rebook(i, _, _, additional, _, _) => if Placed(b, i) then 0 else additional
    case _ => 0
  }

  lemma StayingStepsShift(b: Book, step: Step)
    requires (step.Create? || step.Edit? || step.ChangeStatus?) && Allowed(b, step) && TxnsKnown(b)
    ensures Imbalance(Apply(b, step)) == Imbalance(b)
  {
    hide Fresh, Renegotiated;
    var placed := PlacedIds(b.txns);
    match step
    case Create(_, _, _, _) =>
      assert |b.investments| !in placed;
      OutstandingAfterCreating(b.investments, placed, Apply(b, step).investments[|b.investments|]);
    case Edit(i, newRate, newMaturity) => EditShifts(b, i, newRate, newMaturity);
    case ChangeStatus(i, to) => OutstandingAfterUpdate(b.investments, placed, i, b.investments[i].(status := to));
  }

  lemma EditShifts(b: Book, i: nat, newRate: Option<real>, newMaturity: Option<Day>)
    requires Allowed(b, Edit(i, newRate, newMaturity))
    ensures Imbalance(Apply(b, Edit(i, newRate, newMaturity))) == Imbalance(b)
  {
    var edited := Renegotiated(b.investments[i], newRate, newMaturity, 0);
    OutstandingAfterUpdate(b.investments, PlacedIds(b.txns), i, edited);
  }

  lemma PlacingShifts(b: Book, step: Step)
    requires step.Place? && Allowed(b, step)
    ensures Imbalance(Apply(b, step)) == Imbalance(b)
  {
    var i, inv, placed := step.i, b.investments[step.i], PlacedIds(b.txns);
    PlacedIsRecorded(b, i);
    PlacedAfter(b.txns, [Txn(i, Placement, inv.principal)]);
    assert PlacedIds([Txn(i, Placement, inv.principal)]) == {i};
    OutstandingAfterUpdate(b.investments, placed + {i}, i, inv.(status := Active));
    OutstandingAfterPlacing(b.investments, placed, i);
    CashAfterOne(b.cash, Cash(i, Outflow, inv.principal, inv.principal));
  }

  lemma TerminatingShifts(b: Book, step: Step)
    requires step.Terminate? && Allowed(b, step)
    ensures Imbalance(Apply(b, step)) == Imbalance(b) + Shift(b, step)
  {
    var i, inv := step.i, b.investments[step.i];
    var after := Apply(b, step);
    hide Fresh, ET.Terminated;
    PlacedIsRecorded(b, i);
    PlacedAfter(b.txns, after.txns[|b.txns|..]);
    assert after.txns == b.txns + after.txns[|b.txns|..];
    assert PlacedIds(after.txns) == PlacedIds(b.txns);
    OutstandingAfterUpdate(b.investments, PlacedIds(b.txns), i, Reduced(inv, step.amount, Terminated));
    ReducedPrincipal(inv, step.amount, Terminated);
    CashAfterOne(b.cash, after.cash[|b.cash|]);
  }

  lemma ReducedPrincipal(inv: Investment, amount: int, emptied: Status)
    requires 0 < amount <= inv.principal
    ensures Reduced(inv, amount, emptied).principal == inv.principal - amount
  {
  }

  lemma SettlingShifts(b: Book, step: Step)
    requires step.Settle? && Allowed(b, step)
    ensures Imbalance(Apply(b, step)) == Imbalance(b) + Shift(b, step)
  {
    var i := step.i;
    var after := Apply(b, step);
    PlacedIsRecorded(b, i);
    PlacedAfter(b.txns, [after.txns[|b.txns|]]);
    assert PlacedIds(after.txns) == PlacedIds(b.txns);
    OutstandingAfterUpdate(b.investments, PlacedIds(b.txns), i, after.investments[i]);
    CashAfterOne(b.cash, after.cash[|b.cash|]);
  }

  /** What a rollover leaves: the original reduced, a successor, two transactions and one
      NON_CASH row. */
  lemma RollEffects(b: Book, step: Step) returns (reduced: Investment)
    requires step.Roll? && Allowed(b, step)
    ensures reduced.principal == b.investments[step.i].principal - step.amount
    ensures var i, next := step.i, |b.investments|;
            Apply(b, step) == Book(
              b.investments[i := reduced] + [Successor(b.investments[i], i, step)],
              b.txns + [Txn(next, Placement, step.amount), Txn(i, Rollover, step.amount)],
              b.cash + [Cash(i, NonCash, step.amount, step.amount)], b.rebookings)
  {
    hide Fresh;
    reduced := Reduced(b.investments[step.i], step.amount, RolledOver).(rolledTo := Some(|b.investments|));
    ReducedPrincipal(b.investments[step.i], step.amount, RolledOver);
  }

  lemma RolledPlacements(txns: seq<Txn>, i: nat, next: nat, amount: int)
    ensures PlacedIds(txns + [Txn(next, Placement, amount), Txn(i, Rollover, amount)]) == PlacedIds(txns) + {next}
  {
    PlacedAfter(txns, [Txn(next, Placement, amount), Txn(i, Rollover, amount)]);
    assert PlacedIds([Txn(next, Placement, amount), Txn(i, Rollover, amount)]) == {next};
  }

  lemma RollingShifts(b: Book, step: Step)
    requires step.Roll? && Allowed(b, step) && TxnsKnown(b)
    ensures Imbalance(Apply(b, step)) == Imbalance(b) + Shift(b, step)
  {
    hide Apply, Outstanding, PlacedIds, PaidOut, PrincipalReturned;
    var i, next, placed := step.i, |b.investments|, PlacedIds(b.txns);
    var reduced := RollEffects(b, step);
    PlacedIsRecorded(b, i);
    RolledPlacements(b.txns, i, next, step.amount);
    OutstandingAfterUpdate(b.investments, placed + {next}, i, reduced);
    OutstandingIgnoresOthers(b.investments, placed, next);
    OutstandingAfterCreating(b.investments[i := reduced], placed + {next}, Successor(b.investments[i], i, step));
    CashAfterOne(b.cash, Cash(i, NonCash, step.amount, step.amount));
  }

  lemma RebookingShifts(b: Book, step: Step)
    requires step.Rebook? && Allowed(b, step)
    ensures Imbalance(Apply(b, step)) == Imbalance(b) + Shift(b, step)
  {
    var i := step.i;
    var after := Apply(b, step);
    PlacedIsRecorded(b, i);
    PlacedAfter(b.txns, after.txns[|b.txns|..]);
    assert after.txns == b.txns + after.txns[|b.txns|..];
    assert PlacedIds(after.txns) == PlacedIds(b.txns);
    OutstandingAfterUpdate(b.investments, PlacedIds(b.txns), i, after.investments[i]);
    if step.additional != 0 {
      CashAfterOne(b.cash, after.cash[|b.cash|]);
    } else {
      assert after.cash == b.cash;
    }
  }

  /** Each step moves the balance by exactly its shift, so a step keeps it exactly when the
      investment it touches was placed or it moves no principal. */
  lemma StepShiftsTheBalance(b: Book, step: Step)
    requires Allowed(b, step) && TxnsKnown(b)
    ensures Imbalance(Apply(b, step)) == Imbalance(b) + Shift(b, step)
    ensures TxnsKnown(Apply(b, step))
  {
    hide Imbalance;
    match step
    case Place(_, _, _, _) => PlacingShifts(b, step);
    case Terminate(_, _, _) => TerminatingShifts(b, step);
    case Settle(_, _, _) => SettlingShifts(b, step);
    case Roll(_, _, _, _, _) => RollingShifts(b, step);
    case Rebook(_, _, _, _, _, _) => RebookingShifts(b, step);
    case _ => StayingStepsShift(b, step);
  }

  // ---------------------------------------------------------------- whole runs

  /** A status request that makes an investment active for which nothing was paid out. */
  predicate ActivatesUnplaced(b: Book, step: Step) {
    step.ChangeStatus? && step.to == Active && Allowed(b, step) && !Placed(b, step.i)
  }

  predicate Live(s: Status) {
    s == Active || s == PartiallyTerminated || s == Matured
  }

  /** Every investment that can still move principal was placed. */
  ghost predicate LiveArePlaced(b: Book) {
    forall i: nat | i < |b.investments| && Live(b.investments[i].status) :: Placed(b, i)
  }

  lemma StepKeepsLivePlaced(b: Book, step: Step)
    requires Allowed(b, step) && !ActivatesUnplaced(b, step) && LiveArePlaced(b)
    ensures LiveArePlaced(Apply(b, step))
  {
    hide ET.Terminated, Expected;
    var after := Apply(b, step);
    assert after.txns == b.txns + after.txns[|b.txns|..];
    forall i: nat | i < |after.investments| && Live(after.investments[i].status) ensures Placed(after, i) {
      if step.Place? {
        assert after.txns[|b.txns|..][0] == Txn(step.i, Placement, b.investments[step.i].principal);
      }
      if step.Roll? {
        assert after.txns[|b.txns|..][0] == Txn(|b.investments|, Placement, step.amount);
      }
      assert i < |b.investments| && after.investments[i] == b.investments[i] ==> Placed(b, i);
    }
  }

  lemma NothingIsBalanced()
    ensures Imbalance(EMPTY) == 0 && TxnsKnown(EMPTY) && LiveArePlaced(EMPTY)
  {
  }

  /** No step of the run activates an investment that was not placed. */
  ghost predicate NeverActivatesUnplaced(start: Book, steps: seq<Step>) {
    forall n | 0 <= n < |steps| :: !ActivatesUnplaced(After(start, steps[..n]), steps[n])
  }

  lemma NeverActivatesStep(start: Book, steps: seq<Step>)
    requires steps != [] && NeverActivatesUnplaced(start, steps)
    ensures var front := steps[..|steps| - 1];
            NeverActivatesUnplaced(start, front) && !ActivatesUnplaced(After(start, front), steps[|steps| - 1])
  {
    hide ActivatesUnplaced, After;
    var front, last := steps[..|steps| - 1], |steps| - 1;
    assert forall n | 0 <= n < last :: front[..n] == steps[..n] && front[n] == steps[n];
    assert !ActivatesUnplaced(After(start, steps[..last]), steps[last]);
  }

  lemma {:induction false} RunsKeepTheBooks(steps: seq<Step>)
    requires NeverActivatesUnplaced(EMPTY, steps)
    ensures var b := After(EMPTY, steps); Imbalance(b) == 0 && TxnsKnown(b) && LiveArePlaced(b)
  {
    hide Imbalance, TxnsKnown, Allowed, Apply, NeverActivatesUnplaced, LiveArePlaced;
    if steps == [] {
      NothingIsBalanced();
    } else {
      var front, step := steps[..|steps| - 1], steps[|steps| - 1];
      var b := After(EMPTY, front);
      NeverActivatesStep(EMPTY, steps);
      RunsKeepTheBooks(front);
      if Allowed(b, step) {
        StepShiftsTheBalance(b, step);
        PlacedStepsDoNotShift(b, step);
        StepKeepsLivePlaced(b, step);
      }
    }
  }

  lemma PlacedStepsDoNotShift(b: Book, step: Step)
    requires Allowed(b, step) && LiveArePlaced(b)
    ensures Shift(b, step) == 0
  {
  }

  /** Over any run of creating, editing, approving, placing, terminating, settling, rolling over
      and rebooking in which no request activates an investment that was not placed, the
      outflows of the ledger equal the outstanding principal of all placed investments plus all
      principal returned. */
  lemma PrincipalIsConserved(steps: seq<Step>)
    requires NeverActivatesUnplaced(EMPTY, steps)
    ensures var b := After(EMPTY, steps);
            PaidOut(b.cash) == Outstanding(b.investments, PlacedIds(b.txns)) + PrincipalReturned(b.cash)
  {
    RunsKeepTheBooks(steps);
  }

  // ---------------------------------------------------------------- every run, activations included

  function ShiftOf(b: Book, step: Step): int {
    if Allowed(b, step) then Shift(b, step) else 0
  }

  function Shifts(start: Book, steps: seq<Step>): int {
    if steps == [] then 0
    else
      var front := steps[..|steps| - 1];
      Shifts(start, front) + ShiftOf(After(start, front), steps[|steps| - 1])
  }

  /** Over any run whatever the books are off by exactly the principal its steps moved on
      investments that were not placed. */
  lemma {:induction false} ImbalanceIsTheShifts(start: Book, steps: seq<Step>)
    requires TxnsKnown(start)
    ensures TxnsKnown(After(start, steps))
    ensures Imbalance(After(start, steps)) == Imbalance(start) + Shifts(start, steps)
  {
    hide Imbalance, TxnsKnown, Allowed, Apply, Shift;
    if steps != [] {
      var front, step := steps[..|steps| - 1], steps[|steps| - 1];
      ImbalanceIsTheShifts(start, front);
      if Allowed(After(start, front), step) {
        StepShiftsTheBalance(After(start, front), step);
      }
    }
  }

  /** A step that moves principal of an investment for which nothing was paid out. */
  predicate MovesUnplaced(b: Book, step: Step) {
    Allowed(b, step) && match step
                        case Terminate(i, _, _) => !Placed(b, i)
                        case Settle(i, _, _) => !Placed(b, i) && b.investments[i].principal != 0
                        case Roll(i, _, _, _, _) => !Placed(b, i)
                        case Rebook(i, _, _, additional, _, _) => !Placed(b, i) && additional != 0
                        case _ => false
  }

  lemma ShiftsExactlyWhenUnplaced(b: Book, step: Step)
    ensures ShiftOf(b, step) == 0 <==> !MovesUnplaced(b, step)
  {
  }

  /** The books balance after every prefix of the run. */
  ghost predicate AlwaysBalanced(start: Book, steps: seq<Step>) {
    forall n | 0 <= n <= |steps| :: Imbalance(After(start, steps[..n])) == 0
  }

  ghost predicate NeverMovesUnplaced(start: Book, steps: seq<Step>) {
    forall n | 0 <= n < |steps| :: !MovesUnplaced(After(start, steps[..n]), steps[n])
  }

  /** Over any run of the system the books balance throughout exactly when no step moves
      principal of an investment that was not placed. */
  lemma BooksBalanceExactlyWhen(steps: seq<Step>)
    ensures AlwaysBalanced(EMPTY, steps) <==> NeverMovesUnplaced(EMPTY, steps)
  {
    hide Imbalance, After, MovesUnplaced, ShiftOf, Shifts, TxnsKnown;
    NothingIsBalanced();
    forall n | 0 <= n <= |steps| ensures Imbalance(After(EMPTY, steps[..n])) == Shifts(EMPTY, steps[..n]) {
      ImbalanceIsTheShifts(EMPTY, steps[..n]);
    }
    forall n | 0 <= n < |steps|
      ensures Shifts(EMPTY, steps[..n + 1]) == Shifts(EMPTY, steps[..n]) + ShiftOf(After(EMPTY, steps[..n]), steps[n])
      ensures ShiftOf(After(EMPTY, steps[..n]), steps[n]) == 0 <==> !MovesUnplaced(After(EMPTY, steps[..n]), steps[n])
    {
      ShiftsOneMore(EMPTY, steps, n);
      ShiftsExactlyWhenUnplaced(After(EMPTY, steps[..n]), steps[n]);
    }
    if NeverMovesUnplaced(EMPTY, steps) {
      NoShiftsAddUp(EMPTY, steps);
    }
    if AlwaysBalanced(EMPTY, steps) {
      forall n | 0 <= n < |steps| ensures !MovesUnplaced(After(EMPTY, steps[..n]), steps[n]) {
        assert Imbalance(After(EMPTY, steps[..n])) == 0 && Imbalance(After(EMPTY, steps[..n + 1])) == 0;
      }
    }
  }

  lemma ShiftsOneMore(start: Book, steps: seq<Step>, n: nat)
    requires n < |steps|
    ensures Shifts(start, steps[..n + 1]) == Shifts(start, steps[..n]) + ShiftOf(After(start, steps[..n]), steps[n])
  {
    hide After, ShiftOf;
    assert steps[..n + 1][..n] == steps[..n];
  }

  lemma {:induction false} NoShiftsAddUp(start: Book, steps: seq<Step>)
    requires NeverMovesUnplaced(start, steps)
    ensures forall n | 0 <= n <= |steps| :: Shifts(start, steps[..n]) == 0
  {
    hide After, MovesUnplaced, ShiftOf;
    for n := 0 to |steps|
      invariant forall m | 0 <= m <= n :: Shifts(start, steps[..m]) == 0
    {
      ShiftsOneMore(start, steps, n);
      ShiftsExactlyWhenUnplaced(After(start, steps[..n]), steps[n]);
    }
  }

  /** A rollover moves no cash: nothing is paid out, nothing returned, and what leaves the
      original is exactly what the successor starts with. */
  lemma RolloverMovesNoCash(b: Book, step: Step)
    requires step.Roll? && Allowed(b, step)
    ensures Apply(b, step).cash == b.cash + [Cash(step.i, NonCash, step.amount, step.amount)]
    ensures PaidOut(Apply(b, step).cash) == PaidOut(b.cash)
    ensures PrincipalReturned(Apply(b, step).cash) == PrincipalReturned(b.cash)
    ensures |Apply(b, step).investments| == |b.investments| + 1
    ensures Apply(b, step).investments[step.i].principal == b.investments[step.i].principal - step.amount
    ensures Apply(b, step).investments[|b.investments|].principal == step.amount
  {
    hide Apply, PaidOut, PrincipalReturned;
    var reduced := RollEffects(b, step);
    CashAfterOne(b.cash, Cash(step.i, NonCash, step.amount, step.amount));
  }

  // ---------------------------------------------------------------- the way around placement

  /** The status request accepts PLACEMENT_PENDING to ACTIVE although nothing was paid out.  A
      termination then returns principal that never left: the books are off by its amount. */
  lemma ActivationWithoutPlacementBreaksTheBooks(b: Book, i: nat, date: Day)
    requires TxnsKnown(b) && i < |b.investments| && !Placed(b, i)
    requires var inv := b.investments[i]; inv.status == PlacementPending && inv.principal > 0 && inv.terms.early
    ensures var activate, terminate := ChangeStatus(i, Active), Terminate(i, b.investments[i].principal, date);
            var active := Next(b, activate);
            && Allowed(b, activate) && Allowed(active, terminate)
            && Imbalance(Next(active, terminate)) == Imbalance(b) - b.investments[i].principal
  {
    hide Imbalance, ET.Terminated;
    var active := Next(b, ChangeStatus(i, Active));
    StepShiftsTheBalance(b, ChangeStatus(i, Active));
    StepShiftsTheBalance(active, Terminate(i, b.investments[i].principal, date));
  }

  /** Such an investment is four requests away from an empty book's first draft. */
  lemma PendingUnplacedIsReachable(terms: Terms, principal: int, ratePct: real, maturity: Day)
    requires principal > 0 && !Earlier(maturity, terms.start)
    ensures var steps := [Create(terms, principal, ratePct, maturity),
                          ChangeStatus(0, Submitted), ChangeStatus(0, UnderReview),
                          ChangeStatus(0, Approved), ChangeStatus(0, PlacementPending)];
            var b := After(EMPTY, steps);
            TxnsKnown(b) && |b.investments| == 1 && !Placed(b, 0)
            && b.investments[0].status == PlacementPending
            && b.investments[0].principal == principal && b.investments[0].terms == terms
  {
    hide Expected, After, Next;
    var create := Create(terms, principal, ratePct, maturity);
    var s1, s2 := [create], [create, ChangeStatus(0, Submitted)];
    var s3 := s2 + [ChangeStatus(0, UnderReview)];
    var s4 := s3 + [ChangeStatus(0, Approved)];
    AfterNothing(EMPTY);
    assert [] + [create] == s1 && s1 + [ChangeStatus(0, Submitted)] == s2;
    AfterOneMore(EMPTY, [], create);
    var inv := CreatedAlone(create);
    AfterOneMore(EMPTY, s1, ChangeStatus(0, Submitted));
    StatusAlone(inv, Submitted);
    AfterOneMore(EMPTY, s2, ChangeStatus(0, UnderReview));
    StatusAlone(inv.(status := Submitted), UnderReview);
    AfterOneMore(EMPTY, s3, ChangeStatus(0, Approved));
    StatusAlone(inv.(status := UnderReview), Approved);
    AfterOneMore(EMPTY, s4, ChangeStatus(0, PlacementPending));
    StatusAlone(inv.(status := Approved), PlacementPending);
    assert s4 + [ChangeStatus(0, PlacementPending)]
        == [create, ChangeStatus(0, Submitted), ChangeStatus(0, UnderReview), ChangeStatus(0, Approved),
            ChangeStatus(0, PlacementPending)];
  }

  /** A book with one investment and nothing else. */
  function Only(inv: Investment): Book {
    Book([inv], [], [], [])
  }

  lemma CreatedAlone(create: Step) returns (inv: Investment)
    requires create.Create? && create.principal > 0 && !Earlier(create.maturity, create.terms.start)
    ensures Next(EMPTY, create) == Only(inv)
    ensures inv.status == Draft && inv.principal == create.principal && inv.terms == create.terms
  {
    hide Expected;
    inv := Fresh(Investment(create.terms, Draft, create.principal, create.principal, create.ratePct, create.maturity,
                            0, 0, None, None));
  }

  lemma StatusAlone(inv: Investment, to: Status)
    requires to in Transitions(inv.status)
    ensures Next(Only(inv), ChangeStatus(0, to)) == Only(inv.(status := to))
  {
  }

  lemma AfterNothing(b: Book)
    ensures After(b, []) == b
  {
  }
}
