/** The cash ledger, the transactions and the balances of each investment tell one story: what came
    in, what went out, what was rolled, and how much of it was interest. */
module InvestmentCash {
  import opened ReconciliationModel
  import opened InvestmentBook
  import InvestmentInvariants
  import InterestFigures
  import ET = EarlyTermination

  // ---------------------------------------------------------------- sums per investment

  /** Amounts of the ledger rows of investment `i` in one direction. */
  function Moved(cash: seq<Cash>, i: nat, direction: Direction): int {
    if cash == [] then 0
    else
      var c := cash[|cash| - 1];
      Moved(cash[..|cash| - 1], i, direction) + if c.investment == i && c.direction == direction then c.amount else 0
  }

  /** The part of the inflows of investment `i` that is principal. */
  function Returned(cash: seq<Cash>, i: nat): int {
    if cash == [] then 0
    else
      var c := cash[|cash| - 1];
      Returned(cash[..|cash| - 1], i) + if c.investment == i && c.direction == Inflow then c.principal else 0
  }

  function TxnSum(txns: seq<Txn>, i: nat, kinds: set<TxnKind>): int {
    if txns == [] then 0
    else
      var t := txns[|txns| - 1];
      TxnSum(txns[..|txns| - 1], i, kinds) + if t.investment == i && t.kind in kinds then t.amount else 0
  }

  const INCOMING: set<TxnKind> := {MaturitySettlement, FullTermination, PartialTermination}

  /** What a termination pays beyond the principal: interest less penalty. */
  function Gain(b: Book, step: Step, i: nat): int {
    if step.Terminate? && step.i == i && Allowed(b, step)
    then ET.Terminated(ContractOf(b.investments[i]), step.amount, step.date).net - step.amount
    else 0
  }

  function Gains(steps: seq<Step>, i: nat): int {
    if steps == [] then 0
    else
      var front := steps[..|steps| - 1];
      Gains(front, i) + Gain(After(EMPTY, front), steps[|steps| - 1], i)
  }

  lemma MovedAppend(cash: seq<Cash>, more: seq<Cash>, i: nat, direction: Direction)
    requires |more| <= 1
    ensures Moved(cash + more, i, direction) == Moved(cash, i, direction) + Moved(more, i, direction)
    ensures Returned(cash + more, i) == Returned(cash, i) + Returned(more, i)
  {
    if more == [] {
      assert cash + more == cash;
    } else {
      assert (cash + more)[..|cash|] == cash && more[..0] == [];
    }
  }

  lemma {:induction false} TxnSumAppend(txns: seq<Txn>, more: seq<Txn>, i: nat, kinds: set<TxnKind>)
    ensures TxnSum(txns + more, i, kinds) == TxnSum(txns, i, kinds) + TxnSum(more, i, kinds)
  {
    if more == [] {
      assert txns + more == txns;
    } else {
      TxnSumAppend(txns, more[..|more| - 1], i, kinds);
      assert (txns + more)[..|txns + more| - 1] == txns + more[..|more| - 1];
    }
  }

  // ---------------------------------------------------------------- what every step keeps

  /** Principal of an investment is where it should be, and every amount the ledger moved for it is
      the amount of a transaction. */
  ghost predicate Reconciles(b: Book, i: nat)
    requires i < |b.investments|
  {
    var inv := b.investments[i];
    && inv.principal + Returned(b.cash, i) + TxnSum(b.txns, i, {Rollover}) == inv.original
    && Moved(b.cash, i, Inflow) == TxnSum(b.txns, i, INCOMING)
    && Moved(b.cash, i, NonCash) == TxnSum(b.txns, i, {Rollover})
    && Moved(b.cash, i, Outflow) == TxnSum(b.txns, i, {Rebooking})
                                    + if inv.previous.None? then TxnSum(b.txns, i, {Placement}) else 0
  }

  /** Nothing is recorded of an investment that does not exist; one that was rolled into is placed. */
  ghost predicate Known(b: Book) {
    && (forall t | t in b.txns :: t.investment < |b.investments|)
    && (forall c | c in b.cash :: c.investment < |b.investments|)
    && forall i: nat | i < |b.investments| && b.investments[i].previous.Some? :: HasTxn(b.txns, i, Placement)
  }

  /** The rows and transactions a step adds. */
  function NewCash(b: Book, step: Step): seq<Cash>
    requires Allowed(b, step)
  {
    var after := Apply(b, step).cash;
    if |b.cash| <= |after| then after[|b.cash|..] else []
  }

  function NewTxns(b: Book, step: Step): seq<Txn>
    requires Allowed(b, step)
  {
    var after := Apply(b, step).txns;
    if |b.txns| <= |after| then after[|b.txns|..] else []
  }

  lemma StepsAppend(b: Book, step: Step)
    requires Allowed(b, step)
    ensures Apply(b, step).cash == b.cash + NewCash(b, step) && |NewCash(b, step)| <= 1
    ensures Apply(b, step).txns == b.txns + NewTxns(b, step)
  {
    hide ET.Terminated, Fresh;
  }

  lemma {:induction false} NoTransactions(txns: seq<Txn>, i: nat, kinds: set<TxnKind>)
    requires forall t | t in txns :: t.investment != i
    ensures TxnSum(txns, i, kinds) == 0
  {
    if txns != [] {
      NoTransactions(txns[..|txns| - 1], i, kinds);
    }
  }

  lemma {:induction false} NoCash(cash: seq<Cash>, i: nat, direction: Direction)
    requires forall c | c in cash :: c.investment != i
    ensures Moved(cash, i, direction) == 0 && Returned(cash, i) == 0
  {
    if cash != [] {
      NoCash(cash[..|cash| - 1], i, direction);
    }
  }

  /** What one ledger row and up to two transactions add to every sum. */
  lemma OneRow(c: Cash, i: nat, direction: Direction)
    ensures Moved([c], i, direction) == if c.investment == i && c.direction == direction then c.amount else 0
    ensures Returned([c], i) == if c.investment == i && c.direction == Inflow then c.principal else 0
  {
    assert [c][..0] == [];
  }

  function Share(t: Txn, i: nat, kinds: set<TxnKind>): int {
    if t.investment == i && t.kind in kinds then t.amount else 0
  }

  lemma OneTransaction(t: Txn, i: nat, kinds: set<TxnKind>)
    ensures TxnSum([t], i, kinds) == Share(t, i, kinds)
  {
    assert [t][..0] == [];
  }

  lemma TwoTransactions(t: Txn, u: Txn, i: nat, kinds: set<TxnKind>)
    ensures TxnSum([t, u], i, kinds) == Share(t, i, kinds) + Share(u, i, kinds)
  {
    OneTransaction(t, i, kinds);
    assert [t, u][..1] == [t];
  }

  // ---------------------------------------------------------------- each kind of step

  /** The changes of every sum of investment `i`, when a step adds `cash` and `txns`. */
  lemma SumsAfter(b: Book, step: Step, i: nat)
    requires Allowed(b, step)
    ensures var after := Apply(b, step);
            && (forall d :: Moved(after.cash, i, d) == Moved(b.cash, i, d) + Moved(NewCash(b, step), i, d))
            && Returned(after.cash, i) == Returned(b.cash, i) + Returned(NewCash(b, step), i)
            && forall kinds ::
                TxnSum(after.txns, i, kinds) == TxnSum(b.txns, i, kinds) + TxnSum(NewTxns(b, step), i, kinds)
  {
    hide Apply, Moved, Returned, TxnSum, NewCash, NewTxns;
    StepsAppend(b, step);
    MovedAppend(b.cash, NewCash(b, step), i, Inflow);
    forall d ensures Moved(b.cash + NewCash(b, step), i, d) == Moved(b.cash, i, d) + Moved(NewCash(b, step), i, d) {
      MovedAppend(b.cash, NewCash(b, step), i, d);
    }
    forall kinds
      ensures TxnSum(b.txns + NewTxns(b, step), i, kinds)
              == TxnSum(b.txns, i, kinds) + TxnSum(NewTxns(b, step), i, kinds) {
      TxnSumAppend(b.txns, NewTxns(b, step), i, kinds);
    }
  }

  /** Everything that moved for investment `i` in one step. */
  datatype Sums = Sums(incoming: int, outgoing: int, rolled: int, returned: int,
                       paid: int, placed: int, topped: int, rollovers: int)

  function SumsOf(cash: seq<Cash>, txns: seq<Txn>, i: nat): Sums {
    Sums(Moved(cash, i, Inflow), Moved(cash, i, Outflow), Moved(cash, i, NonCash), Returned(cash, i),
         TxnSum(txns, i, INCOMING), TxnSum(txns, i, {Placement}), TxnSum(txns, i, {Rebooking}),
         TxnSum(txns, i, {Rollover}))
  }

  function Plus(a: Sums, b: Sums): Sums {
    Sums(a.incoming + b.incoming, a.outgoing + b.outgoing, a.rolled + b.rolled, a.returned + b.returned,
         a.paid + b.paid, a.placed + b.placed, a.topped + b.topped, a.rollovers + b.rollovers)
  }

  lemma SumsAdd(b: Book, step: Step, i: nat)
    requires Allowed(b, step)
    ensures SumsOf(Apply(b, step).cash, Apply(b, step).txns, i)
            == Plus(SumsOf(b.cash, b.txns, i), SumsOf(NewCash(b, step), NewTxns(b, step), i))
  {
    hide Apply, Moved, Returned, TxnSum, NewCash, NewTxns;
    SumsAfter(b, step, i);
  }

  const NOTHING := Sums(0, 0, 0, 0, 0, 0, 0, 0)

  /** What a step moves for the investment it is about, in figures. */
  function StepMoves(b: Book, step: Step): Sums
    requires Allowed(b, step)
  {
    match step
    case Place(i, _, _, _) => NOTHING.(outgoing := b.investments[i].principal, placed := b.investments[i].principal)
    case Terminate(i, amount, date) =>
      var net := ET.Terminated(ContractOf(b.investments[i]), amount, date).net;
      NOTHING.(incoming := net, paid := net, returned := amount)
    case Settle(i, _, actual) =>
      var inv := b.investments[i];
      var interest := if actual.Some? then actual.value else inv.expected;
      NOTHING.(incoming := inv.principal + interest, paid := inv.principal + interest, returned := inv.principal)
    case Roll(_, amount, _, _, _) => NOTHING.(rolled := amount, rollovers := amount)
    case Rebook(_, _, _, additional, _, _) => NOTHING.(outgoing := additional, topped := additional)
    case _ => NOTHING
  }

  lemma RowsInOneStep(c: Cash, t: Txn, u: Txn, i: nat)
    ensures SumsOf([c], [t], i) == RowSums(c, t, i)
    ensures u.kind == PenaltyCharge ==> SumsOf([c], [t, u], i) == RowSums(c, t, i)
    ensures t.investment != i && u.kind == Rollover ==> SumsOf([c], [t, u], i) == RowSums(c, u, i)
  {
    hide Moved, Returned, TxnSum;
    OneRow(c, i, Inflow);
    OneRow(c, i, Outflow);
    OneRow(c, i, NonCash);
    forall kinds
      ensures TxnSum([t], i, kinds) == Share(t, i, kinds)
      ensures TxnSum([t, u], i, kinds) == Share(t, i, kinds) + Share(u, i, kinds)
    {
      OneTransaction(t, i, kinds);
      TwoTransactions(t, u, i, kinds);
    }
  }

  function RowSums(c: Cash, t: Txn, i: nat): Sums {
    var amount := if c.investment == i then c.amount else 0;
    Sums(if c.direction == Inflow then amount else 0, if c.direction == Outflow then amount else 0,
         if c.direction == NonCash then amount else 0, if c.investment == i && c.direction == Inflow then c.principal
             else 0,
         Share(t, i, INCOMING), Share(t, i, {Placement}), Share(t, i, {Rebooking}), Share(t, i, {Rollover}))
  }

  lemma NewSums(b: Book, step: Step, i: nat)
    requires Allowed(b, step) && i < |b.investments|
    ensures SumsOf(NewCash(b, step), NewTxns(b, step), i)
            == if !step.Create? && step.i == i then StepMoves(b, step) else NOTHING
  {
    hide ET.Terminated, Fresh, Expected, SumsOf;
    NothingSums(i);
    match step
    case Place(k, _, _, _) =>
      var amount := b.investments[k].principal;
      assert NewCash(b, step) == [Cash(k, Outflow, amount, amount)] && NewTxns(b, step) == [Txn(k, Placement, amount)];
      RowsInOneStep(Cash(k, Outflow, amount, amount), Txn(k, Placement, amount), Txn(k, Placement, amount), i);
    case Terminate(k, amount, date) => TerminationSums(b, step, i);
    case Settle(_, _, _) => SettlementSums(b, step, i);
    case Roll(_, _, _, _, _) => RollSums(b, step, i);
    case Rebook(k, _, _, additional, _, _) =>
      if additional != 0 {
        var c, t := Cash(k, Outflow, additional, additional), Txn(k, Rebooking, additional);
        assert NewCash(b, step) == [c] && NewTxns(b, step) == [t];
        RowsInOneStep(c, t, t, i);
      } else {
        assert NewCash(b, step) == [] && NewTxns(b, step) == [];
      }
    case _ => assert NewCash(b, step) == [] && NewTxns(b, step) == [];
  }

  lemma NothingSums(i: nat)
    ensures SumsOf([], [], i) == NOTHING
  {
  }

  lemma TerminationSums(b: Book, step: Step, i: nat)
    requires step.Terminate? && Allowed(b, step) && i < |b.investments|
    ensures SumsOf(NewCash(b, step), NewTxns(b, step), i) == if step.i == i then StepMoves(b, step) else NOTHING
  {
    hide ET.Terminated, Fresh, Expected, SumsOf;
    var k, inv := step.i, b.investments[step.i];
    var r := ET.Terminated(ContractOf(inv), step.amount, step.date);
    var c := Cash(k, Inflow, r.net, step.amount);
    var t := Txn(k, if step.amount >= inv.principal then FullTermination else PartialTermination, r.net);
    var u := Txn(k, PenaltyCharge, r.penalty);
    assert NewCash(b, step) == [c];
    assert NewTxns(b, step) == if r.penalty > 0 then [t, u] else [t];
    RowsInOneStep(c, t, u, i);
  }

  lemma SettlementSums(b: Book, step: Step, i: nat)
    requires step.Settle? && Allowed(b, step) && i < |b.investments|
    ensures SumsOf(NewCash(b, step), NewTxns(b, step), i) == if step.i == i then StepMoves(b, step) else NOTHING
  {
    hide SumsOf;
    var inv := b.investments[step.i];
    var proceeds := inv.principal + if step.actual.Some? then step.actual.value else inv.expected;
    var c, t := Cash(step.i, Inflow, proceeds, inv.principal), Txn(step.i, MaturitySettlement, proceeds);
    assert NewCash(b, step) == [c] && NewTxns(b, step) == [t];
    RowsInOneStep(c, t, t, i);
  }

  lemma RollSums(b: Book, step: Step, i: nat)
    requires step.Roll? && Allowed(b, step) && i < |b.investments|
    ensures SumsOf(NewCash(b, step), NewTxns(b, step), i) == if step.i == i then StepMoves(b, step) else NOTHING
  {
    hide Fresh, Expected, SumsOf;
    var k, amount := step.i, step.amount;
    var c, t, u := Cash(k, NonCash, amount, amount), Txn(|b.investments|, Placement, amount), Txn(k, Rollover, amount);
    assert NewCash(b, step) == [c] && NewTxns(b, step) == [t, u];
    RowsInOneStep(c, t, u, i);
  }

  // ---------------------------------------------------------------- every step keeps it

  /** The balances of an investment that a step leaves behind. */
  lemma BalancesAfter(b: Book, step: Step, i: nat)
    requires Allowed(b, step) && i < |b.investments|
    ensures i < |Apply(b, step).investments|
    ensures var before, after := b.investments[i], Apply(b, step).investments[i];
            && after.previous == before.previous
            && (step.Create? || step.i != i ==> after == before)
            && (!step.Create? && step.i == i ==>
                  var m := StepMoves(b, step);
                  && after.principal - after.original == before.principal - before.original - m.returned - m.rolled
                  && after.received == before.received
                                       + (if step.Settle? then m.incoming - m.returned else 0))
  {
    hide ET.Terminated, Expected;
  }

  predicate Agree(inv: Investment, x: Sums) {
    && inv.principal + x.returned + x.rollovers == inv.original
    && x.incoming == x.paid && x.rolled == x.rollovers
    && x.outgoing == x.topped + if inv.previous.None? then x.placed else 0
  }

  lemma ReconcilesExactlyWhenAgree(b: Book, i: nat)
    requires i < |b.investments|
    ensures Reconciles(b, i) <==> Agree(b.investments[i], SumsOf(b.cash, b.txns, i))
  {
    hide Moved, Returned, TxnSum;
  }

  lemma MovesAgree(b: Book, step: Step)
    requires Allowed(b, step) && !step.Create? && Known(b)
    ensures var m := StepMoves(b, step);
            && m.incoming == m.paid && m.rolled == m.rollovers
            && m.outgoing == m.topped + if b.investments[step.i].previous.None? then m.placed else 0
  {
    hide ET.Terminated, Expected;
  }

  lemma OldInvestmentReconciles(b: Book, step: Step, i: nat)
    requires Allowed(b, step) && i < |b.investments| && Known(b) && Reconciles(b, i)
    ensures i < |Apply(b, step).investments| && Reconciles(Apply(b, step), i)
  {
    hide Apply, SumsOf, NewCash, NewTxns, Known, Reconciles, StepMoves, Allowed;
    SumsAdd(b, step, i);
    NewSums(b, step, i);
    BalancesAfter(b, step, i);
    ReconcilesExactlyWhenAgree(b, i);
    ReconcilesExactlyWhenAgree(Apply(b, step), i);
    if !step.Create? {
      MovesAgree(b, step);
    }
  }

  lemma NothingOfTheNext(b: Book)
    requires Known(b)
    ensures SumsOf(b.cash, b.txns, |b.investments|) == NOTHING
  {
    var i := |b.investments|;
    NoCash(b.cash, i, Inflow);
    NoCash(b.cash, i, Outflow);
    NoCash(b.cash, i, NonCash);
    NoTransactions(b.txns, i, INCOMING);
    NoTransactions(b.txns, i, {Placement});
    NoTransactions(b.txns, i, {Rebooking});
    NoTransactions(b.txns, i, {Rollover});
  }

  lemma NewcomerSums(b: Book, step: Step)
    requires Allowed(b, step) && (step.Create? || step.Roll?)
    ensures SumsOf(NewCash(b, step), NewTxns(b, step), |b.investments|)
            == if step.Roll? then NOTHING.(placed := step.amount) else NOTHING
  {
    hide SumsOf, Expected;
    var i := |b.investments|;
    NothingSums(i);
    if step.Roll? {
      var k, amount := step.i, step.amount;
      var c, t, u := Cash(k, NonCash, amount, amount), Txn(i, Placement, amount), Txn(k, Rollover, amount);
      assert NewCash(b, step) == [c] && NewTxns(b, step) == [t, u];
      SuccessorSums(c, t, u, i);
    } else {
      assert NewCash(b, step) == [] && NewTxns(b, step) == [];
    }
  }

  lemma Newcomers(b: Book, step: Step)
    requires Allowed(b, step) && |Apply(b, step).investments| > |b.investments|
    ensures (step.Create? || step.Roll?) && |Apply(b, step).investments| == |b.investments| + 1
    ensures var inv := Apply(b, step).investments[|b.investments|];
            inv.principal == inv.original && inv.received == 0 && (inv.previous.Some? <==> step.Roll?)
  {
    hide ET.Terminated, Expected;
  }

  lemma NewcomersAgree(inv: Investment, rolled: bool, amount: int)
    requires inv.principal == inv.original && (inv.previous.Some? <==> rolled)
    ensures Agree(inv, Plus(NOTHING, if rolled then NOTHING.(placed := amount) else NOTHING))
  {
  }

  lemma NewInvestmentReconciles(b: Book, step: Step)
    requires Allowed(b, step) && Known(b) && |Apply(b, step).investments| > |b.investments|
    ensures |Apply(b, step).investments| == |b.investments| + 1 && Reconciles(Apply(b, step), |b.investments|)
  {
    hide *;
    Newcomers(b, step);
    NothingOfTheNext(b);
    NewcomerSums(b, step);
    SumsAdd(b, step, |b.investments|);
    ReconcilesExactlyWhenAgree(Apply(b, step), |b.investments|);
    NewcomersAgree(Apply(b, step).investments[|b.investments|], step.Roll?, if step.Roll? then step.amount else 0);
  }

  lemma SuccessorSums(c: Cash, t: Txn, u: Txn, i: nat)
    requires c.investment != i && t.investment == i && t.kind == Placement && u.investment != i
    ensures SumsOf([c], [t, u], i) == NOTHING.(placed := t.amount)
  {
    hide Moved, Returned, TxnSum;
    OneRow(c, i, Inflow);
    OneRow(c, i, Outflow);
    OneRow(c, i, NonCash);
    TwoTransactions(t, u, i, INCOMING);
    TwoTransactions(t, u, i, {Placement});
    TwoTransactions(t, u, i, {Rebooking});
    TwoTransactions(t, u, i, {Rollover});
  }

  lemma NewRowsAreKnown(b: Book, step: Step)
    requires Allowed(b, step)
    ensures |b.investments| <= |Apply(b, step).investments|
    ensures forall t | t in NewTxns(b, step) :: t.investment < |Apply(b, step).investments|
    ensures forall c | c in NewCash(b, step) :: c.investment < |Apply(b, step).investments|
  {
    hide ET.Terminated, Expected;
  }

  lemma SuccessorsArePlaced(b: Book, step: Step, i: nat)
    requires Allowed(b, step) && |b.investments| <= i < |Apply(b, step).investments|
    requires Apply(b, step).investments[i].previous.Some?
    ensures HasTxn(NewTxns(b, step), i, Placement)
  {
    hide ET.Terminated, Expected;
    assert NewTxns(b, step)[0] == Txn(i, Placement, step.amount);
  }

  lemma StepKeepsKnown(b: Book, step: Step)
    requires Allowed(b, step) && Known(b)
    ensures Known(Apply(b, step))
  {
    hide Apply, Allowed, NewTxns, NewCash;
    var after := Apply(b, step);
    StepsAppend(b, step);
    NewRowsAreKnown(b, step);
    forall i: nat | i < |after.investments| && after.investments[i].previous.Some?
      ensures HasTxn(after.txns, i, Placement)
    {
      if i < |b.investments| {
        BalancesAfter(b, step, i);
      } else {
        SuccessorsArePlaced(b, step, i);
      }
    }
  }

  ghost predicate AllReconcile(b: Book) {
    Known(b) && forall i: nat | i < |b.investments| :: Reconciles(b, i)
  }

  lemma StepKeepsReconciled(b: Book, step: Step)
    requires Allowed(b, step) && AllReconcile(b)
    ensures AllReconcile(Apply(b, step))
  {
    hide Reconciles, Known, Apply;
    StepKeepsKnown(b, step);
    var after := Apply(b, step);
    forall i: nat | i < |after.investments| ensures Reconciles(after, i) {
      if i < |b.investments| {
        OldInvestmentReconciles(b, step, i);
      } else {
        NewInvestmentReconciles(b, step);
      }
    }
  }

  lemma {:induction false} LedgerReconciles(steps: seq<Step>)
    ensures AllReconcile(After(EMPTY, steps))
  {
    hide AllReconcile, Allowed, Apply;
    if steps == [] {
      EmptyReconciles();
    } else {
      var front := steps[..|steps| - 1];
      LedgerReconciles(front);
      if Allowed(After(EMPTY, front), steps[|steps| - 1]) {
        StepKeepsReconciled(After(EMPTY, front), steps[|steps| - 1]);
      }
    }
  }

  lemma EmptyReconciles()
    ensures AllReconcile(EMPTY)
  {
  }

  // ---------------------------------------------------------------- interest

  /** Over any run, what an investment brought in is the principal returned, the interest received on
      its settlement and what its terminations paid beyond the principal. */
  lemma {:induction false} InflowsAreAccountedFor(steps: seq<Step>, i: nat)
    ensures var b := After(EMPTY, steps);
            Moved(b.cash, i, Inflow)
            == Returned(b.cash, i) + (if i < |b.investments| then b.investments[i].received else 0) + Gains(steps, i)
  {
    hide Allowed, Apply, ET.Terminated, Moved, Returned;
    if steps == [] {
      NoCash([], i, Inflow);
    } else {
      var front, step := steps[..|steps| - 1], steps[|steps| - 1];
      InflowsAreAccountedFor(front, i);
      if Allowed(After(EMPTY, front), step) {
        LedgerReconciles(front);
        StepAccountsForInflows(After(EMPTY, front), step, i);
      }
    }
  }

  lemma StepAccountsForInflows(b: Book, step: Step, i: nat)
    requires Allowed(b, step) && Known(b)
    ensures var after := Apply(b, step);
            && Moved(after.cash, i, Inflow) - Moved(b.cash, i, Inflow)
               == Returned(after.cash, i) - Returned(b.cash, i)
                  + (if i < |after.investments| then after.investments[i].received else 0)
                  - (if i < |b.investments| then b.investments[i].received else 0)
                  + Gain(b, step, i)
  {
    hide Apply, Moved, Returned, TxnSum, NewCash, NewTxns, ET.Terminated, Known;
    if i < |b.investments| {
      SumsAdd(b, step, i);
      NewSums(b, step, i);
      BalancesAfter(b, step, i);
    } else {
      NewcomerBringsNothing(b, step, i);
    }
  }

  lemma NewCashIsOfOldInvestments(b: Book, step: Step)
    requires Allowed(b, step)
    ensures forall c | c in NewCash(b, step) :: c.investment < |b.investments|
  {
    hide ET.Terminated, Expected;
  }

  lemma NewcomerBringsNothing(b: Book, step: Step, i: nat)
    requires Allowed(b, step) && Known(b) && i >= |b.investments|
    ensures var after := Apply(b, step);
            Moved(after.cash, i, Inflow) == Moved(b.cash, i, Inflow) && Returned(after.cash, i) == Returned(b.cash, i)
            && (i < |after.investments| ==> after.investments[i].received == 0)
  {
    hide Apply, Allowed, Moved, Returned, TxnSum, NewCash, NewTxns;
    SumsAfter(b, step, i);
    NewCashIsOfOldInvestments(b, step);
    NoCash(NewCash(b, step), i, Inflow);
    if i < |Apply(b, step).investments| {
      Newcomers(b, step);
    }
  }

  // ---------------------------------------------------------------- one request in figures

  /** Nothing of investment `i` changes: no ledger row, no transaction, no balance. */
  ghost predicate Untouched(b: Book, after: Book, i: nat) {
    && i < |b.investments| && i < |after.investments| && after.investments[i] == b.investments[i]
    && (forall d :: Moved(after.cash, i, d) == Moved(b.cash, i, d))
    && forall kinds :: TxnSum(after.txns, i, kinds) == TxnSum(b.txns, i, kinds)
  }

  lemma OthersAreUntouched(b: Book, step: Step, i: nat)
    requires Allowed(b, step) && !step.Create? && i < |b.investments| && step.i != i
    ensures Untouched(b, Apply(b, step), i)
  {
    SumsAfter(b, step, i);
    BalancesAfter(b, step, i);
    NewRowsAreOwn(b, step, i);
    var cash, txns := NewCash(b, step), NewTxns(b, step);
    hide Apply, NewCash, NewTxns;
    forall d ensures Moved(cash, i, d) == 0 {
      NoCash(cash, i, d);
    }
    forall kinds ensures TxnSum(txns, i, kinds) == 0 {
      NoTransactions(txns, i, kinds);
    }
  }

  lemma NewRowsAreOwn(b: Book, step: Step, i: nat)
    requires Allowed(b, step) && !step.Create? && i < |b.investments| && step.i != i
    ensures forall c | c in NewCash(b, step) :: c.investment != i
    ensures forall t | t in NewTxns(b, step) :: t.investment != i
  {
    hide ET.Terminated, Expected;
  }

  /** A settlement brings in the outstanding principal and the interest: the actual one when it is
      given, the stored projection otherwise.  The transaction says the same, the interest is
      received, and the investment is matured with nothing outstanding. */
  lemma SettlementPaysPrincipalAndInterest(b: Book, step: Step)
    requires step.Settle? && Allowed(b, step)
    ensures var i, before, after := step.i, b.investments[step.i], Next(b, step);
            var interest := match step.actual case Some(x) => x case None => before.expected;
            && Moved(after.cash, i, Inflow) == Moved(b.cash, i, Inflow) + before.principal + interest
            && Moved(after.cash, i, Outflow) == Moved(b.cash, i, Outflow)
            && Returned(after.cash, i) == Returned(b.cash, i) + before.principal
            && TxnSum(after.txns, i, {MaturitySettlement})
               == TxnSum(b.txns, i, {MaturitySettlement}) + before.principal + interest
            && HasTxn(after.txns, i, MaturitySettlement)
            && after.investments[i]
                == before.(received := before.received + interest, principal := 0, status := Matured)
  {
    hide Moved, Returned, TxnSum, NewCash, NewTxns, Apply, HasTxn;
    SumsAdd(b, step, step.i);
    SettlementSums(b, step, step.i);
    SettlementTxns(b, step);
    SettledInvestment(b, step);
    TxnsAfter(b, step, step.i, {MaturitySettlement});
  }

  lemma SettlementTxns(b: Book, step: Step)
    requires step.Settle? && Allowed(b, step)
    ensures TxnSum(NewTxns(b, step), step.i, {MaturitySettlement}) == StepMoves(b, step).incoming
    ensures HasTxn(Apply(b, step).txns, step.i, MaturitySettlement)
  {
    hide TxnSum;
    var t := Txn(step.i, MaturitySettlement, StepMoves(b, step).incoming);
    assert NewTxns(b, step) == [t] && t in Apply(b, step).txns;
    OneTransaction(t, step.i, {MaturitySettlement});
  }

  lemma SettledInvestment(b: Book, step: Step)
    requires step.Settle? && Allowed(b, step)
    ensures var before, m := b.investments[step.i], StepMoves(b, step);
            Apply(b, step).investments
            == b.investments[step.i := before.(received := before.received + m.incoming - m.returned,
                                               principal := 0, status := Matured)]
  {
  }

  /** A termination brings in its net proceeds and takes its amount off the principal; a penalty is
      recorded beside it. */
  lemma TerminationPaysNet(b: Book, step: Step)
    requires step.Terminate? && Allowed(b, step)
    ensures var i, before, after := step.i, b.investments[step.i], Next(b, step);
            var r := ET.Terminated(ContractOf(before), step.amount, step.date);
            && Moved(after.cash, i, Inflow) == Moved(b.cash, i, Inflow) + r.net
            && Moved(after.cash, i, Outflow) == Moved(b.cash, i, Outflow)
            && Returned(after.cash, i) == Returned(b.cash, i) + step.amount
            && TxnSum(after.txns, i, {PenaltyCharge})
               == TxnSum(b.txns, i, {PenaltyCharge}) + (if r.penalty > 0 then r.penalty else 0)
            && TxnSum(after.txns, i, {if step.amount == before.principal then FullTermination else PartialTermination})
               == TxnSum(b.txns, i,
                   {if step.amount == before.principal then FullTermination else PartialTermination}) + r.net
            && after.investments[i].principal == before.principal - step.amount
            && after.investments[i].status
                == (if step.amount == before.principal then Terminated else PartiallyTerminated)
  {
    hide ET.Terminated, Expected, Moved, Returned, TxnSum, NewCash, NewTxns;
    var i := step.i;
    var kind := if step.amount == b.investments[i].principal then FullTermination else PartialTermination;
    SumsAdd(b, step, i);
    TerminationSums(b, step, i);
    TerminationTxns(b, step);
    TxnsAfter(b, step, i, {PenaltyCharge});
    TxnsAfter(b, step, i, {kind});
  }

  lemma TxnsAfter(b: Book, step: Step, i: nat, kinds: set<TxnKind>)
    requires Allowed(b, step)
    ensures TxnSum(Apply(b, step).txns, i, kinds) == TxnSum(b.txns, i, kinds) + TxnSum(NewTxns(b, step), i, kinds)
  {
    SumsAfter(b, step, i);
  }

  lemma TerminationTxns(b: Book, step: Step)
    requires step.Terminate? && Allowed(b, step)
    ensures var i, before := step.i, b.investments[step.i];
            var r := ET.Terminated(ContractOf(before), step.amount, step.date);
            && TxnSum(NewTxns(b, step), i, {PenaltyCharge}) == (if r.penalty > 0 then r.penalty else 0)
            && TxnSum(NewTxns(b, step), i,
                      {if step.amount == before.principal then FullTermination else PartialTermination}) == r.net
  {
    hide ET.Terminated, Expected, TxnSum, Fresh;
    var i, inv := step.i, b.investments[step.i];
    var r := ET.Terminated(ContractOf(inv), step.amount, step.date);
    var kind := if step.amount >= inv.principal then FullTermination else PartialTermination;
    var t, u := Txn(i, kind, r.net), Txn(i, PenaltyCharge, r.penalty);
    assert NewTxns(b, step) == if r.penalty > 0 then [t, u] else [t];
    OneTransaction(t, i, {PenaltyCharge});
    OneTransaction(t, i, {kind});
    TwoTransactions(t, u, i, {PenaltyCharge});
    TwoTransactions(t, u, i, {kind});
  }

  /** A placement pays out the principal and nothing else. */
  lemma PlacementPaysPrincipal(b: Book, step: Step)
    requires step.Place? && Allowed(b, step)
    ensures var i, before, after := step.i, b.investments[step.i], Next(b, step);
            && Moved(after.cash, i, Outflow) == Moved(b.cash, i, Outflow) + before.principal
            && Moved(after.cash, i, Inflow) == Moved(b.cash, i, Inflow)
            && TxnSum(after.txns, i, {Placement}) == TxnSum(b.txns, i, {Placement}) + before.principal
            && after.investments[i] == before.(status := Active)
  {
    var i, amount := step.i, b.investments[step.i].principal;
    var c, t := Cash(i, Outflow, amount, amount), Txn(i, Placement, amount);
    assert NewCash(b, step) == [c] && NewTxns(b, step) == [t];
    SumsAfter(b, step, i);
    OneRow(c, i, Inflow);
    OneRow(c, i, Outflow);
    OneTransaction(t, i, {Placement});
  }

  /** A rollover carries its amount over to a running successor under the original's other terms, with
      the new start, rate and maturity; the original keeps the rest and points to it.  No cash moves:
      one NON_CASH row and the two transactions record it. */
  lemma RolloverCarriesOver(b: Book, step: Step)
    requires step.Roll? && Allowed(b, step)
    ensures var i, next, before, after := step.i, |b.investments|, b.investments[step.i], Next(b, step);
            && |after.investments| == next + 1
            && var left, succ := after.investments[i], after.investments[next];
            && left.principal == before.principal - step.amount && left.original == before.original
            && left.status == (if step.amount == before.principal then RolledOver else PartiallyTerminated)
            && left.rolledTo == Some(next) && left.received == before.received && left.terms == before.terms
            && succ.status == Active && succ.principal == succ.original == step.amount && succ.received == 0
            && succ.ratePct == step.ratePct && succ.maturity == step.maturity && succ.terms.start == step.start
            && succ.terms == before.terms.(start := step.start) && succ.previous == Some(i) && succ.rolledTo == None
            && after.cash == b.cash + [Cash(i, NonCash, step.amount, step.amount)]
            && after.txns == b.txns + [Txn(next, Placement, step.amount), Txn(i, Rollover, step.amount)]
  {
    hide Expected;
  }

  /** A rebooking changes the given terms, adds the top-up to outstanding and original principal, and
      pays it out; everything else about the investment, its status included, stays. */
  lemma RebookingTopsUp(b: Book, step: Step)
    requires step.Rebook? && Allowed(b, step)
    ensures var i, before, after := step.i, b.investments[step.i], Next(b, step);
            && after.investments
               == b.investments[i := before.(ratePct := step.newRate.UnwrapOr(before.ratePct),
                                             maturity := step.newMaturity.UnwrapOr(before.maturity),
                                             principal := before.principal + step.additional,
                                             original := before.original + step.additional,
                                             expected := after.investments[i].expected)]
            && after.rebookings == b.rebookings + [RebookEvent(i, step.key)]
            && (step.additional == 0 ==> after.cash == b.cash && after.txns == b.txns)
            && (step.additional != 0 ==>
                  after.cash == b.cash + [Cash(i, Outflow, step.additional, step.additional)]
                  && after.txns == b.txns + [Txn(i, Rebooking, step.additional)])
  {
    hide Expected;
  }

  /** After any run the stored projection of an unsettled investment is, to the nearest cent, the
      interest on its outstanding principal from start to maturity. */
  lemma ProjectionsInFigures(steps: seq<Step>, i: nat)
    requires i < |After(EMPTY, steps).investments| && !HasTxn(After(EMPTY, steps).txns, i, MaturitySettlement)
    ensures var inv := After(EMPTY, steps).investments[i];
            InterestFigures.NearestCent(
              inv.expected, inv.principal, inv.ratePct,
              InterestFigures.DaysCounted(inv.terms.start, inv.maturity, inv.terms.convention), inv.terms.convention)
  {
    hide After, InterestFigures.NearestCent, InterestFigures.DaysCounted;
    InvestmentInvariants.ProjectionsStayCurrent(steps);
    var inv := After(EMPTY, steps).investments[i];
    InterestFigures.SimpleInterestIsNearest(inv.principal, inv.ratePct, inv.terms.start, inv.maturity,
                                            inv.terms.convention);
  }
}
