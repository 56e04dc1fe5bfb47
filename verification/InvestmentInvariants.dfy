/** What every investment keeps over any run: its lineage, its projection and its relation to
    the original principal. */
module InvestmentInvariants {
  import opened Interest
  import opened ReconciliationModel
  import opened InvestmentBook
  import ET = EarlyTermination

  // ---------------------------------------------------------------- lineage

  /** Rollovers point forward and back between an investment and its successors. */
  ghost predicate Lineage(b: Book) {
    && (forall j: nat | j < |b.investments| && b.investments[j].previous.Some? ::
          b.investments[j].previous.value < j)
    && (forall i: nat | i < |b.investments| && b.investments[i].rolledTo.Some? ::
          var j := b.investments[i].rolledTo.value; i < j < |b.investments| && b.investments[j].previous == Some(i))
  }

  lemma StepKeepsLineage(b: Book, step: Step)
    requires Allowed(b, step) && Lineage(b)
    ensures Lineage(Apply(b, step))
  {
    hide ET.Terminated, Expected;
    var after := Apply(b, step);
    forall j: nat | j < |b.investments| ensures after.investments[j].previous == b.investments[j].previous {
    }
  }

  lemma {:induction false} RunsKeepLineage(steps: seq<Step>)
    ensures Lineage(After(EMPTY, steps))
  {
    hide Allowed, Apply;
    if steps != [] {
      RunsKeepLineage(steps[..|steps| - 1]);
      var b := After(EMPTY, steps[..|steps| - 1]);
      if Allowed(b, steps[|steps| - 1]) {
        StepKeepsLineage(b, steps[|steps| - 1]);
      }
    }
  }

  /** Following the rollovers back always ends: at an investment that was not rolled into. */
  ghost function Origin(b: Book, j: nat): (i: nat)
    requires Lineage(b) && j < |b.investments|
    ensures i <= j && b.investments[i].previous.None?
  {
    match b.investments[j].previous
    case None => j
    case Some(p) => Origin(b, p)
  }

  // ---------------------------------------------------------------- the projected interest

  /** The stored projection is the one the current terms give, except on an investment that
      was settled. */
  ghost predicate ProjectionsCurrent(b: Book) {
    forall i: nat | i < |b.investments| ::
      || b.investments[i].expected == Expected(b.investments[i])
      || HasTxn(b.txns, i, MaturitySettlement)
  }

  lemma StepKeepsProjections(b: Book, step: Step)
    requires Allowed(b, step) && ProjectionsCurrent(b)
    ensures ProjectionsCurrent(Apply(b, step))
  {
    hide ET.Terminated, SimpleInterest;
    var after := Apply(b, step);
    var more := after.txns[|b.txns|..];
    assert after.txns == b.txns + more;
    forall i: nat | i < |after.investments|
      ensures || after.investments[i].expected == Expected(after.investments[i])
              || HasTxn(after.txns, i, MaturitySettlement)
    {
      if step.Settle? {
        assert more[0].investment == step.i && more[0].kind == MaturitySettlement && more[0] in more;
      }
    }
  }

  lemma {:induction false} ProjectionsStayCurrent(steps: seq<Step>)
    ensures ProjectionsCurrent(After(EMPTY, steps))
  {
    hide Allowed, Apply;
    if steps != [] {
      ProjectionsStayCurrent(steps[..|steps| - 1]);
      var b := After(EMPTY, steps[..|steps| - 1]);
      if Allowed(b, steps[|steps| - 1]) {
        StepKeepsProjections(b, steps[|steps| - 1]);
      }
    }
  }

  // ---------------------------------------------------------------- the original principal

  predicate Emptied(inv: Investment) {
    inv.principal == 0 && (inv.status == Matured || inv.status == Terminated || inv.status == RolledOver)
  }

  /** What is outstanding is part of the original principal, unless it is all gone. */
  ghost predicate WithinOriginals(b: Book) {
    forall i: nat | i < |b.investments| ::
      b.investments[i].principal <= b.investments[i].original || Emptied(b.investments[i])
  }

  lemma StepKeepsWithinOriginals(b: Book, step: Step)
    requires Allowed(b, step) && WithinOriginals(b)
    ensures WithinOriginals(Apply(b, step))
  {
    hide ET.Terminated, Expected;
  }

  /** Over any run, also with negative top-ups, no investment has more outstanding than its
      original principal unless it is emptied. */
  lemma {:induction false} RunsStayWithinOriginals(steps: seq<Step>)
    ensures WithinOriginals(After(EMPTY, steps))
  {
    hide Allowed, Apply;
    if steps != [] {
      RunsStayWithinOriginals(steps[..|steps| - 1]);
      var b := After(EMPTY, steps[..|steps| - 1]);
      if Allowed(b, steps[|steps| - 1]) {
        StepKeepsWithinOriginals(b, steps[|steps| - 1]);
      }
    }
  }

  // ---------------------------------------------------------------- principal below zero

  ghost predicate NoneNegative(b: Book) {
    forall i: nat | i < |b.investments| :: b.investments[i].principal >= 0
  }

  /** A rebooking that takes out more than is outstanding. */
  predicate Overdraws(b: Book, step: Step) {
    step.Rebook? && Allowed(b, step) && b.investments[step.i].principal + step.additional < 0
  }

  lemma StepKeepsNoneNegativeExactlyWhen(b: Book, step: Step)
    requires Allowed(b, step) && NoneNegative(b)
    ensures NoneNegative(Apply(b, step)) <==> !Overdraws(b, step)
  {
    hide ET.Terminated, Expected;
    if step.Rebook? {
      assert Apply(b, step).investments[step.i].principal == b.investments[step.i].principal + step.additional;
    }
  }

  /** No investment's principal is negative after any prefix of the run. */
  ghost predicate AlwaysNoneNegative(start: Book, steps: seq<Step>) {
    forall n | 0 <= n <= |steps| :: NoneNegative(After(start, steps[..n]))
  }

  ghost predicate NeverOverdraws(start: Book, steps: seq<Step>) {
    forall n | 0 <= n < |steps| :: !Overdraws(After(start, steps[..n]), steps[n])
  }

  lemma NextKeepsNoneNegativeExactlyWhen(start: Book, steps: seq<Step>, n: nat)
    requires n < |steps| && NoneNegative(After(start, steps[..n]))
    ensures NoneNegative(After(start, steps[..n + 1])) <==> !Overdraws(After(start, steps[..n]), steps[n])
  {
    hide NoneNegative, Apply, Allowed, After;
    assert steps[..n + 1] == steps[..n] + [steps[n]];
    AfterOneMore(start, steps[..n], steps[n]);
    if Allowed(After(start, steps[..n]), steps[n]) {
      StepKeepsNoneNegativeExactlyWhen(After(start, steps[..n]), steps[n]);
    }
  }

  lemma {:induction false} NoneNegativeUpTo(start: Book, steps: seq<Step>, n: nat)
    requires n <= |steps| && NoneNegative(start) && NeverOverdraws(start, steps)
    ensures NoneNegative(After(start, steps[..n]))
  {
    hide NoneNegative, Overdraws;
    if n > 0 {
      hide After;
      NoneNegativeUpTo(start, steps, n - 1);
      NextKeepsNoneNegativeExactlyWhen(start, steps, n - 1);
    }
  }

  /** Over any run outstanding principal stays at or above zero throughout exactly when no
      rebooking takes out more than is outstanding. */
  lemma NoneNegativeExactlyWhen(steps: seq<Step>)
    ensures AlwaysNoneNegative(EMPTY, steps) <==> NeverOverdraws(EMPTY, steps)
  {
    assert NoneNegative(EMPTY);
    hide NoneNegative, After, Overdraws;
    if AlwaysNoneNegative(EMPTY, steps) {
      forall n | 0 <= n < |steps| ensures !Overdraws(After(EMPTY, steps[..n]), steps[n]) {
        NextKeepsNoneNegativeExactlyWhen(EMPTY, steps, n);
      }
    } else if NeverOverdraws(EMPTY, steps) {
      forall n | 0 <= n <= |steps| ensures NoneNegative(After(EMPTY, steps[..n])) {
        NoneNegativeUpTo(EMPTY, steps, n);
      }
    }
  }

  /** Nothing refuses such a rebooking: a running investment can be taken one cent below zero. */
  lemma TopUpBelowZeroIsAccepted(b: Book, i: nat)
    requires i < |b.investments| && Running(b.investments[i]) && b.investments[i].principal >= 0
    ensures var step := Rebook(i, None, None, -b.investments[i].principal - 1, None, None);
            Allowed(b, step) && Apply(b, step).investments[i].principal == -1
  {
    hide Expected;
  }
}
