/** The life of an investment: which statuses follow which, that ends are final, and that it is
    placed once and settled once. */
module InvestmentLife {
  import opened ReconciliationModel
  import opened Calendar
  import opened InvestmentBook
  import ET = EarlyTermination

  /** The edges of the life of an investment, and staying where it is. */
  predicate MayFollow(from: Status, to: Status) {
    || to == from
    || (from == Draft && to == Submitted) || (from == Submitted && to == UnderReview)
    || (from == UnderReview && to == Approved) || (from == Approved && to == PlacementPending)
    || (from == PlacementPending && to == Active)
    || (to == Cancelled && from in {Draft, Submitted, UnderReview, Approved, PlacementPending})
    || (to == Rejected && from in {Submitted, UnderReview})
    || (from == Active && to == PartiallyTerminated)
    || (to in {Matured, Rebooked} && from in {Active, PartiallyTerminated})
    || (to in {Terminated, RolledOver} && from in {Active, PartiallyTerminated, Matured})
  }

  lemma StatusesFollow(b: Book, i: nat, to: Status)
    requires i < |b.investments|
    ensures Allowed(b, ChangeStatus(i, to)) <==> MayFollow(b.investments[i].status, to)
  {
  }

  predicate Ended(s: Status) {
    s == Terminated || s == RolledOver || s == Rebooked || s == Cancelled || s == Rejected
  }

  lemma StepKeepsEnded(b: Book, step: Step, i: nat)
    requires Allowed(b, step) && i < |b.investments| && Ended(b.investments[i].status)
    ensures i < |Apply(b, step).investments| && Apply(b, step).investments[i] == b.investments[i]
  {
    hide ET.Terminated, Expected;
  }

  /** An investment that has ended is never changed again, whatever is requested. */
  lemma {:induction false} EndsAreFinal(start: Book, steps: seq<Step>, i: nat)
    requires i < |start.investments| && Ended(start.investments[i].status)
    ensures i < |After(start, steps).investments| && After(start, steps).investments[i] == start.investments[i]
  {
    hide Allowed, Apply;
    if steps != [] {
      var b := After(start, steps[..|steps| - 1]);
      EndsAreFinal(start, steps[..|steps| - 1], i);
      if Allowed(b, steps[|steps| - 1]) {
        StepKeepsEnded(b, steps[|steps| - 1], i);
      }
    }
  }

  // ---------------------------------------------------------------- once each

  function Count(txns: seq<Txn>, i: nat, kind: TxnKind): nat {
    if txns == [] then 0
    else
      var t := txns[|txns| - 1];
      Count(txns[..|txns| - 1], i, kind) + if t.investment == i && t.kind == kind then 1 else 0
  }

  lemma {:induction false} CountsWhatThereIs(txns: seq<Txn>, i: nat, kind: TxnKind)
    ensures HasTxn(txns, i, kind) <==> Count(txns, i, kind) > 0
  {
    if txns != [] {
      var front := txns[..|txns| - 1];
      CountsWhatThereIs(front, i, kind);
      assert txns == front + [txns[|txns| - 1]];
    }
  }

  lemma {:induction false} CountOfMore(txns: seq<Txn>, more: seq<Txn>, i: nat, kind: TxnKind)
    ensures Count(txns + more, i, kind) == Count(txns, i, kind) + Count(more, i, kind)
  {
    if more == [] {
      assert txns + more == txns;
    } else {
      CountOfMore(txns, more[..|more| - 1], i, kind);
      assert (txns + more)[..|txns + more| - 1] == txns + more[..|more| - 1];
    }
  }

  predicate Once(kind: TxnKind) {
    kind == Placement || kind == MaturitySettlement
  }

  ghost predicate AtMostOnce(b: Book) {
    && (forall t | t in b.txns :: t.investment < |b.investments|)
    && forall i, kind | Once(kind) :: Count(b.txns, i, kind) <= 1
  }

  lemma CountOfFew(t: Txn, u: Txn, i: nat, kind: TxnKind)
    ensures Count([], i, kind) == 0
    ensures Count([t], i, kind) == if t.investment == i && t.kind == kind then 1 else 0
    ensures Count([t, u], i, kind) == Count([t], i, kind) + if u.investment == i && u.kind == kind then 1 else 0
  {
    assert [t][..0] == [] && [t, u][..1] == [t];
  }

  /** At most two transactions are added, the second never a placement or a settlement. */
  lemma StepAddsFew(b: Book, step: Step) returns (more: seq<Txn>)
    requires Allowed(b, step)
    ensures Apply(b, step).txns == b.txns + more && |more| <= 2
    ensures |more| == 2 ==> !Once(more[1].kind)
    ensures more != [] && more[0].kind == Placement ==> more[0].investment == |b.investments| || step.Place?
    ensures more != [] && step.Place? ==> more[0].investment == step.i && more[0].kind == Placement
    ensures more != [] && more[0].kind == MaturitySettlement ==> step.Settle? && more[0].investment == step.i
  {
    hide ET.Terminated, Expected, Fresh;
    more := Apply(b, step).txns[|b.txns|..];
  }

  /** What a step adds is a placement or a settlement only where there is none. */
  lemma StepAddsOnce(b: Book, step: Step, i: nat, kind: TxnKind) returns (more: seq<Txn>)
    requires Allowed(b, step) && AtMostOnce(b) && Once(kind)
    ensures Apply(b, step).txns == b.txns + more
    ensures Count(more, i, kind) == 0 || (Count(more, i, kind) == 1 && !HasTxn(b.txns, i, kind))
  {
    hide Apply, Count;
    more := StepAddsFew(b, step);
    if more != [] {
      var last := more[|more| - 1];
      assert more == if |more| == 1 then [more[0]] else [more[0], last];
      CountOfFew(more[0], last, i, kind);
    } else {
      CountOfFew(Txn(0, Rollover, 0), Txn(0, Rollover, 0), i, kind);
    }
  }

  lemma StepKeepsTxnsKnown(b: Book, step: Step)
    requires Allowed(b, step) && forall t | t in b.txns :: t.investment < |b.investments|
    ensures forall t | t in Apply(b, step).txns :: t.investment < |Apply(b, step).investments|
  {
    hide ET.Terminated, Expected, Fresh;
  }

  lemma StepKeepsAtMostOnce(b: Book, step: Step)
    requires Allowed(b, step) && AtMostOnce(b)
    ensures AtMostOnce(Apply(b, step))
  {
    hide Apply, Allowed;
    StepKeepsTxnsKnown(b, step);
    forall i, kind | Once(kind) ensures Count(Apply(b, step).txns, i, kind) <= 1 {
      var more := StepAddsOnce(b, step, i, kind);
      CountOfMore(b.txns, more, i, kind);
      CountsWhatThereIs(b.txns, i, kind);
    }
  }

  /** Over any run no investment is placed twice and none is settled twice. */
  lemma {:induction false} PlacedAndSettledOnce(steps: seq<Step>)
    ensures AtMostOnce(After(EMPTY, steps))
  {
    hide Allowed, Apply, AtMostOnce;
    if steps == [] {
      NothingIsOnce();
    } else {
      var b := After(EMPTY, steps[..|steps| - 1]);
      PlacedAndSettledOnce(steps[..|steps| - 1]);
      if Allowed(b, steps[|steps| - 1]) {
        StepKeepsAtMostOnce(b, steps[|steps| - 1]);
      }
    }
  }

  lemma NothingIsOnce()
    ensures AtMostOnce(EMPTY)
  {
  }

  // ---------------------------------------------------------------- what money needs

  /** A request is carried out exactly when: what is paid out, on a placement or a top-up, is available
      and goes to an approved or running investment; what comes back, by termination or rollover, was
      outstanding, and all of it where parts are not allowed; nothing is settled before maturity; and
      nothing is placed, settled or rebooked under one key twice. */
  lemma RequestsAreCarriedOutExactlyWhen(b: Book, step: Step)
    requires !step.Create? ==> step.i < |b.investments|
    ensures Allowed(b, step) <==>
            match step
            case Create(terms, principal, _, maturity) => principal > 0 && Ordinal(terms.start) <= Ordinal(maturity)
            case Edit(i, newRate, newMaturity) =>
              b.investments[i].status == Draft && !(newRate == None && newMaturity == None)
            case ChangeStatus(i, to) => MayFollow(b.investments[i].status, to)
            case Place(i, date, sourceAllowed, available) =>
              var inv := b.investments[i];
              && inv.status in {Approved, PlacementPending} && sourceAllowed && 0 < inv.principal
              && inv.principal <= available.UnwrapOr(inv.principal)
              && Ordinal(date) <= Ordinal(inv.maturity) && Ordinal(inv.terms.start) <= Ordinal(inv.maturity)
              && Count(b.txns, i, Placement) == 0
            case Terminate(i, amount, _) =>
              var inv := b.investments[i];
              && inv.status in {Active, PartiallyTerminated} && inv.terms.early
              && 0 < amount <= inv.principal && (inv.terms.partial || amount == inv.principal)
            case Settle(i, date, _) =>
              var inv := b.investments[i];
              && inv.status in {Active, PartiallyTerminated} && Ordinal(inv.maturity) <= Ordinal(date)
              && Count(b.txns, i, MaturitySettlement) == 0
            case Roll(i, amount, _, _, _) =>
              var inv := b.investments[i];
              && inv.status in {Active, PartiallyTerminated, Matured} && inv.terms.rollover
              && 0 < amount <= inv.principal
            case Rebook(i, _, _, additional, key, available) =>
              && b.investments[i].status in {Active, PartiallyTerminated}
              && (additional <= 0 || additional <= available.UnwrapOr(additional))
              && (key == None || forall e | e in b.rebookings && e.investment == i :: e.key != key)
  {
    hide Ordinal;
    match step
    case Create(terms, _, _, maturity) => EarlierMeansSmallerOrdinal(maturity, terms.start);
    case ChangeStatus(i, to) => StatusesFollow(b, i, to);
    case Place(i, date, _, _) =>
      EarlierMeansSmallerOrdinal(b.investments[i].maturity, date);
      EarlierMeansSmallerOrdinal(b.investments[i].maturity, b.investments[i].terms.start);
      CountsWhatThereIs(b.txns, i, Placement);
    case Settle(i, date, _) =>
      EarlierMeansSmallerOrdinal(date, b.investments[i].maturity);
      CountsWhatThereIs(b.txns, i, MaturitySettlement);
    case Rebook(i, _, _, _, key, _) =>
      assert forall e | e in b.rebookings && e.investment == i && e.key == key :: e == RebookEvent(i, key);
    case _ =>
  }
}
