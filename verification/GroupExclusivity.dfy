/** Live groups never share a row: after any execution no bank row and no ledger row is in
    two pending or accepted groups (transfer groups apart, which are a namespace of their own). */
module GroupExclusivity {
  import opened RowOrder
  import opened GroupSearch
  import opened ReconciliationModel
  import opened AdvancedMatching
  import OneToOne = OneToOneMatching

  datatype Side = Banks | Ledgers

  function Members(g: Group, side: Side): seq<Id> {
    if side == Banks then g.banks else g.ledgers
  }

  function Used(found: Found, side: Side): set<Id> {
    if side == Banks then found.banks else found.ledgers
  }

  predicate Counts(g: Group) {
    GroupLive(g) && g.relation != InternalTransfer
  }

  predicate Holds(groups: seq<Group>, side: Side, i: int, id: Id) {
    0 <= i < |groups| && Counts(groups[i]) && id in Members(groups[i], side)
  }

  ghost predicate Exclusive(groups: seq<Group>, side: Side) {
    forall i, j, id | Holds(groups, side, i, id) && Holds(groups, side, j, id) :: i == j
  }

  predicate OfEntity(s: Setting, side: Side, id: Id) {
    if side == Banks then id in s.banks && s.banks[id].entity == s.scope.entity
    else id in s.ledgers && s.ledgers[id].entity == s.scope.entity
  }

  /** Rows of the entity that are held by a live group are claimed. */
  ghost predicate Covered(groups: seq<Group>, s: Setting, side: Side, claimed: set<Id>) {
    forall i, id | Holds(groups, side, i, id) && OfEntity(s, side, id) :: id in claimed
  }

  ghost predicate Safe(groups: seq<Group>, s: Setting, side: Side, claimed: set<Id>) {
    Exclusive(groups, side) && Covered(groups, s, side, claimed)
  }

  // ---------------------------------------------------------------- storing groups

  lemma SafeWithMore(groups: seq<Group>, s: Setting, side: Side, claimed: set<Id>, more: set<Id>)
    requires Safe(groups, s, side, claimed) && claimed <= more
    ensures Safe(groups, s, side, more)
  {
  }

  lemma AppendIsSafe(groups: seq<Group>, g: Group, s: Setting, side: Side, claimed: set<Id>, after: set<Id>)
    requires Safe(groups, s, side, claimed) && claimed <= after
    requires Counts(g) ==> forall id | id in Members(g, side) :: OfEntity(s, side, id) && id !in claimed && id in after
    ensures Safe(groups + [g], s, side, after)
  {
    hide Members, OfEntity, Counts;
    assert forall i, id ::
        Holds(groups + [g], side, i, id)
        <==> Holds(groups, side, i, id) || (i == |groups| && Counts(g) && id in Members(g, side));
    assert forall id :: !Holds(groups, side, |groups|, id);
    hide Holds;
  }

  lemma ProposeIsSafe(p: Progress, g: Group, s: Setting, side: Side, base: set<Id>)
    requires Safe(p.groups, s, side, base + Used(p.found, side))
    requires forall id | id in Members(g, side) :: OfEntity(s, side, id) && id !in base + Used(p.found, side)
    ensures var q := Propose(p, g); Safe(q.groups, s, side, base + Used(q.found, side))
  {
    hide Safe, OfEntity;
    if !Known(p.groups, g) {
      AppendIsSafe(p.groups, g, s, side, base + Used(p.found, side), base + Used(Propose(p, g).found, side));
    }
  }

  lemma {:induction false} StoringRivalsIsSafe(
    groups: seq<Group>, rivals: seq<Group>, s: Setting, side: Side, claimed: set<Id>)
    requires Safe(groups, s, side, claimed)
    requires forall g | g in rivals :: g.status == Ambiguous
    ensures Safe(PersistedAll(groups, rivals), s, side, claimed)
  {
    hide Safe;
    if rivals != [] {
      StoringRivalsIsSafe(groups, rivals[..|rivals| - 1], s, side, claimed);
      AppendIsSafe(PersistedAll(groups, rivals[..|rivals| - 1]), rivals[|rivals| - 1], s, side, claimed, claimed);
    }
  }

  // ---------------------------------------------------------------- candidates

  lemma LedgerCandidatesArePooled(b: BankRow, ledgers: LedgerTable, cfg: Config, claimed: set<Id>, l: LedgerRow)
    requires l in LedgerCandidates(b, ledgers, cfg, claimed)
    ensures l in LedgerPool(b, ledgers, cfg, claimed)
  {
    assert l in Elements(InOrder(LedgerPool(b, ledgers, cfg, claimed), LedgerKey()));
  }

  lemma BankCandidatesArePooled(l: LedgerRow, s: Setting, grouped: set<Id>, b: BankRow)
    requires b in BankCandidates(l, s, grouped)
    ensures b in BankPool(l, s, grouped)
  {
    assert b in Elements(InOrder(BankPool(l, s, grouped), OneToOne.BankKey()));
  }

  lemma AcceptedAreCandidates<T>(rows: seq<T>, target: int, allowed: real, amount: T -> int, accepted: seq<T>)
    requires |rows| >= 2 && Answer(rows, target, allowed, amount) == Accept(accepted)
    ensures |accepted| >= 2 && forall x | x in accepted :: x in rows
  {
    SearchIsSound(rows, target, allowed, amount, accepted);
  }

  // ---------------------------------------------------------------- the phases

  ghost predicate SafeBoth(groups: seq<Group>, s: Setting, banks: set<Id>, ledgers: set<Id>) {
    Safe(groups, s, Banks, banks) && Safe(groups, s, Ledgers, ledgers)
  }

  lemma OneToManyTurnIsSafe(p: Progress, s: Setting, b: BankRow, base: set<Id>, grouped: set<Id>)
    requires SafeBoth(p.groups, s, grouped + p.found.banks, base + p.found.ledgers)
    requires OfEntity(s, Banks, b.id) && b.entity == s.scope.entity && b.id !in grouped + p.found.banks
    ensures var q := OneToManyTurn(p, s, b, base);
            && SafeBoth(q.groups, s, grouped + q.found.banks, base + q.found.ledgers)
            && q.found.banks <= p.found.banks + {b.id}
  {
    hide Safe, LedgerCandidates, Answer, PersistedAll, OneToOne.BankKey, LedgerKey;
    var claimed := base + p.found.ledgers;
    var candidates := LedgerCandidates(b, s.ledgers, s.cfg, claimed);
    if |candidates| >= 2 {
      var allowed := Allowance(b.amount, s.cfg.amountTolerancePct);
      match Answer(candidates, b.amount, allowed, LedgerAmount())
      case Accept(rows) =>
        AcceptedAreCandidates(candidates, b.amount, allowed, LedgerAmount(), rows);
        var g := LedgerGroup(s.run, b, Pending, rows);
        forall id | id in g.ledgers ensures OfEntity(s, Ledgers, id) && id !in claimed {
          var i :| 0 <= i < |rows| && rows[i].id == id;
          assert rows[i] in rows;
          LedgerCandidatesArePooled(b, s.ledgers, s.cfg, claimed, rows[i]);
        }
        ProposeIsSafe(p, g, s, Banks, grouped);
        ProposeIsSafe(p, g, s, Ledgers, base);
      case Compete(alternates) =>
        var rivals := LedgerRivals(s.run, b, alternates);
        StoringRivalsIsSafe(p.groups, rivals, s, Banks, grouped + p.found.banks);
        StoringRivalsIsSafe(p.groups, rivals, s, Ledgers, claimed);
      case NoGrouping =>
    }
  }

  /** Rows fetched in order: each once, none in `taken`, all of the run's entity. */
  ghost predicate FreshBanks(s: Setting, rows: seq<BankRow>, taken: set<Id>) {
    && (forall b | b in rows :: OfEntity(s, Banks, b.id) && b.entity == s.scope.entity && b.id !in taken)
    && DifferentBanks(rows)
  }

  ghost predicate FreshLedgers(s: Setting, rows: seq<LedgerRow>, taken: set<Id>) {
    && (forall l | l in rows :: OfEntity(s, Ledgers, l.id) && l.entity == s.scope.entity && l.id !in taken)
    && DifferentLedgers(rows)
  }

  lemma {:induction false} OneToManyRowsAreSafe(
    start: Progress, s: Setting, rows: seq<BankRow>, base: set<Id>, grouped: set<Id>)
    requires SafeBoth(start.groups, s, grouped, base) && start.found.banks == {} && start.found.ledgers == {}
    requires FreshBanks(s, rows, grouped)
    ensures var q := OneToManyRows(start, s, rows, base);
            && SafeBoth(q.groups, s, grouped + q.found.banks, base + q.found.ledgers)
            && q.found.banks <= Elements(BankIds(rows))
  {
    hide SafeBoth, OneToManyTurn, OfEntity;
    if rows == [] {
      assert grouped + {} == grouped && base + {} == base;
    } else {
      var front, b := rows[..|rows| - 1], rows[|rows| - 1];
      OneToManyRowsAreSafe(start, s, front, base, grouped);
      var p := OneToManyRows(start, s, front, base);
      assert BankIds(rows)[..|front|] == BankIds(front);
      assert b in rows;
      OneToManyTurnIsSafe(p, s, b, base, grouped);
    }
  }

  lemma ManyToOneTurnIsSafe(p: Progress, s: Setting, l: LedgerRow, base: set<Id>, claimed: set<Id>)
    requires SafeBoth(p.groups, s, base + p.found.banks, claimed + p.found.ledgers)
    requires OfEntity(s, Ledgers, l.id) && l.id !in claimed + p.found.ledgers
    ensures var q := ManyToOneTurn(p, s, l, base);
            && SafeBoth(q.groups, s, base + q.found.banks, claimed + q.found.ledgers)
            && q.found.ledgers <= p.found.ledgers + {l.id}
  {
    hide Safe, BankCandidates, Answer, PersistedAll, OneToOne.BankKey, LedgerKey;
    var grouped := base + p.found.banks;
    var candidates := BankCandidates(l, s, grouped);
    if |candidates| >= 2 {
      var allowed := Allowance(l.amount, s.cfg.amountTolerancePct);
      match Answer(candidates, l.amount, allowed, BankAmount())
      case Accept(rows) =>
        AcceptedAreCandidates(candidates, l.amount, allowed, BankAmount(), rows);
        var g := BankGroup(s.run, l, Pending, rows[0], rows);
        forall id | id in g.banks ensures OfEntity(s, Banks, id) && id !in grouped {
          var i :| 0 <= i < |rows| && rows[i].id == id;
          assert rows[i] in rows;
          BankCandidatesArePooled(l, s, grouped, rows[i]);
        }
        ProposeIsSafe(p, g, s, Banks, base);
        ProposeIsSafe(p, g, s, Ledgers, claimed);
      case Compete(alternates) =>
        var rivals := BankRivals(s.run, l, candidates[0], alternates);
        StoringRivalsIsSafe(p.groups, rivals, s, Banks, grouped);
        StoringRivalsIsSafe(p.groups, rivals, s, Ledgers, claimed + p.found.ledgers);
      case NoGrouping =>
    }
  }

  lemma {:induction false} ManyToOneRowsAreSafe(
    start: Progress, s: Setting, rows: seq<LedgerRow>, base: set<Id>, claimed: set<Id>)
    requires SafeBoth(start.groups, s, base, claimed) && start.found.banks == {} && start.found.ledgers == {}
    requires FreshLedgers(s, rows, claimed)
    ensures var q := ManyToOneRows(start, s, rows, base);
            && SafeBoth(q.groups, s, base + q.found.banks, claimed + q.found.ledgers)
            && q.found.ledgers <= Elements(LedgerIds(rows))
  {
    hide SafeBoth, ManyToOneTurn, OfEntity;
    if rows == [] {
      assert claimed + {} == claimed && base + {} == base;
    } else {
      var front, l := rows[..|rows| - 1], rows[|rows| - 1];
      ManyToOneRowsAreSafe(start, s, front, base, claimed);
      var p := ManyToOneRows(start, s, front, base);
      assert LedgerIds(rows)[..|front|] == LedgerIds(front);
      assert l in rows;
      ManyToOneTurnIsSafe(p, s, l, base, claimed);
    }
  }

  lemma {:induction false} TransfersAreSafe(
    start: Progress, s: Setting, primaries: seq<LedgerRow>, partners: seq<Option<LedgerRow>>, side: Side,
    claimed: set<Id>)
    requires |primaries| == |partners| && Safe(start.groups, s, side, claimed)
    ensures Safe(TransferRows(start, s, primaries, partners).groups, s, side, claimed)
  {
    hide Safe;
    if primaries != [] {
      var front := TransferRows(start, s, primaries[..|primaries| - 1], partners[..|partners| - 1]);
      TransfersAreSafe(start, s, primaries[..|primaries| - 1], partners[..|partners| - 1], side, claimed);
      var primary, partner := primaries[|primaries| - 1], partners[|partners| - 1];
      if partner.Some? {
        AppendIsSafe(front.groups, TransferGroup(s.run, primary, partner.value), s, side, claimed, claimed);
      }
    }
  }

  lemma FxTurnIsSafe(p: Progress, s: Setting, b: BankRow, choice: Option<LedgerRow>, base: set<Id>, grouped: set<Id>)
    requires SafeBoth(p.groups, s, grouped + p.found.banks, base + p.found.ledgers)
    requires OfEntity(s, Banks, b.id) && b.entity == s.scope.entity && b.id !in grouped + p.found.banks
    requires FxChoice(b, s, base + p.found.ledgers, choice)
    ensures var q := FxTurn(p, s, b, choice);
            && SafeBoth(q.groups, s, grouped + q.found.banks, base + q.found.ledgers)
            && q.found.banks <= p.found.banks + {b.id}
  {
    hide Safe, FxAgrees;
    if choice.Some? {
      ProposeIsSafe(p, FxGroup(s.run, b, choice.value), s, Banks, grouped);
      ProposeIsSafe(p, FxGroup(s.run, b, choice.value), s, Ledgers, base);
    }
  }

  lemma {:induction false} FxRowsAreSafe(
    start: Progress, s: Setting, rows: seq<BankRow>, choices: seq<Option<LedgerRow>>, base: set<Id>, grouped: set<Id>)
    requires |rows| == |choices| && PossibleFx(start, s, rows, choices, base)
    requires SafeBoth(start.groups, s, grouped, base) && start.found.banks == {} && start.found.ledgers == {}
    requires FreshBanks(s, rows, grouped)
    ensures var q := FxRows(start, s, rows, choices);
            && SafeBoth(q.groups, s, grouped + q.found.banks, base + q.found.ledgers)
            && q.found.banks <= Elements(BankIds(rows))
  {
    hide SafeBoth, FxTurn, FxChoice, OfEntity;
    if rows == [] {
      assert grouped + {} == grouped && base + {} == base;
    } else {
      var front, b := rows[..|rows| - 1], rows[|rows| - 1];
      FxRowsAreSafe(start, s, front, choices[..|choices| - 1], base, grouped);
      var p := FxRows(start, s, front, choices[..|choices| - 1]);
      assert BankIds(rows)[..|front|] == BankIds(front);
      assert b in rows;
      FxTurnIsSafe(p, s, b, choices[|choices| - 1], base, grouped);
    }
  }

  // ---------------------------------------------------------------- an execution

  /** The bank rows this run recorded as having no candidate belong to its entity. */
  ghost predicate UnmatchedAreLocal(s: Setting) {
    forall id | id in UnmatchedBanks(s) && id in s.banks :: s.banks[id].entity == s.scope.entity
  }

  lemma BankListing(rows: set<BankRow>, banks: BankTable)
    requires rows <= banks.Values
    ensures Separates(rows, OneToOne.BankKey())
    ensures forall b | b in InOrder(rows, OneToOne.BankKey()) :: b in rows
    ensures DifferentBanks(InOrder(rows, OneToOne.BankKey()))
  {
    hide InOrder;
    assert Separates(rows, OneToOne.BankKey());
    ListedOnce(rows, OneToOne.BankKey());
    var listed := InOrder(rows, OneToOne.BankKey());
    assert forall i | 0 <= i < |listed| :: listed[i] in listed;
  }

  lemma LedgerListing(rows: set<LedgerRow>, ledgers: LedgerTable)
    requires rows <= ledgers.Values
    ensures Separates(rows, LedgerKey())
    ensures forall l | l in InOrder(rows, LedgerKey()) :: l in rows
    ensures DifferentLedgers(InOrder(rows, LedgerKey()))
  {
    hide InOrder;
    assert Separates(rows, LedgerKey());
    ListedOnce(rows, LedgerKey());
    var listed := InOrder(rows, LedgerKey());
    assert forall i | 0 <= i < |listed| :: listed[i] in listed;
  }

  lemma ActiveRowsAreFresh(s: Setting, ids: set<Id>, taken: set<Id>)
    requires ids <= UnmatchedBanks(s) && ids !! taken && UnmatchedAreLocal(s)
    ensures FreshBanks(s, InOrder(ActiveRows(s.banks, ids), OneToOne.BankKey()), taken)
  {
    BankListing(ActiveRows(s.banks, ids), s.banks);
    hide UnmatchedBanks, InOrder, OneToOne.BankKey, Separates;
  }

  lemma GroupableLedgersAreFresh(s: Setting, claimed: set<Id>)
    ensures FreshLedgers(s, InOrder(GroupableLedgers(s, claimed), LedgerKey()), claimed)
  {
    LedgerListing(GroupableLedgers(s, claimed), s.ledgers);
    hide SharesWithSeveral, OneToOne.ScopeRows, InOrder, LedgerKey, Separates;
  }

  lemma StoredClaimsCover(groups: seq<Group>, s: Setting)
    requires Exclusive(groups, Banks) && Exclusive(groups, Ledgers)
    ensures SafeBoth(groups, s, ClaimedBanks(groups, s.banks, s.scope.entity),
            ClaimedLedgers(groups, s.ledgers, s.scope.entity))
  {
    hide Exclusive;
    var banks := ClaimedBanks(groups, s.banks, s.scope.entity);
    var ledgers := ClaimedLedgers(groups, s.ledgers, s.scope.entity);
    forall i, id | Holds(groups, Banks, i, id) && OfEntity(s, Banks, id) ensures id in banks {
      assert groups[i] in groups;
    }
    forall i, id | Holds(groups, Ledgers, i, id) && OfEntity(s, Ledgers, id) ensures id in ledgers {
      assert groups[i] in groups;
    }
  }

  lemma OneToManyPhaseIsSafe(groups: seq<Group>, s: Setting, unmatched: set<Id>, base: set<Id>, grouped: set<Id>)
    requires SafeBoth(groups, s, grouped, base) && UnmatchedAreLocal(s)
    requires unmatched <= UnmatchedBanks(s) && unmatched !! grouped
    ensures var q := OneToManyPhase(groups, s, unmatched, base);
            SafeBoth(q.groups, s, grouped + q.found.banks, base + q.found.ledgers)
  {
    hide SafeBoth, OneToManyRows, OfEntity, UnmatchedBanks, UnmatchedAreLocal;
    assert grouped + {} == grouped && base + {} == base;
    ActiveRowsAreFresh(s, unmatched, grouped);
    OneToManyRowsAreSafe(Begin(groups), s, InOrder(ActiveRows(s.banks, unmatched), OneToOne.BankKey()), base, grouped);
  }

  lemma ManyToOnePhaseIsSafe(groups: seq<Group>, s: Setting, claimed: set<Id>, grouped: set<Id>)
    requires SafeBoth(groups, s, grouped, claimed)
    ensures var q := ManyToOnePhase(groups, s, claimed, grouped);
            SafeBoth(q.groups, s, grouped + q.found.banks, claimed + q.found.ledgers)
  {
    hide SafeBoth, ManyToOneRows, OfEntity, GroupableLedgers;
    assert grouped + {} == grouped && claimed + {} == claimed;
    GroupableLedgersAreFresh(s, claimed);
    ManyToOneRowsAreSafe(Begin(groups), s, InOrder(GroupableLedgers(s, claimed), LedgerKey()), grouped, claimed);
  }

  lemma TwoPhasesAreSafe(groups: seq<Group>, s: Setting)
    requires Exclusive(groups, Banks) && Exclusive(groups, Ledgers) && UnmatchedAreLocal(s)
    ensures var two := TwoPhases(groups, s); SafeBoth(two.groups, s, two.banks, SuggestionClaims(s) + two.ledgers)
  {
    hide Safe, OneToManyPhase, ManyToOnePhase, UnmatchedAreLocal, UnmatchedBanks, SuggestionClaims, ClaimedLedgers,
         ClaimedBanks;
    var ledgers := ClaimedLedgers(groups, s.ledgers, s.scope.entity);
    var banks := ClaimedBanks(groups, s.banks, s.scope.entity);
    var claims := SuggestionClaims(s);
    StoredClaimsCover(groups, s);
    SafeWithMore(groups, s, Ledgers, ledgers, claims + ledgers);
    OneToManyPhaseIsSafe(groups, s, UnmatchedBanks(s) - banks, claims + ledgers, banks);
    var first := OneToManyPhase(groups, s, UnmatchedBanks(s) - banks, claims + ledgers);
    assert claims + ledgers + first.found.ledgers == claims + (ledgers + first.found.ledgers);
    ManyToOnePhaseIsSafe(first.groups, s, claims + (ledgers + first.found.ledgers), banks + first.found.banks);
    var second := ManyToOnePhase(first.groups, s, claims + (ledgers + first.found.ledgers), banks + first.found.banks);
    assert claims + (ledgers + first.found.ledgers) + second.found.ledgers == claims + TwoPhases(groups, s).ledgers;
  }

  /** An execution, whatever its unordered queries return, keeps live groups disjoint. */
  lemma ExecutionKeepsExclusive(groups: seq<Group>, s: Setting, c: Choices)
    requires Exclusive(groups, Banks) && Exclusive(groups, Ledgers) && UnmatchedAreLocal(s) && Possible(groups, s, c)
    ensures var after := Execution(groups, s, c).0; Exclusive(after, Banks) && Exclusive(after, Ledgers)
  {
    hide TwoPhases, UnmatchedAreLocal, UnmatchedBanks, SuggestionClaims, ClaimedBanks, PossibleFx, Primaries,
         Exclusive, Covered;
    var two := TwoPhases(groups, s);
    TwoPhasesAreSafe(groups, s);
    var claims := SuggestionClaims(s) + two.ledgers;
    TransfersAreSafe(Begin(two.groups), s, c.primaries, c.partners, Banks, two.banks);
    TransfersAreSafe(Begin(two.groups), s, c.primaries, c.partners, Ledgers, claims);
    var transfers := TransferRows(Begin(two.groups), s, c.primaries, c.partners);
    if s.cfg.advancedEnabled {
      ActiveRowsAreFresh(s, UnmatchedBanks(s) - ClaimedBanks(groups, s.banks, s.scope.entity) - two.banks, two.banks);
    }
    FxRowsAreSafe(Begin(transfers.groups), s, LeftForFx(groups, s), c.conversions, claims, two.banks);
  }
}
