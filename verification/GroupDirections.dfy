/** Whether bank and ledger rows of a group move money the same way.

    Many-to-one asks only whether a ledger row is an inflow, so a transfer or a NON_CASH row
    counts as matching bank debits. */
module GroupDirections {
  import opened ReconciliationModel
  import opened AdvancedMatching
  import opened GroupEvidence
  import opened ReconciliationRuns
  import OverlapScene

  predicate DirectionsAgree(b: BankRow, l: LedgerRow) {
    l.direction == CompatibleDirection(b.entry)
  }

  /** In any execution, a bank row and a ledger row of one new group move money the same way
      except exactly when the ledger row is a transfer or moves no cash; then the group is a
      many-to-one group of bank debits. */
  lemma DirectionsDisagreeExactlyWhen(groups: seq<Group>, s: Setting, c: Choices, g: Group, bank: Id, ledger: Id)
    requires KeysUnique(groups) && Possible(groups, s, c)
    requires g in Execution(groups, s, c).0 && g !in groups && bank in g.banks && ledger in g.ledgers
    ensures bank in s.banks && ledger in s.ledgers
    ensures !DirectionsAgree(s.banks[bank], s.ledgers[ledger])
            <==> s.ledgers[ledger].direction == Transfer || s.ledgers[ledger].direction == NonCash
    ensures !DirectionsAgree(s.banks[bank], s.ledgers[ledger]) ==>
              ManyToOneEvidence(g, s) && s.banks[bank].entry == Debit
  {
    hide Execution, Possible, KeysUnique, UnmatchedBanks, SuggestionClaims, FxAgrees;
    ExecutionIsJustified(groups, s, c);
  }

  function Places(): Fixed {
    Fixed(run => OverlapScene.Early(6), id => 1)
  }

  /** Two bank debits end in a pending group with a NON_CASH row, in a reachable state. */
  lemma NonCashRowIsGrouped(sees: bool)
    ensures After([OverlapScene.FirstRun(OverlapScene.Payments, 1, sees)], Places()).groups
            == [Group(1, ManyToOne, Pending, [1, 2], [11], 150, 150, 1)]
    ensures OverlapScene.Bookings(OverlapScene.Payments)[11].direction == NonCash
    ensures forall id | id in OverlapScene.FirstBanks(OverlapScene.Payments) ::
              OverlapScene.FirstBanks(OverlapScene.Payments)[id].entry == Debit
  {
    hide Enabled, Apply;
    var step := OverlapScene.FirstRun(OverlapScene.Payments, 1, sees);
    assert AtHome(OverlapScene.FirstBanks(OverlapScene.Payments), Places());
    OverlapScene.FirstExecution(OverlapScene.Payments, 1, 6, sees, Places());
    assert [step][..0] == [];
  }
}
