/** What the two counters of an execution count: the proposals it stored, and the rows around
    which it stored a rival that was not there before. */
module GroupCounters {
  import opened RowOrder
  import opened GroupSearch
  import opened ReconciliationModel
  import opened AdvancedMatching
  import GroupExclusivity
  import OneToOne = OneToOneMatching

  function Count(groups: seq<Group>, status: GroupStatus): nat {
    if groups == [] then 0
    else Count(groups[..|groups| - 1], status) + if groups[|groups| - 1].status == status then 1 else 0
  }

  /** The row a group was formed around: its bank row if it has only one, its ledger row otherwise. */
  datatype Centre = OfBank(id: Id) | OfLedgers(ids: seq<Id>)

  function CentreOf(g: Group): Centre {
    if |g.banks| == 1 then OfBank(g.banks[0]) else OfLedgers(g.ledgers)
  }

  /** The rows with competing groups. */
  function Contested(groups: seq<Group>): set<Centre> {
    set g | g in groups && g.status == Ambiguous :: CentreOf(g)
  }

  function Added(before: seq<Group>, after: seq<Group>): seq<Group>
    requires before <= after
  {
    after[|before|..]
  }

  lemma CountBoth(a: seq<Group>, b: seq<Group>, status: GroupStatus)
    ensures Count(a + b, status) == Count(a, status) + Count(b, status)
  {
    if b == [] {
      assert a + b == a;
    } else {
      CountBoth(a, b[..|b| - 1], status);
      assert (a + b)[..|a + b| - 1] == a + b[..|b| - 1];
    }
  }

  lemma ContestedBoth(a: seq<Group>, b: seq<Group>)
    ensures Contested(a + b) == Contested(a) + Contested(b)
  {
  }

  /** Of the groups added since `before` as many are proposals as matches were counted, and they
      contest as many rows, all of them in `turns`, as ambiguities were counted. */
  ghost predicate Tallied(before: seq<Group>, p: Progress, turns: set<Centre>) {
    && before <= p.groups
    && p.found.matches == Count(Added(before, p.groups), Pending)
    && p.found.ambiguous == |Contested(Added(before, p.groups))|
    && Contested(Added(before, p.groups)) <= turns
  }

  lemma BeginIsTallied(groups: seq<Group>)
    ensures Tallied(groups, Begin(groups), {})
  {
    assert Contested([]) == {};
  }

  lemma MoreTurns(before: seq<Group>, p: Progress, turns: set<Centre>, more: set<Centre>)
    requires Tallied(before, p, turns) && turns <= more
    ensures Tallied(before, p, more)
  {
  }

  lemma ProposalIsTallied(before: seq<Group>, p: Progress, turns: set<Centre>, g: Group, q: Progress)
    requires Tallied(before, p, turns) && g.status == Pending
    requires q.groups == p.groups + [g]
    requires q.found.matches == p.found.matches + 1 && q.found.ambiguous == p.found.ambiguous
    ensures Tallied(before, q, turns)
  {
    var added := Added(before, p.groups);
    assert Added(before, p.groups + [g]) == added + [g];
    assert (added + [g])[..|added|] == added;
    ContestedBoth(added, [g]);
    assert Contested([g]) == {};
  }

  lemma ProposeIsTallied(before: seq<Group>, p: Progress, turns: set<Centre>, g: Group)
    requires Tallied(before, p, turns) && g.status == Pending
    ensures Tallied(before, Propose(p, g), turns)
  {
    hide Tallied;
    if !Known(p.groups, g) {
      ProposalIsTallied(before, p, turns, g, Propose(p, g));
    }
  }

  lemma {:induction false} RivalsAdded(groups: seq<Group>, rivals: seq<Group>) returns (more: seq<Group>)
    ensures PersistedAll(groups, rivals) == groups + more
    ensures forall g | g in more :: g in rivals
  {
    more := [];
    if rivals != [] {
      more := RivalsAdded(groups, rivals[..|rivals| - 1]);
      if !Known(groups + more, rivals[|rivals| - 1]) {
        more := more + [rivals[|rivals| - 1]];
      }
    }
  }

  lemma {:induction false} NoProposals(groups: seq<Group>)
    requires forall g | g in groups :: g.status == Ambiguous
    ensures Count(groups, Pending) == 0
  {
    if groups != [] {
      NoProposals(groups[..|groups| - 1]);
    }
  }

  /** Storing the rivals of one row counts it once, and only if one of them is new. */
  lemma RivalsAreTallied(before: seq<Group>, p: Progress, turns: set<Centre>, rivals: seq<Group>, centre: Centre)
    requires Tallied(before, p, turns) && centre !in turns
    requires forall g | g in rivals :: g.status == Ambiguous && CentreOf(g) == centre
    ensures Tallied(before, StoreRivals(p, rivals), turns + {centre})
  {
    hide PersistedAll, Count, CentreOf;
    var more := RivalsAdded(p.groups, rivals);
    var added := Added(before, p.groups);
    assert Added(before, p.groups + more) == added + more;
    CountBoth(added, more, Pending);
    NoProposals(more);
    ContestedBoth(added, more);
    if more == [] {
      assert Contested(more) == {};
    } else {
      assert more[0] in more && Contested(more) == {centre};
    }
  }

  // ---------------------------------------------------------------- the phases

  function BankTurns(rows: seq<BankRow>): set<Centre> {
    set b | b in rows :: OfBank(b.id)
  }

  function LedgerTurns(rows: seq<LedgerRow>): set<Centre> {
    set l | l in rows :: OfLedgers([l.id])
  }

  lemma OneToManyTurnIsTallied(
    before: seq<Group>, p: Progress, turns: set<Centre>, s: Setting, b: BankRow, base: set<Id>)
    requires Tallied(before, p, turns) && OfBank(b.id) !in turns
    ensures Tallied(before, OneToManyTurn(p, s, b, base), turns + {OfBank(b.id)})
  {
    hide Tallied, LedgerCandidates, Answer, StoreRivals, Propose;
    MoreTurns(before, p, turns, turns + {OfBank(b.id)});
    var candidates := LedgerCandidates(b, s.ledgers, s.cfg, base + p.found.ledgers);
    match Answer(candidates, b.amount, Allowance(b.amount, s.cfg.amountTolerancePct), LedgerAmount())
    case Accept(found) =>
      ProposeIsTallied(before, p, turns + {OfBank(b.id)}, LedgerGroup(s.run, b, Pending, found));
    case Compete(alternates) => RivalsAreTallied(before, p, turns, LedgerRivals(s.run, b, alternates), OfBank(b.id));
    case NoGrouping =>
  }

  lemma {:induction false} OneToManyIsTallied(
    before: seq<Group>, start: Progress, s: Setting, rows: seq<BankRow>, base: set<Id>)
    requires Tallied(before, start, {}) && DifferentBanks(rows)
    ensures Tallied(before, OneToManyRows(start, s, rows, base), BankTurns(rows))
  {
    hide Tallied, OneToManyTurn;
    if rows == [] {
      assert BankTurns(rows) == {};
    } else {
      var front, b := rows[..|rows| - 1], rows[|rows| - 1];
      OneToManyIsTallied(before, start, s, front, base);
      OneToManyTurnIsTallied(before, OneToManyRows(start, s, front, base), BankTurns(front), s, b, base);
      assert rows == front + [b];
      assert BankTurns(rows) == BankTurns(front) + {OfBank(b.id)};
    }
  }

  lemma ManyToOneTurnIsTallied(
    before: seq<Group>, p: Progress, turns: set<Centre>, s: Setting, l: LedgerRow, base: set<Id>)
    requires Tallied(before, p, turns) && OfLedgers([l.id]) !in turns
    ensures Tallied(before, ManyToOneTurn(p, s, l, base), turns + {OfLedgers([l.id])})
  {
    hide Tallied, BankCandidates, Answer, StoreRivals, Propose, Within;
    var centre := OfLedgers([l.id]);
    MoreTurns(before, p, turns, turns + {centre});
    var candidates := BankCandidates(l, s, base + p.found.banks);
    if |candidates| >= 2 {
      var allowed := Allowance(l.amount, s.cfg.amountTolerancePct);
      match Answer(candidates, l.amount, allowed, BankAmount())
      case Accept(found) =>
        var first := if found == [] then candidates[0] else found[0];
        ProposeIsTallied(before, p, turns + {centre}, BankGroup(s.run, l, Pending, first, found));
      case Compete(alternates) =>
        var rivals := BankRivals(s.run, l, candidates[0], alternates);
        forall g | g in rivals ensures g.status == Ambiguous && CentreOf(g) == centre {
          var i :| 0 <= i < |alternates| && rivals[i] == g;
          SearchIsSound(candidates, l.amount, allowed, BankAmount(), alternates[i]);
        }
        RivalsAreTallied(before, p, turns, rivals, centre);
      case NoGrouping =>
    }
  }

  lemma {:induction false} ManyToOneIsTallied(
    before: seq<Group>, start: Progress, s: Setting, rows: seq<LedgerRow>, base: set<Id>)
    requires Tallied(before, start, {}) && DifferentLedgers(rows)
    ensures Tallied(before, ManyToOneRows(start, s, rows, base), LedgerTurns(rows))
  {
    hide Tallied, ManyToOneTurn;
    if rows == [] {
      assert LedgerTurns(rows) == {};
    } else {
      var front, l := rows[..|rows| - 1], rows[|rows| - 1];
      ManyToOneIsTallied(before, start, s, front, base);
      forall r | r in front ensures OfLedgers([r.id]) != OfLedgers([l.id]) {
        assert [r.id][0] == r.id && [l.id][0] == l.id;
      }
      ManyToOneTurnIsTallied(before, ManyToOneRows(start, s, front, base), LedgerTurns(front), s, l, base);
      assert rows == front + [l];
      assert LedgerTurns(rows) == LedgerTurns(front) + {OfLedgers([l.id])};
    }
  }

  lemma {:induction false} TransfersAreTallied(
    before: seq<Group>, start: Progress, s: Setting, primaries: seq<LedgerRow>, partners: seq<Option<LedgerRow>>)
    requires Tallied(before, start, {}) && |primaries| == |partners|
    ensures Tallied(before, TransferRows(start, s, primaries, partners), {})
  {
    hide Tallied, Known;
    if primaries != [] {
      var p := TransferRows(start, s, primaries[..|primaries| - 1], partners[..|partners| - 1]);
      TransfersAreTallied(before, start, s, primaries[..|primaries| - 1], partners[..|partners| - 1]);
      var primary, partner := primaries[|primaries| - 1], partners[|partners| - 1];
      if partner.Some? && TransferTurn(p, s, primary, partner) != p {
        var g := TransferGroup(s.run, primary, partner.value);
        ProposalIsTallied(before, p, {}, g, TransferTurn(p, s, primary, partner));
      }
    }
  }

  lemma {:induction false} FxIsTallied(
    before: seq<Group>, start: Progress, s: Setting, rows: seq<BankRow>, choices: seq<Option<LedgerRow>>)
    requires Tallied(before, start, {}) && |rows| == |choices|
    ensures Tallied(before, FxRows(start, s, rows, choices), {})
  {
    hide Tallied, Propose;
    if rows != [] {
      var p := FxRows(start, s, rows[..|rows| - 1], choices[..|choices| - 1]);
      FxIsTallied(before, start, s, rows[..|rows| - 1], choices[..|choices| - 1]);
      if choices[|choices| - 1].Some? {
        ProposeIsTallied(before, p, {}, FxGroup(s.run, rows[|rows| - 1], choices[|choices| - 1].value));
      }
    }
  }

  /** Contested bank rows. */
  ghost predicate BanksOnly(turns: set<Centre>) {
    forall c | c in turns :: c.OfBank?
  }

  ghost predicate LedgersOnly(turns: set<Centre>) {
    forall c | c in turns :: c.OfLedgers?
  }

  lemma OneToManyPhaseIsTallied(groups: seq<Group>, s: Setting, unmatched: set<Id>, base: set<Id>)
    returns (turns: set<Centre>)
    ensures Tallied(groups, OneToManyPhase(groups, s, unmatched, base), turns) && BanksOnly(turns)
  {
    hide Tallied, OneToManyRows;
    BeginIsTallied(groups);
    turns := {};
    if s.cfg.advancedEnabled {
      var rows := ActiveRows(s.banks, unmatched);
      GroupExclusivity.BankListing(rows, s.banks);
      OneToManyIsTallied(groups, Begin(groups), s, InOrder(rows, OneToOne.BankKey()), base);
      turns := BankTurns(InOrder(rows, OneToOne.BankKey()));
    }
  }

  lemma ManyToOnePhaseIsTallied(groups: seq<Group>, s: Setting, claimed: set<Id>, grouped: set<Id>)
    returns (turns: set<Centre>)
    ensures Tallied(groups, ManyToOnePhase(groups, s, claimed, grouped), turns) && LedgersOnly(turns)
  {
    hide Tallied, ManyToOneRows, SharesWithSeveral;
    BeginIsTallied(groups);
    turns := {};
    if s.cfg.advancedEnabled {
      var rows := GroupableLedgers(s, claimed);
      GroupExclusivity.LedgerListing(rows, s.ledgers);
      ManyToOneIsTallied(groups, Begin(groups), s, InOrder(rows, LedgerKey()), grouped);
      turns := LedgerTurns(InOrder(rows, LedgerKey()));
    }
  }

  /** Two stretches of an execution that contest different rows add up. */
  lemma TalliesAddUp(
    a: seq<Group>, b: seq<Group>, c: seq<Group>, p: Progress, q: Progress, ps: set<Centre>, qs: set<Centre>)
    requires p.groups == b && q.groups == c && Tallied(a, p, ps) && Tallied(b, q, qs) && ps !! qs
    ensures a <= c
    ensures Count(Added(a, c), Pending) == p.found.matches + q.found.matches
    ensures |Contested(Added(a, c))| == p.found.ambiguous + q.found.ambiguous
    ensures Contested(Added(a, c)) <= ps + qs
  {
    hide Count, Contested;
    assert Added(a, c) == Added(a, b) + Added(b, c);
    CountBoth(Added(a, b), Added(b, c), Pending);
    ContestedBoth(Added(a, b), Added(b, c));
  }

  /** An execution only adds groups.  The matches it reports are the proposals among them, and
      the ambiguities the bank and ledger rows around which a new rival was stored. */
  lemma ExecutionIsTallied(groups: seq<Group>, s: Setting, c: Choices)
    requires Possible(groups, s, c)
    ensures var (after, matches, ambiguous) := Execution(groups, s, c);
            && groups <= after
            && matches == Count(Added(groups, after), Pending)
            && ambiguous == |Contested(Added(groups, after))|
  {
    hide OneToManyPhase, ManyToOnePhase, Count, Contested, Added, UnmatchedBanks, MatchedLedgers, SuggestionClaims,
         ClaimedBanks, ClaimedLedgers, PartnerOf, Primaries, PossibleFx, FxBankRows, TransferRows, FxRows, Tallied;
    var ledgers := ClaimedLedgers(groups, s.ledgers, s.scope.entity);
    var banks := ClaimedBanks(groups, s.banks, s.scope.entity);
    var first := OneToManyPhase(groups, s, UnmatchedBanks(s) - banks, SuggestionClaims(s) + ledgers);
    var bankTurns := OneToManyPhaseIsTallied(groups, s, UnmatchedBanks(s) - banks, SuggestionClaims(s) + ledgers);
    var claimed, grouped := SuggestionClaims(s) + (ledgers + first.found.ledgers), banks + first.found.banks;
    var second := ManyToOnePhase(first.groups, s, claimed, grouped);
    var ledgerTurns := ManyToOnePhaseIsTallied(first.groups, s, claimed, grouped);
    var two := TwoPhases(groups, s);
    BeginIsTallied(two.groups);
    TransfersAreTallied(two.groups, Begin(two.groups), s, c.primaries, c.partners);
    var transfers := TransferRows(Begin(two.groups), s, c.primaries, c.partners);
    BeginIsTallied(transfers.groups);
    FxIsTallied(transfers.groups, Begin(transfers.groups), s, LeftForFx(groups, s), c.conversions);
    var fx := FxRows(Begin(transfers.groups), s, LeftForFx(groups, s), c.conversions);
    FourTalliesAddUp(groups, first, second, transfers, fx, bankTurns, ledgerTurns);
  }

  lemma FourTalliesAddUp(
    groups: seq<Group>, first: Progress, second: Progress, transfers: Progress, fx: Progress,
    bankTurns: set<Centre>, ledgerTurns: set<Centre>)
    requires Tallied(groups, first, bankTurns) && BanksOnly(bankTurns)
    requires Tallied(first.groups, second, ledgerTurns) && LedgersOnly(ledgerTurns)
    requires Tallied(second.groups, transfers, {}) && Tallied(transfers.groups, fx, {})
    ensures groups <= fx.groups
    ensures Count(Added(groups, fx.groups), Pending)
            == first.found.matches + second.found.matches + transfers.found.matches + fx.found.matches
    ensures |Contested(Added(groups, fx.groups))|
            == first.found.ambiguous + second.found.ambiguous + transfers.found.ambiguous + fx.found.ambiguous
  {
    hide Count, Contested, Added;
    TalliesAddUp(groups, first.groups, second.groups, first, second, bankTurns, ledgerTurns);
    TalliesAddUp(second.groups, transfers.groups, fx.groups, transfers, fx, {}, {});
    var turns := bankTurns + ledgerTurns;
    var front := Progress(second.groups, Found(first.found.matches + second.found.matches,
                                               first.found.ambiguous + second.found.ambiguous, {}, {}));
    var back := Progress(fx.groups, Found(transfers.found.matches + fx.found.matches,
                                          transfers.found.ambiguous + fx.found.ambiguous, {}, {}));
    TalliesAddUp(groups, second.groups, fx.groups, front, back, turns, {});
  }
}
