/** First executions over a scope with one bank row: either one ledger row of its amount, which
    the pass suggests, or two that sum to it, which a one-to-many group takes. */
module LedgerClashScene {
  import opened RowOrder
  import opened GroupSearch
  import opened ReconciliationModel
  import opened AdvancedMatching
  import opened ReconciliationRuns
  import OneToOne = OneToOneMatching
  import OverlapScene
  import SoleSuggestions

  // ---------------------------------------------------------------- the rows

  function Receipt(scope: Scope, id: Id, date: int): BankRow {
    BankRow(id, scope.entity, scope.account, 1, Credit, date, 300, {"R"}, {}, false, true)
  }

  function Income(scope: Scope, id: Id, date: int, amount: int): LedgerRow {
    LedgerRow(id, scope.entity, scope.account, 1, Inflow, date, amount, {"R"}, [], true, None)
  }

  function Exactly(days: int): Config {
    Config(days, 0.0, None, true, 5, 0.0)
  }

  /** Two parts to group, or the whole to suggest. */
  function Booked(scope: Scope, date: int, parts: bool): LedgerTable {
    if parts then map[11 := Income(scope, 11, date, 100), 12 := Income(scope, 12, date, 200)]
    else map[11 := Income(scope, 11, date, 300)]
  }

  function Run(run: Id, banks: BankTable, ledgers: LedgerTable, days: int): Step {
    Execute(run, banks, ledgers, Exactly(days), OverlapScene.NoRates(), false, Choices([], [], []))
  }

  // ---------------------------------------------------------------- the pass

  lemma PassOverOne(
    run: Id, scope: Scope, banks: BankTable, ledgers: LedgerTable, cfg: Config, b: BankRow, top: seq<LedgerRow>)
    requires OneToOne.ScopeRows(banks, scope) == {b}
    requires OneToOne.Top(b, Candidates(b, ledgers, cfg, {})) == top
    ensures OneToOne.RunPass(run, scope, banks, ledgers, cfg, [], false).added
            == OneToOne.Produce(run, b, top, cfg).rows
  {
    hide OneToOne.AfterRow, OneToOne.AfterRows, OneToOne.Top, Candidates, OneToOne.ScopeRows;
    assert OneToOne.AlreadyClaimed([], ledgers, scope.entity) == {};
    var start := OneToOne.Pass([], {}, 0, 0, 0, 0);
    ListedAlone(b, OneToOne.BankKey());
    OverlapScene.OneTurn(start, run, b, ledgers, cfg, [], false);
    OverlapScene.TurnAdds(start, run, b, ledgers, cfg, [], false, top);
  }

  lemma PartsAreNoCandidates(scope: Scope, b: BankRow, date: int, days: int)
    requires b == Receipt(scope, b.id, b.date)
    ensures OneToOne.Top(b, Candidates(b, Booked(scope, date, true), Exactly(days), {})) == []
  {
    assert Candidates(b, Booked(scope, date, true), Exactly(days), {}) == map[];
    assert OneToOne.Best(b, map[]) == {};
  }

  lemma WholeIsTheCandidate(scope: Scope, b: BankRow, date: int, days: int)
    requires b == Receipt(scope, b.id, b.date) && DatesWithin(b.date, date, days)
    ensures OneToOne.Top(b, Candidates(b, Booked(scope, date, false), Exactly(days), {}))
            == [Income(scope, 11, date, 300)]
  {
    var l := Income(scope, 11, date, 300);
    assert Candidates(b, Booked(scope, date, false), Exactly(days), {}) == map[11 := l];
    SoleSuggestions.OnlyCandidateIsTop(b, map[11 := l], l);
  }

  // ---------------------------------------------------------------- the suggestion

  function Suggested(run: Id, scope: Scope, b: BankRow, date: int, days: int): OneToOne.Suggestion {
    OneToOne.SoleRow(run, b, Income(scope, 11, date, 300), Exactly(days))
  }

  lemma SuggestingRun(run: Id, scope: Scope, banks: BankTable, b: BankRow, date: int, days: int, fixed: Fixed)
    requires b == Receipt(scope, b.id, b.date) && DatesWithin(b.date, date, days)
    requires OneToOne.ScopeRows(banks, scope) == {b} && fixed.scopes(run) == scope && AtHome(banks, fixed)
    ensures var st, step := State([], []), Run(run, banks, Booked(scope, date, false), days);
            && Enabled(st, step, fixed)
            && Apply(st, step, fixed) == State([Suggested(run, scope, b, date, days)], [])
  {
    hide TwoPhases, Possible, Execution, UnmatchedBanks, MatchedLedgers, OneToOne.RunPass, OneToOne.ScopeRows, AtHome;
    hide OneToOne.Top, Candidates, OneToOne.TierOf, Primaries, DatesWithin;
    var st, step := State([], []), Run(run, banks, Booked(scope, date, false), days);
    WholeIsTheCandidate(scope, b, date, days);
    PassOverOne(run, scope, banks, Booked(scope, date, false), Exactly(days), b, [Income(scope, 11, date, 300)]);
    var x := Suggested(run, scope, b, date, days);
    assert AfterOneToOne(st, step, fixed) == [x];
    var s := SettingOf(st, step, fixed);
    NothingUnmatched(s, x);
    OverlapScene.QuietPhases([], s, b);
    NoTransfers(scope, date, false, MatchedLedgers(s));
    OverlapScene.NothingAfterTwoPhases([], s);
  }

  lemma NothingUnmatched(s: Setting, x: OneToOne.Suggestion)
    requires s.suggestions == [x] && x.ledger.Some?
    ensures UnmatchedBanks(s) == {}
  {
  }

  lemma NoTransfers(scope: Scope, date: int, parts: bool, matched: set<Id>)
    ensures Primaries(Booked(scope, date, parts), matched) == {}
  {
  }

  // ---------------------------------------------------------------- the group

  function Parts(scope: Scope, date: int): seq<LedgerRow> {
    [Income(scope, 11, date, 100), Income(scope, 12, date, 200)]
  }

  function Together(run: Id, b: BankRow): Group {
    Group(run, OneToMany, Pending, [b.id], [11, 12], 300, 300, 1)
  }

  lemma PartsAreFound(scope: Scope, b: BankRow, date: int, days: int)
    requires b == Receipt(scope, b.id, b.date) && DatesWithin(b.date, date, days)
    ensures LedgerCandidates(b, Booked(scope, date, true), Exactly(days), {}) == Parts(scope, date)
  {
    var ledgers, parts := Booked(scope, date, true), Parts(scope, date);
    assert ledgers[11] in ledgers.Values && ledgers[12] in ledgers.Values;
    assert "R" in b.refs * parts[0].refs && "R" in b.refs * parts[1].refs;
    assert LedgerPool(b, ledgers, Exactly(days), {}) == {parts[0], parts[1]};
    ListedTwo(parts[0], parts[1], LedgerKey());
  }

  lemma PartsSum(scope: Scope, date: int)
    ensures Total(Parts(scope, date), LedgerAmount()) == 300
    ensures Answer(Parts(scope, date), 300, Allowance(300, 0.0), LedgerAmount()) == Accept(Parts(scope, date))
  {
    var parts := Parts(scope, date);
    assert parts[..1] == [parts[0]] && parts[..1][..0] == [];
    assert Total(parts[..1], LedgerAmount()) == 100;
    assert Allowance(300, 0.0) == 0.0;
    hide Alternates;
  }

  /** What an execution starts its groups from when the pass found nothing for its only row. */
  lemma OneUnmatched(s: Setting, b: BankRow)
    requires s.suggestions == [OneToOne.NoneFound(s.run, b)]
    ensures UnmatchedBanks(s) == {b.id} && MatchedLedgers(s) == {} && SuggestionClaims(s) == {}
  {
    assert s.suggestions[0] in s.suggestions;
  }

  lemma TurnGroupsTheParts(s: Setting, scope: Scope, b: BankRow, date: int, days: int)
    requires s.ledgers == Booked(scope, date, true) && s.cfg == Exactly(days)
    requires b == Receipt(scope, b.id, b.date) && DatesWithin(b.date, date, days)
    ensures OneToManyTurn(Begin([]), s, b, {}) == Progress([Together(s.run, b)], Found(1, 0, {11, 12}, {b.id}))
  {
    hide Answer, LedgerCandidates, DatesWithin;
    assert {} + Begin([]).found.ledgers == {};
    PartsAreFound(scope, b, date, days);
    PartsSum(scope, date);
    assert LedgerIds(Parts(scope, date)) == [11, 12];
    assert LedgerGroup(s.run, b, Pending, Parts(scope, date)) == Together(s.run, b);
    assert Elements([11, 12]) == {11, 12} && Elements([b.id]) == {b.id};
  }

  lemma PhaseGroupsTheParts(s: Setting, scope: Scope, b: BankRow, date: int, days: int)
    requires s.ledgers == Booked(scope, date, true) && s.cfg == Exactly(days)
    requires b == Receipt(scope, b.id, b.date) && DatesWithin(b.date, date, days) && b in s.banks.Values
    ensures OneToManyPhase([], s, {b.id}, {}) == Progress([Together(s.run, b)], Found(1, 0, {11, 12}, {b.id}))
  {
    hide OneToManyTurn, Together, DatesWithin;
    assert ActiveRows(s.banks, {b.id}) == {b};
    ListedAlone(b, OneToOne.BankKey());
    TurnGroupsTheParts(s, scope, b, date, days);
    assert [b][..0] == [] && OneToManyRows(Begin([]), s, [], {}) == Begin([]);
    assert OneToManyRows(Begin([]), s, [b], {}) == OneToManyTurn(Begin([]), s, b, {});
  }

  lemma NothingGroupable(s: Setting, b: BankRow, claimed: set<Id>, groups: seq<Group>, grouped: set<Id>)
    requires OneToOne.ScopeRows(s.banks, s.scope) == {b}
    ensures ManyToOnePhase(groups, s, claimed, grouped) == Begin(groups)
  {
    hide OneToOne.ScopeRows;
    forall r ensures !SharedReference(r, {b}) {
    }
    assert GroupableLedgers(s, claimed) == {};
  }

  lemma TwoPhasesGroupTheParts(s: Setting, b: BankRow, date: int, days: int)
    requires s.suggestions == [OneToOne.NoneFound(s.run, b)]
    requires s.ledgers == Booked(s.scope, date, true) && s.cfg == Exactly(days)
    requires b == Receipt(s.scope, b.id, b.date) && DatesWithin(b.date, date, days)
    requires OneToOne.ScopeRows(s.banks, s.scope) == {b}
    ensures TwoPhases([], s).groups == [Together(s.run, b)] && TwoPhases([], s).banks == {b.id}
  {
    assert b in OneToOne.ScopeRows(s.banks, s.scope);
    hide OneToManyPhase, ManyToOnePhase, UnmatchedBanks, SuggestionClaims, OneToOne.ScopeRows, DatesWithin, Together;
    hide TwoPhases, Booked;
    OneUnmatched(s, b);
    PhaseGroupsTheParts(s, s.scope, b, date, days);
    var first := OneToManyPhase([], s, {b.id}, {});
    NothingGroupable(s, b, {} + first.found.ledgers, first.groups, first.found.banks);
    OverlapScene.TwoPhasesFromNothing(s, {b.id}, {}, first, Begin(first.groups));
  }

  lemma GroupingRun(run: Id, scope: Scope, banks: BankTable, b: BankRow, date: int, days: int, fixed: Fixed)
    requires b == Receipt(scope, b.id, b.date) && DatesWithin(b.date, date, days)
    requires OneToOne.ScopeRows(banks, scope) == {b} && fixed.scopes(run) == scope && AtHome(banks, fixed)
    ensures var st, step := State([], []), Run(run, banks, Booked(scope, date, true), days);
            && Enabled(st, step, fixed)
            && Apply(st, step, fixed) == State([OneToOne.NoneFound(run, b)], [Together(run, b)])
  {
    hide TwoPhases, Possible, Execution, UnmatchedBanks, MatchedLedgers, OneToOne.RunPass, OneToOne.ScopeRows, AtHome;
    hide OneToOne.Top, Candidates, Primaries, DatesWithin, Together;
    var st, step := State([], []), Run(run, banks, Booked(scope, date, true), days);
    PartsAreNoCandidates(scope, b, date, days);
    PassOverOne(run, scope, banks, Booked(scope, date, true), Exactly(days), b, []);
    assert AfterOneToOne(st, step, fixed) == [OneToOne.NoneFound(run, b)];
    var s := SettingOf(st, step, fixed);
    OneUnmatched(s, b);
    TwoPhasesGroupTheParts(s, b, date, days);
    NoTransfers(scope, date, true, MatchedLedgers(s));
    OverlapScene.NothingAfterTwoPhases([], s);
  }
}
