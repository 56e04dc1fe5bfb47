/** Two executions after which one bank row and one ledger row are each in a live sole suggestion
    and in a live group at once: a receipt that was matched on its own is also grouped with
    another, and the ledger row of that group is then suggested for a later receipt. */
module OverlapScene {
  import opened RowOrder
  import opened GroupSearch
  import opened ReconciliationModel
  import opened AdvancedMatching
  import opened ReconciliationRuns
  import OneToOne = OneToOneMatching
  import SoleSuggestions

  // ---------------------------------------------------------------- the rows

  /** Receipts against inflows, or payments against a row that moves no cash. */
  datatype Kind = Receipts | Payments

  function EntryOf(k: Kind): EntryType {
    if k == Receipts then Credit else Debit
  }

  function DirectionOf(k: Kind): Direction {
    if k == Receipts then Inflow else NonCash
  }

  function Statement(k: Kind, id: Id, date: int, amount: int, refs: set<string>): BankRow {
    BankRow(id, 1, 1, 1, EntryOf(k), date, amount, refs, {}, false, true)
  }

  function Booking(direction: Direction, id: Id, amount: int, refs: set<string>): LedgerRow {
    LedgerRow(id, 1, 1, 1, direction, 5, amount, refs, [], true, None)
  }

  /** Both rows carry the reference of the whole; the first one's amount is also booked alone. */
  function Part(k: Kind): BankRow { Statement(k, 1, 5, 100, {"R"}) }
  function Rest(k: Kind): BankRow { Statement(k, 2, 5, 50, {"R"}) }
  function Late(): BankRow { Statement(Receipts, 3, 7, 150, {}) }
  function Whole(k: Kind): LedgerRow { Booking(DirectionOf(k), 11, 150, {"R"}) }
  function Alone(k: Kind): LedgerRow { Booking(CompatibleDirection(EntryOf(k)), 12, 100, {}) }

  function Limits(): Config {
    Config(2, 0.0, None, true, 5, 0.0)
  }

  function FirstBanks(k: Kind): BankTable { map[1 := Part(k), 2 := Rest(k)] }
  function LaterBanks(): BankTable { map[1 := Part(Receipts), 2 := Rest(Receipts), 3 := Late()] }
  function Bookings(k: Kind): LedgerTable { map[11 := Whole(k), 12 := Alone(k)] }

  function Early(end: int): Scope { Scope(1, 1, 0, end) }
  function After6(): Scope { Scope(1, 1, 7, 9) }

  function Places(): Fixed {
    Fixed(run => if run == 1 then Early(6) else After6(), id => 1)
  }

  function NoRates(): (BankRow, LedgerRow) -> Option<real> {
    (b, l) => None
  }

  function FirstRun(k: Kind, run: Id, sees: bool): Step {
    Execute(run, FirstBanks(k), Bookings(k), Limits(), NoRates(), sees, Choices([], [], []))
  }

  function SecondRun(sees: bool): Step {
    Execute(2, LaterBanks(), Bookings(Receipts), Limits(), NoRates(), sees, Choices([], [], []))
  }

  // ---------------------------------------------------------------- the first pass

  function Matched(k: Kind, run: Id): OneToOne.Suggestion { OneToOne.SoleRow(run, Part(k), Alone(k), Limits()) }
  function Unmatched(k: Kind, run: Id): OneToOne.Suggestion { OneToOne.NoneFound(run, Rest(k)) }

  lemma PartIsMatched(k: Kind)
    ensures OneToOne.Top(Part(k), Candidates(Part(k), Bookings(k), Limits(), {})) == [Alone(k)]
  {
    assert Candidates(Part(k), Bookings(k), Limits(), {}) == map[12 := Alone(k)];
    SoleSuggestions.OnlyCandidateIsTop(Part(k), map[12 := Alone(k)], Alone(k));
  }

  lemma RestIsUnmatched(k: Kind, claimed: set<Id>)
    ensures OneToOne.Top(Rest(k), Candidates(Rest(k), Bookings(k), Limits(), claimed)) == []
  {
    assert Candidates(Rest(k), Bookings(k), Limits(), claimed) == map[];
    assert OneToOne.Best(Rest(k), map[]) == {};
  }

  lemma EarlyRows(k: Kind, end: int)
    requires end >= 5
    ensures InOrder(OneToOne.ScopeRows(FirstBanks(k), Early(end)), OneToOne.BankKey()) == [Part(k), Rest(k)]
  {
    assert FirstBanks(k)[1] == Part(k) && FirstBanks(k)[2] == Rest(k);
    assert OneToOne.ScopeRows(FirstBanks(k), Early(end)) == {Part(k), Rest(k)};
    ListedTwo(Part(k), Rest(k), OneToOne.BankKey());
  }

  lemma TurnAdds(
    p: OneToOne.Pass, run: Id, b: BankRow, ledgers: LedgerTable, cfg: Config, flushed: seq<OneToOne.Suggestion>,
    sees: bool, top: seq<LedgerRow>)
    requires !OneToOne.Processed(OneToOne.Visible(flushed, p.added, sees), run, b.id)
    requires OneToOne.Top(b, Candidates(b, ledgers, cfg, p.claimed)) == top
    ensures OneToOne.AfterRow(p, run, b, ledgers, cfg, flushed, sees).added
            == p.added + OneToOne.Produce(run, b, top, cfg).rows
  {
  }

  lemma TwoTurns(
    start: OneToOne.Pass, run: Id, x: BankRow, y: BankRow, ledgers: LedgerTable, cfg: Config,
    flushed: seq<OneToOne.Suggestion>, sees: bool)
    ensures OneToOne.AfterRows(start, run, [x, y], ledgers, cfg, flushed, sees)
            == OneToOne.AfterRow(OneToOne.AfterRow(start, run, x, ledgers, cfg, flushed, sees),
                                 run, y, ledgers, cfg, flushed, sees)
  {
    hide OneToOne.AfterRow;
    assert [x, y][..1] == [x] && [x][..0] == [];
    assert OneToOne.AfterRows(start, run, [], ledgers, cfg, flushed, sees) == start;
    assert OneToOne.AfterRows(start, run, [x], ledgers, cfg, flushed, sees)
        == OneToOne.AfterRow(start, run, x, ledgers, cfg, flushed, sees);
  }

  lemma FirstPass(k: Kind, run: Id, end: int, sees: bool)
    requires end >= 5
    ensures OneToOne.RunPass(run, Early(end), FirstBanks(k), Bookings(k), Limits(), [], sees).added
            == Suggestions(k, run)
  {
    hide Part, Rest, Alone, Limits, Bookings, OneToOne.Top, OneToOne.AfterRow, OneToOne.AfterRows, Candidates;
    hide OneToOne.TierOf;
    var start := OneToOne.Pass([], {}, 0, 0, 0, 0);
    assert OneToOne.AlreadyClaimed([], Bookings(k), 1) == {};
    EarlyRows(k, end);
    TwoTurns(start, run, Part(k), Rest(k), Bookings(k), Limits(), [], sees);
    PartIsMatched(k);
    TurnAdds(start, run, Part(k), Bookings(k), Limits(), [], sees, [Alone(k)]);
    var one := OneToOne.AfterRow(start, run, Part(k), Bookings(k), Limits(), [], sees);
    assert one.added == [Matched(k, run)];
    RestIsUnmatched(k, one.claimed);
    TurnAdds(one, run, Rest(k), Bookings(k), Limits(), [], sees, []);
  }

  // ---------------------------------------------------------------- the first groups

  function Suggestions(k: Kind, run: Id): seq<OneToOne.Suggestion> { [Matched(k, run), Unmatched(k, run)] }

  function FirstSetting(k: Kind, run: Id, end: int): Setting {
    Setting(run, Early(end), FirstBanks(k), Bookings(k), Suggestions(k, run), Limits(), NoRates())
  }

  function Both(run: Id): Group {
    Group(run, ManyToOne, Pending, [1, 2], [11], 150, 150, 1)
  }

  lemma FirstClaims(k: Kind, run: Id, end: int)
    ensures UnmatchedBanks(FirstSetting(k, run, end)) == {2} && MatchedLedgers(FirstSetting(k, run, end)) == {12}
    ensures SuggestionClaims(FirstSetting(k, run, end)) == {12}
  {
    var s := FirstSetting(k, run, end);
    assert Matched(k, run) == s.suggestions[0] && Unmatched(k, run) == s.suggestions[1];
    assert s.suggestions[0] in s.suggestions && s.suggestions[1] in s.suggestions;
    assert forall x | x in s.suggestions :: x == Matched(k, run) || x == Unmatched(k, run);
  }

  /** The unmatched row alone has at most one candidate, which is not enough. */
  lemma RestFindsTooFew(k: Kind)
    ensures |LedgerCandidates(Rest(k), Bookings(k), Limits(), {12})| < 2
  {
    var pool := LedgerPool(Rest(k), Bookings(k), Limits(), {12});
    assert pool <= {Whole(k)};
    if Whole(k) in pool {
      assert pool == {Whole(k)};
      ListedAlone(Whole(k), LedgerKey());
    } else {
      assert pool == {};
    }
  }

  lemma FirstOneToMany(k: Kind, run: Id, end: int)
    ensures OneToManyPhase([], FirstSetting(k, run, end), {2}, {12}) == Begin([])
  {
    hide Rest, Whole, LedgerCandidates;
    ListedAlone(Rest(k), OneToOne.BankKey());
    RestFindsTooFew(k);
    var s := FirstSetting(k, run, end);
    assert {12} + Begin([]).found.ledgers == {12};
    assert OneToManyTurn(Begin([]), s, Rest(k), {12}) == Begin([]);
    assert [Rest(k)][..0] == [] && OneToManyRows(Begin([]), s, [], {12}) == Begin([]);
    assert OneToManyRows(Begin([]), s, [Rest(k)], {12}) == Begin([]);
  }

  lemma WholeIsGroupable(k: Kind, run: Id, end: int)
    requires end >= 5
    ensures GroupableLedgers(FirstSetting(k, run, end), {12}) == {Whole(k)}
  {
    var s := FirstSetting(k, run, end);
    assert FirstBanks(k)[1] == Part(k) && FirstBanks(k)[2] == Rest(k) && Bookings(k)[11] == Whole(k);
    assert OneToOne.ScopeRows(FirstBanks(k), Early(end)) == {Part(k), Rest(k)};
    assert "R" in Part(k).refs && "R" in Rest(k).refs && "R" in Whole(k).refs;
    assert SharedReference("R", {Part(k), Rest(k)});
    assert Bookings(k)[11] in Bookings(k).Values;
    assert SharesWithSeveral(Whole(k), OneToOne.ScopeRows(s.banks, s.scope));
    assert forall l | l in Bookings(k).Values && l.id != 12 :: l == Whole(k);
  }

  lemma WholeFindsBothRows(k: Kind, run: Id, end: int)
    ensures BankCandidates(Whole(k), FirstSetting(k, run, end), {}) == [Part(k), Rest(k)]
  {
    assert FirstBanks(k)[1] == Part(k) && FirstBanks(k)[2] == Rest(k);
    assert FirstBanks(k)[1] in FirstBanks(k).Values && FirstBanks(k)[2] in FirstBanks(k).Values;
    assert "R" in Part(k).refs * Whole(k).refs && "R" in Rest(k).refs * Whole(k).refs;
    assert BankPool(Whole(k), FirstSetting(k, run, end), {}) == {Part(k), Rest(k)};
    ListedTwo(Part(k), Rest(k), OneToOne.BankKey());
  }

  lemma BothRowsSum(k: Kind)
    ensures Total([Part(k), Rest(k)], BankAmount()) == 150
    ensures Answer([Part(k), Rest(k)], 150, Allowance(150, 0.0), BankAmount()) == Accept([Part(k), Rest(k)])
  {
    assert [Part(k), Rest(k)][..1] == [Part(k)] && [Part(k)][..0] == [];
    assert Total([Part(k)], BankAmount()) == 100;
    assert Allowance(150, 0.0) == 0.0;
    hide Alternates;
  }

  lemma WholeIsGrouped(k: Kind, run: Id, end: int)
    ensures ManyToOneTurn(Begin([]), FirstSetting(k, run, end), Whole(k), {})
            == Progress([Both(run)], Found(1, 0, {11}, {1, 2}))
  {
    hide Answer, BankCandidates;
    assert {} + Begin([]).found.banks == {};
    WholeFindsBothRows(k, run, end);
    BothRowsSum(k);
    assert BankIds([Part(k), Rest(k)]) == [1, 2];
    assert BankGroup(run, Whole(k), Pending, Part(k), [Part(k), Rest(k)]) == Both(run);
    assert Elements([11]) == {11} && Elements([1, 2]) == {1, 2};
  }

  lemma FirstManyToOne(k: Kind, run: Id, end: int)
    requires end >= 5
    ensures ManyToOnePhase([], FirstSetting(k, run, end), {12}, {}) == Progress([Both(run)], Found(1, 0, {11}, {1, 2}))
  {
    hide ManyToOneTurn, GroupableLedgers, Whole, Both;
    var s := FirstSetting(k, run, end);
    WholeIsGroupable(k, run, end);
    ListedAlone(Whole(k), LedgerKey());
    WholeIsGrouped(k, run, end);
    assert [Whole(k)][..0] == [] && ManyToOneRows(Begin([]), s, [], {}) == Begin([]);
    assert ManyToOneRows(Begin([]), s, [Whole(k)], {}) == ManyToOneTurn(Begin([]), s, Whole(k), {});
  }

  // ---------------------------------------------------------------- executions without transfers and conversions

  lemma NothingAfterTwoPhases(groups: seq<Group>, s: Setting)
    requires UnmatchedBanks(s) <= TwoPhases(groups, s).banks && Primaries(s.ledgers, MatchedLedgers(s)) == {}
    ensures var c := Choices([], [], []);
            Possible(groups, s, c) && Execution(groups, s, c).0 == TwoPhases(groups, s).groups
  {
    hide TwoPhases, UnmatchedBanks, MatchedLedgers, ClaimedBanks, Primaries, SuggestionClaims;
    var two := TwoPhases(groups, s);
    var left := UnmatchedBanks(s) - ClaimedBanks(groups, s.banks, s.scope.entity) - two.banks;
    assert ActiveRows(s.banks, left) == {};
    assert LeftForFx(groups, s) == [];
  }

  /** From no groups at all, the two phases are those of the unmatched rows and the suggestion
      claims. */
  lemma TwoPhasesFromNothing(s: Setting, unmatched: set<Id>, claimed: set<Id>, first: Progress, second: Progress)
    requires UnmatchedBanks(s) == unmatched && SuggestionClaims(s) == claimed
    requires first == OneToManyPhase([], s, unmatched, claimed)
    requires second == ManyToOnePhase(first.groups, s, claimed + first.found.ledgers, first.found.banks)
    ensures TwoPhases([], s).groups == second.groups
    ensures TwoPhases([], s).banks == first.found.banks + second.found.banks
  {
    hide OneToManyPhase, ManyToOnePhase, UnmatchedBanks, SuggestionClaims;
    var ledgers, banks := ClaimedLedgers([], s.ledgers, s.scope.entity), ClaimedBanks([], s.banks, s.scope.entity);
    assert ledgers == {} && banks == {};
    assert unmatched - banks == unmatched && claimed + ledgers == claimed;
    assert ledgers + first.found.ledgers == first.found.ledgers && banks + first.found.banks == first.found.banks;
  }

  lemma FirstTwoPhases(k: Kind, run: Id, end: int)
    requires end >= 5
    ensures TwoPhases([], FirstSetting(k, run, end)).groups == [Both(run)]
            && TwoPhases([], FirstSetting(k, run, end)).banks == {1, 2}
  {
    hide FirstSetting, Both, OneToManyPhase, ManyToOnePhase, UnmatchedBanks, SuggestionClaims, TwoPhases;
    var s := FirstSetting(k, run, end);
    FirstClaims(k, run, end);
    FirstOneToMany(k, run, end);
    FirstManyToOne(k, run, end);
    assert {12} + Begin([]).found.ledgers == {12};
    TwoPhasesFromNothing(s, {2}, {12}, Begin([]), Progress([Both(run)], Found(1, 0, {11}, {1, 2})));
  }

  lemma FirstExecution(k: Kind, run: Id, end: int, sees: bool, fixed: Fixed)
    requires end >= 5 && fixed.scopes(run) == Early(end) && AtHome(FirstBanks(k), fixed)
    ensures var st := State([], []);
            && Enabled(st, FirstRun(k, run, sees), fixed)
            && Apply(st, FirstRun(k, run, sees), fixed) == State(Suggestions(k, run), [Both(run)])
  {
    hide TwoPhases, Possible, Execution, UnmatchedBanks, MatchedLedgers, Suggestions, OneToOne.RunPass;
    var st := State([], []);
    FirstPass(k, run, end, sees);
    assert [] + Suggestions(k, run) == Suggestions(k, run);
    assert SettingOf(st, FirstRun(k, run, sees), fixed) == FirstSetting(k, run, end);
    FirstClaims(k, run, end);
    FirstTwoPhases(k, run, end);
    NothingAfterTwoPhases([], FirstSetting(k, run, end));
  }

  // ---------------------------------------------------------------- the second execution

  function Third(): OneToOne.Suggestion { OneToOne.SoleRow(2, Late(), Whole(Receipts), Limits()) }

  lemma LateIsMatched()
    ensures OneToOne.Top(Late(), Candidates(Late(), Bookings(Receipts), Limits(), {12})) == [Whole(Receipts)]
  {
    assert Candidates(Late(), Bookings(Receipts), Limits(), {12}) == map[11 := Whole(Receipts)];
    SoleSuggestions.OnlyCandidateIsTop(Late(), map[11 := Whole(Receipts)], Whole(Receipts));
  }

  lemma LateAlone()
    ensures OneToOne.ScopeRows(LaterBanks(), After6()) == {Late()}
  {
    assert LaterBanks()[3] == Late() && LaterBanks()[3] in LaterBanks().Values;
  }

  lemma ClaimedByFirst()
    ensures OneToOne.AlreadyClaimed(Suggestions(Receipts, 1), Bookings(Receipts), 1) == {12}
  {
    assert Suggestions(Receipts, 1)[0] in Suggestions(Receipts, 1) && Bookings(Receipts)[12] == Alone(Receipts);
  }

  lemma LateIsNew(sees: bool)
    ensures !OneToOne.Processed(OneToOne.Visible(Suggestions(Receipts, 1), [], sees), 2, Late().id)
  {
  }

  lemma OneTurn(
    start: OneToOne.Pass, run: Id, x: BankRow, ledgers: LedgerTable, cfg: Config,
    flushed: seq<OneToOne.Suggestion>, sees: bool)
    ensures OneToOne.AfterRows(start, run, [x], ledgers, cfg, flushed, sees)
            == OneToOne.AfterRow(start, run, x, ledgers, cfg, flushed, sees)
  {
    hide OneToOne.AfterRow;
    assert [x][..0] == [];
  }

  lemma SecondPass(sees: bool)
    ensures OneToOne.RunPass(
              2, After6(), LaterBanks(), Bookings(Receipts), Limits(), Suggestions(Receipts, 1), sees).added
            == [Third()]
  {
    hide Late, Whole, Limits, Bookings, Suggestions, OneToOne.Top, OneToOne.AfterRow, OneToOne.AfterRows, Candidates;
    hide OneToOne.TierOf, OneToOne.AlreadyClaimed;
    var start := OneToOne.Pass([], {12}, 0, 0, 0, 0);
    ClaimedByFirst();
    LateAlone();
    ListedAlone(Late(), OneToOne.BankKey());
    OneTurn(start, 2, Late(), Bookings(Receipts), Limits(), Suggestions(Receipts, 1), sees);
    LateIsMatched();
    LateIsNew(sees);
    TurnAdds(start, 2, Late(), Bookings(Receipts), Limits(), Suggestions(Receipts, 1), sees, [Whole(Receipts)]);
  }

  function AllSuggestions(): seq<OneToOne.Suggestion> { [Matched(Receipts, 1), Unmatched(Receipts, 1), Third()] }

  function SecondSetting(): Setting {
    Setting(2, After6(), LaterBanks(), Bookings(Receipts), AllSuggestions(), Limits(), NoRates())
  }

  lemma NothingUnmatched()
    ensures UnmatchedBanks(SecondSetting()) == {}
  {
  }

  /** One row in scope, and it is matched: no groups. */
  lemma QuietPhases(groups: seq<Group>, s: Setting, b: BankRow)
    requires UnmatchedBanks(s) == {} && OneToOne.ScopeRows(s.banks, s.scope) == {b}
    ensures TwoPhases(groups, s).groups == groups
  {
    hide UnmatchedBanks, SuggestionClaims, ClaimedBanks, ClaimedLedgers, OneToOne.ScopeRows;
    var ledgers := ClaimedLedgers(groups, s.ledgers, s.scope.entity);
    var banks := ClaimedBanks(groups, s.banks, s.scope.entity);
    assert ActiveRows(s.banks, UnmatchedBanks(s) - banks) == {};
    var first := OneToManyPhase(groups, s, UnmatchedBanks(s) - banks, SuggestionClaims(s) + ledgers);
    assert first == Begin(groups);
    forall r ensures !SharedReference(r, {b}) {
    }
    assert GroupableLedgers(s, SuggestionClaims(s) + (ledgers + first.found.ledgers)) == {};
  }

  lemma SecondExecution(sees: bool)
    ensures var st := State(Suggestions(Receipts, 1), [Both(1)]);
            && Enabled(st, SecondRun(sees), Places())
            && Apply(st, SecondRun(sees), Places()) == State(AllSuggestions(), [Both(1)])
  {
    hide TwoPhases, Possible, Execution, UnmatchedBanks, MatchedLedgers, OneToOne.RunPass, Both;
    hide Matched, Unmatched, Third;
    var st := State(Suggestions(Receipts, 1), [Both(1)]);
    SecondPass(sees);
    assert Suggestions(Receipts, 1) + [Third()] == AllSuggestions();
    assert SettingOf(st, SecondRun(sees), Places()) == SecondSetting();
    NothingUnmatched();
    LateAlone();
    QuietPhases([Both(1)], SecondSetting(), Late());
    NothingAfterTwoPhases([Both(1)], SecondSetting());
    AllAtHome();
  }

  lemma AllAtHome()
    ensures AtHome(FirstBanks(Receipts), Places()) && AtHome(LaterBanks(), Places())
  {
  }

  /** In a reachable state, whether or not a pass sees its own rows: bank row 1 is in a live sole
      suggestion and in a pending many-to-one group, and so is ledger row 11. */
  lemma SuggestionsAndGroupsOverlap(sees: bool)
    ensures var st := After([FirstRun(Receipts, 1, sees), SecondRun(sees)], Places());
            && st.groups == [Group(1, ManyToOne, Pending, [1, 2], [11], 150, 150, 1)]
            && |st.suggestions| == 3
            && SoleSuggestions.LiveSole(st.suggestions, 0, 12) && st.suggestions[0].bank == 1
            && SoleSuggestions.LiveSole(st.suggestions, 2, 11) && st.suggestions[2].bank == 3
  {
    hide Enabled, Apply, FirstRun, SecondRun, Part, Rest, Late, Whole, Alone, Limits;
    var steps := [FirstRun(Receipts, 1, sees), SecondRun(sees)];
    assert steps[..1] == [FirstRun(Receipts, 1, sees)] && steps[..1][..0] == [];
    AllAtHome();
    FirstExecution(Receipts, 1, 6, sees, Places());
    SecondExecution(sees);
    assert After(steps[..1], Places()) == State(Suggestions(Receipts, 1), [Both(1)]);
    assert After(steps, Places()) == State(AllSuggestions(), [Both(1)]);
    AllAreSole();
  }

  lemma AllAreSole()
    ensures SoleSuggestions.LiveSole(AllSuggestions(), 0, 12) && AllSuggestions()[0].bank == 1
    ensures SoleSuggestions.LiveSole(AllSuggestions(), 2, 11) && AllSuggestions()[2].bank == 3
  {
    hide OneToOne.TierOf, Limits;
  }
}
