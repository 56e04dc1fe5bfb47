/** First executions over a scope with two bank rows that share one reference: no suggestion is
    found, and two payments that need not be in the scope are grouped around a ledger row. */
module BankClashScene {
  import opened RowOrder
  import opened GroupSearch
  import opened ReconciliationModel
  import opened AdvancedMatching
  import opened ReconciliationRuns
  import OneToOne = OneToOneMatching
  import OverlapScene
  import Scene = LedgerClashScene

  // ---------------------------------------------------------------- the rows

  function Statement(scope: Scope, id: Id, currency: Id, date: int, amount: int, refs: set<string>): BankRow {
    BankRow(id, scope.entity, scope.account, currency, Credit, date, amount, refs, {}, false, true)
  }

  /** The two rows that end in a group. */
  function Large(scope: Scope, day: int): BankRow { Statement(scope, 1, 1, day, 100, {"A", "B"}) }
  function Small(scope: Scope, day: int): BankRow { Statement(scope, 2, 1, day, 50, {"A", "C"}) }

  /** A row of another currency, which lends a scope its reference and nothing else. */
  function Helper(scope: Scope, id: Id, day: int, ref: string): BankRow { Statement(scope, id, 2, day, 70, {ref}) }

  function Sum(scope: Scope, id: Id, date: int, refs: set<string>): LedgerRow {
    LedgerRow(id, scope.entity, scope.account, 1, Inflow, date, 150, refs, [], true, None)
  }

  /** One ledger row for either execution; each refers to both bank rows. */
  function Sums(scope: Scope, one: int, two: int): LedgerTable {
    map[11 := Sum(scope, 11, one, {"A"}), 12 := Sum(scope, 12, two, {"B", "C"})]
  }

  function Nones(k: nat): (choices: seq<Option<LedgerRow>>)
    ensures |choices| == k && forall i | 0 <= i < k :: choices[i] == None
  {
    seq(k, i => None)
  }

  function Run(run: Id, banks: BankTable, ledgers: LedgerTable, days: int, left: nat): Step {
    Execute(run, banks, ledgers, Scene.Exactly(days), OverlapScene.NoRates(), false, Choices([], [], Nones(left)))
  }

  predicate TooSmall(b: BankRow) {
    b.amount == 100 || b.amount == 50 || b.amount == 70
  }

  // ---------------------------------------------------------------- the pass

  lemma NoCandidates(scope: Scope, b: BankRow, one: int, two: int, days: int, claimed: set<Id>)
    requires TooSmall(b)
    ensures OneToOne.Top(b, Candidates(b, Sums(scope, one, two), Scene.Exactly(days), claimed)) == []
  {
    assert Candidates(b, Sums(scope, one, two), Scene.Exactly(days), claimed) == map[];
    assert OneToOne.Best(b, map[]) == {};
  }

  function NothingFound(run: Id, x: BankRow, y: BankRow): seq<OneToOne.Suggestion> {
    [OneToOne.NoneFound(run, x), OneToOne.NoneFound(run, y)]
  }

  lemma PassFindsNothing(
    run: Id, scope: Scope, banks: BankTable, one: int, two: int, days: int, x: BankRow, y: BankRow)
    requires OneToOne.ScopeRows(banks, scope) == {x, y} && TooSmall(x) && TooSmall(y) && x.id != y.id
    requires Before(OneToOne.BankKey()(x), OneToOne.BankKey()(y))
    ensures OneToOne.RunPass(run, scope, banks, Sums(scope, one, two), Scene.Exactly(days), [], false).added
            == NothingFound(run, x, y)
  {
    hide OneToOne.AfterRow, OneToOne.AfterRows, OneToOne.Top, Candidates, OneToOne.ScopeRows, Sums, TooSmall;
    var ledgers, cfg := Sums(scope, one, two), Scene.Exactly(days);
    assert OneToOne.AlreadyClaimed([], ledgers, scope.entity) == {};
    var start := OneToOne.Pass([], {}, 0, 0, 0, 0);
    ListedTwo(x, y, OneToOne.BankKey());
    OverlapScene.TwoTurns(start, run, x, y, ledgers, cfg, [], false);
    NoCandidates(scope, x, one, two, days, {});
    OverlapScene.TurnAdds(start, run, x, ledgers, cfg, [], false, []);
    var after := OneToOne.AfterRow(start, run, x, ledgers, cfg, [], false);
    NoCandidates(scope, y, one, two, days, after.claimed);
    OverlapScene.TurnAdds(after, run, y, ledgers, cfg, [], false, []);
  }

  lemma BothUnmatched(s: Setting, x: BankRow, y: BankRow)
    requires s.suggestions == NothingFound(s.run, x, y)
    ensures UnmatchedBanks(s) == {x.id, y.id} && MatchedLedgers(s) == {} && SuggestionClaims(s) == {}
  {
    assert s.suggestions[0] in s.suggestions && s.suggestions[1] in s.suggestions;
    assert forall z | z in s.suggestions :: z == s.suggestions[0] || z == s.suggestions[1];
  }

  // ---------------------------------------------------------------- one to many finds nothing

  lemma TwoSumsAreTooMuch(rows: seq<LedgerRow>, amount: int)
    requires |rows| == 2 && rows[0].amount == 150 && rows[1].amount == 150 && amount < 300
    ensures Answer(rows, amount, Allowance(amount, 0.0), LedgerAmount()) == NoGrouping
  {
    assert rows[..1] == [rows[0]] && rows[..1][..0] == [] && rows == rows[..1] + [rows[1]];
    assert Total(rows[..1], LedgerAmount()) == 150;
    assert Total(rows, LedgerAmount()) == 300;
    assert Allowance(amount, 0.0) == 0.0;
    hide Total;
    assert Alternates(rows, 0, amount, Allowance(amount, 0.0), LedgerAmount()) == [];
    assert Alternates(rows, 1, amount, Allowance(amount, 0.0), LedgerAmount()) == [];
    assert Alternates(rows, 2, amount, Allowance(amount, 0.0), LedgerAmount()) == [];
  }

  lemma FewSums(b: BankRow, scope: Scope, one: int, two: int, days: int)
    ensures var rows := LedgerCandidates(b, Sums(scope, one, two), Scene.Exactly(days), {});
            |rows| <= 2 && forall l | l in rows :: l.amount == 150
  {
    var ledgers := Sums(scope, one, two);
    var pool := LedgerPool(b, ledgers, Scene.Exactly(days), {});
    var all := {ledgers[11], ledgers[12]};
    assert pool <= all;
    SubsetIsSmaller(pool, all);
    assert forall l | l in InOrder(pool, LedgerKey()) :: l in Elements(InOrder(pool, LedgerKey()));
  }

  lemma SubsetIsSmaller(a: set<LedgerRow>, b: set<LedgerRow>)
    requires a <= b
    ensures |a| <= |b|
  {
    assert b == a + (b - a);
  }

  lemma TurnFindsNothing(s: Setting, scope: Scope, b: BankRow, one: int, two: int, days: int)
    requires s.ledgers == Sums(scope, one, two) && s.cfg == Scene.Exactly(days) && TooSmall(b)
    ensures OneToManyTurn(Begin([]), s, b, {}) == Begin([])
  {
    hide LedgerCandidates, Answer;
    assert {} + Begin([]).found.ledgers == {};
    FewSums(b, scope, one, two, days);
    var rows := LedgerCandidates(b, s.ledgers, s.cfg, {});
    if |rows| == 2 {
      assert rows[0] in rows && rows[1] in rows;
      TwoSumsAreTooMuch(rows, b.amount);
    }
  }

  lemma TheseTwoAreActive(banks: BankTable, x: BankRow, y: BankRow)
    requires x in banks.Values && y in banks.Values && x.active && y.active
    ensures ActiveRows(banks, {x.id, y.id}) == {x, y}
  {
    assert banks[x.id] == x && banks[y.id] == y;
  }

  lemma OneToManyFindsNothing(s: Setting, scope: Scope, x: BankRow, y: BankRow, one: int, two: int, days: int)
    requires s.ledgers == Sums(scope, one, two) && s.cfg == Scene.Exactly(days) && TooSmall(x) && TooSmall(y)
    requires x in s.banks.Values && y in s.banks.Values && x.active && y.active
    requires Before(OneToOne.BankKey()(x), OneToOne.BankKey()(y))
    ensures OneToManyPhase([], s, {x.id, y.id}, {}) == Begin([])
  {
    TheseTwoAreActive(s.banks, x, y);
    hide OneToManyTurn, TooSmall, Sums, ActiveRows;
    ListedTwo(x, y, OneToOne.BankKey());
    TurnFindsNothing(s, scope, x, one, two, days);
    TurnFindsNothing(s, scope, y, one, two, days);
    assert [x, y][..1] == [x] && [x][..0] == [] && OneToManyRows(Begin([]), s, [], {}) == Begin([]);
    assert OneToManyRows(Begin([]), s, [x], {}) == Begin([]);
    assert OneToManyRows(Begin([]), s, [x, y], {}) == Begin([]);
  }

  // ---------------------------------------------------------------- the group

  /** In a scope of two rows only their one shared reference makes a ledger row groupable. */
  lemma OneIsGroupable(s: Setting, x: BankRow, y: BankRow, l: LedgerRow, other: LedgerRow, ref: string)
    requires OneToOne.ScopeRows(s.banks, s.scope) == {x, y} && x != y && x.refs * y.refs == {ref} && ref != ""
    requires s.ledgers.Values == {l, other} && ref in l.refs && ref !in other.refs && InLedgerPeriod(l, s)
    ensures GroupableLedgers(s, {}) == {l}
  {
    hide OneToOne.ScopeRows, InLedgerPeriod;
    forall r ensures SharedReference(r, {x, y}) <==> r == ref {
      assert r in x.refs && r in y.refs <==> r in x.refs * y.refs;
    }
    assert SharesWithSeveral(l, {x, y});
    assert !SharesWithSeveral(other, {x, y});
  }

  /** The large and the small row are what fits around `l`. */
  lemma BothAreFound(s: Setting, scope: Scope, day: int, l: LedgerRow)
    requires s.scope.entity == scope.entity && s.scope.account == scope.account && s.cfg.maxCandidates >= 2
    requires Large(scope, day) in s.banks.Values && Small(scope, day) in s.banks.Values
    requires forall b | b in s.banks.Values && b.currency == 1 :: b == Large(scope, day) || b == Small(scope, day)
    requires l.currency == 1 && l.direction == Inflow && DatesWithin(l.date, day, s.cfg.dateToleranceDays)
    requires SharesReference(Large(scope, day), l) && SharesReference(Small(scope, day), l)
    ensures BankCandidates(l, s, {}) == [Large(scope, day), Small(scope, day)]
  {
    assert BankPool(l, s, {}) == {Large(scope, day), Small(scope, day)};
    ListedTwo(Large(scope, day), Small(scope, day), OneToOne.BankKey());
  }

  lemma TheySum(scope: Scope, day: int)
    ensures var rows := [Large(scope, day), Small(scope, day)];
            && Total(rows, BankAmount()) == 150
            && Answer(rows, 150, Allowance(150, 0.0), BankAmount()) == Accept(rows)
  {
    var rows := [Large(scope, day), Small(scope, day)];
    assert rows[..1] == [rows[0]] && rows[..1][..0] == [];
    assert Total(rows[..1], BankAmount()) == 100;
    assert Allowance(150, 0.0) == 0.0;
    hide Alternates;
  }

  function Together(run: Id, ledger: Id): Group {
    Group(run, ManyToOne, Pending, [1, 2], [ledger], 150, 150, 1)
  }

  lemma TurnGroupsThem(s: Setting, scope: Scope, day: int, l: LedgerRow)
    requires BankCandidates(l, s, {}) == [Large(scope, day), Small(scope, day)]
    requires l.amount == 150 && l.currency == 1 && s.cfg.amountTolerancePct == 0.0
    ensures ManyToOneTurn(Begin([]), s, l, {}) == Progress([Together(s.run, l.id)], Found(1, 0, {l.id}, {1, 2}))
  {
    hide Answer, BankCandidates;
    var rows := [Large(scope, day), Small(scope, day)];
    assert {} + Begin([]).found.banks == {};
    TheySum(scope, day);
    assert BankIds(rows) == [1, 2];
    assert BankGroup(s.run, l, Pending, rows[0], rows) == Together(s.run, l.id);
    assert Elements([l.id]) == {l.id} && Elements([1, 2]) == {1, 2};
  }

  lemma PhaseGroupsThem(s: Setting, l: LedgerRow, after: Progress)
    requires GroupableLedgers(s, {}) == {l} && ManyToOneTurn(Begin([]), s, l, {}) == after && s.cfg.advancedEnabled
    ensures ManyToOnePhase([], s, {}, {}) == after
  {
    hide ManyToOneTurn, GroupableLedgers;
    ListedAlone(l, LedgerKey());
    assert [l][..0] == [] && ManyToOneRows(Begin([]), s, [], {}) == Begin([]);
    assert ManyToOneRows(Begin([]), s, [l], {}) == ManyToOneTurn(Begin([]), s, l, {});
  }

  // ---------------------------------------------------------------- no rates, no conversions

  lemma {:induction false} NothingConverts(start: Progress, s: Setting, rows: seq<BankRow>, base: set<Id>)
    requires s.convert == OverlapScene.NoRates()
    ensures PossibleFx(start, s, rows, Nones(|rows|), base) && FxRows(start, s, rows, Nones(|rows|)) == start
  {
    if rows != [] {
      NothingConverts(start, s, rows[..|rows| - 1], base);
      assert Nones(|rows|)[..|rows| - 1] == Nones(|rows| - 1);
    }
  }

  lemma NothingAfterTwoPhases(groups: seq<Group>, s: Setting)
    requires s.convert == OverlapScene.NoRates() && Primaries(s.ledgers, MatchedLedgers(s)) == {}
    ensures var c := Choices([], [], Nones(|LeftForFx(groups, s)|));
            Possible(groups, s, c) && Execution(groups, s, c).0 == TwoPhases(groups, s).groups
  {
    hide TwoPhases, LeftForFx, MatchedLedgers, Primaries, SuggestionClaims, PossibleFx, FxRows;
    NothingConverts(Begin(TwoPhases(groups, s).groups), s, LeftForFx(groups, s),
                    SuggestionClaims(s) + TwoPhases(groups, s).ledgers);
  }

  // ---------------------------------------------------------------- a whole execution

  /** The rows a first execution meets: two in scope that share `ref`, and the large and the small
      row near a ledger row `l` with that reference, which is in reach of the period. */
  ghost predicate Meets(
    scope: Scope, banks: BankTable, ledgers: LedgerTable, days: int, x: BankRow, y: BankRow, day: int,
    l: LedgerRow, other: LedgerRow, ref: string)
  {
    && OneToOne.ScopeRows(banks, scope) == {x, y} && TooSmall(x) && TooSmall(y)
    && x.id != y.id && Before(OneToOne.BankKey()(x), OneToOne.BankKey()(y))
    && ((x.id == 1 && y.id == 2) || {x.id, y.id} !! {1, 2})
    && x.refs * y.refs == {ref} && ref != "" && ref in l.refs && ref !in other.refs
    && ledgers.Values == {l, other} && DatesWithin(l.date, day, days)
    && scope.periodStart - days <= l.date <= scope.periodEnd + days
    && Large(scope, day) in banks.Values && Small(scope, day) in banks.Values
    && (forall b | b in banks.Values && b.currency == 1 :: b == Large(scope, day) || b == Small(scope, day))
    && SharesReference(Large(scope, day), l) && SharesReference(Small(scope, day), l)
    && l == Sum(scope, l.id, l.date, l.refs)
  }

  /** The rows in scope that no group took. */
  function Left(x: BankRow): nat {
    if x.id == 1 then 0 else 2
  }

  lemma ScopeOfTwo(
    scope: Scope, banks: BankTable, ledgers: LedgerTable, days: int, x: BankRow, y: BankRow, day: int,
    l: LedgerRow, other: LedgerRow, ref: string)
    requires Meets(scope, banks, ledgers, days, x, y, day, l, other, ref)
    ensures OneToOne.ScopeRows(banks, scope) == {x, y} && TooSmall(x) && TooSmall(y) && x.id != y.id
    ensures Before(OneToOne.BankKey()(x), OneToOne.BankKey()(y))
    ensures (x.id == 1 && y.id == 2) || {x.id, y.id} !! {1, 2}
    ensures x in banks.Values && y in banks.Values && x.active && y.active
  {
    assert x in OneToOne.ScopeRows(banks, scope) && y in OneToOne.ScopeRows(banks, scope);
  }

  lemma TurnInReach(
    s: Setting, days: int, x: BankRow, y: BankRow, day: int, l: LedgerRow, other: LedgerRow, ref: string)
    requires Meets(s.scope, s.banks, s.ledgers, days, x, y, day, l, other, ref) && s.cfg == Scene.Exactly(days)
    ensures GroupableLedgers(s, {}) == {l}
    ensures ManyToOneTurn(Begin([]), s, l, {}) == Progress([Together(s.run, l.id)], Found(1, 0, {l.id}, {1, 2}))
  {
    hide ManyToOneTurn, GroupableLedgers, OneToOne.ScopeRows, TooSmall, Large, Small, BankCandidates, Together;
    OneIsGroupable(s, x, y, l, other, ref);
    BothAreFound(s, s.scope, day, l);
    TurnGroupsThem(s, s.scope, day, l);
  }

  /** One-to-many adds nothing, many-to-one the one group. */
  lemma TwoPhasesAre(s: Setting, unmatched: set<Id>, l: LedgerRow, after: Progress)
    requires UnmatchedBanks(s) == unmatched && SuggestionClaims(s) == {} && s.cfg.advancedEnabled
    requires OneToManyPhase([], s, unmatched, {}) == Begin([])
    requires GroupableLedgers(s, {}) == {l} && ManyToOneTurn(Begin([]), s, l, {}) == after
    ensures TwoPhases([], s).groups == after.groups && TwoPhases([], s).banks == after.found.banks
  {
    hide TwoPhases, UnmatchedBanks, SuggestionClaims, OneToManyPhase, ManyToOnePhase, ManyToOneTurn, GroupableLedgers;
    PhaseGroupsThem(s, l, after);
    assert {} + Begin([]).found.ledgers == {};
    OverlapScene.TwoPhasesFromNothing(s, unmatched, {}, Begin([]), after);
  }

  lemma TwoPhasesGroupThem(
    s: Setting, one: int, two: int, days: int, x: BankRow, y: BankRow, day: int, l: LedgerRow, other: LedgerRow,
    ref: string)
    requires Meets(s.scope, s.banks, s.ledgers, days, x, y, day, l, other, ref)
    requires s.ledgers == Sums(s.scope, one, two) && s.cfg == Scene.Exactly(days)
    requires s.suggestions == NothingFound(s.run, x, y)
    ensures TwoPhases([], s).groups == [Together(s.run, l.id)] && TwoPhases([], s).banks == {1, 2}
  {
    hide *;
    ScopeOfTwo(s.scope, s.banks, s.ledgers, days, x, y, day, l, other, ref);
    TurnInReach(s, days, x, y, day, l, other, ref);
    BothUnmatched(s, x, y);
    OneToManyFindsNothing(s, s.scope, x, y, one, two, days);
    Enables(days);
    TwoPhasesAre(s, {x.id, y.id}, l, Progress([Together(s.run, l.id)], Found(1, 0, {l.id}, {1, 2})));
  }

  lemma Enables(days: int)
    ensures Scene.Exactly(days).advancedEnabled
  {
  }

  lemma LeftOver(s: Setting, x: BankRow, y: BankRow)
    requires UnmatchedBanks(s) == {x.id, y.id} && TwoPhases([], s).banks == {1, 2} && s.cfg.advancedEnabled
    requires x in s.banks.Values && y in s.banks.Values && x.active && y.active && x.id != y.id
    requires (x.id == 1 && y.id == 2) || {x.id, y.id} !! {1, 2}
    ensures |LeftForFx([], s)| == Left(x)
  {
    hide UnmatchedBanks, TwoPhases;
    var taken := ClaimedBanks([], s.banks, s.scope.entity);
    assert taken == {};
    if x.id == 1 {
      assert {x.id, y.id} - taken - {1, 2} == {};
      assert ActiveRows(s.banks, {}) == {};
    } else {
      assert {x.id, y.id} - taken - {1, 2} == {x.id, y.id};
      TheseTwoAreActive(s.banks, x, y);
    }
  }

  lemma NoTransfers(scope: Scope, one: int, two: int, matched: set<Id>)
    ensures Primaries(Sums(scope, one, two), matched) == {}
  {
  }

  /** An execution from no rows at all, put together from its pass and its phases. */
  lemma RunFromNothing(
    step: Step, fixed: Fixed, rows: seq<OneToOne.Suggestion>, s: Setting, groups: seq<Group>, left: nat)
    requires step.Execute? && AtHome(step.banks, fixed) && step.choices == Choices([], [], Nones(left))
    requires step.convert == OverlapScene.NoRates() && AfterOneToOne(State([], []), step, fixed) == rows
    requires s == SettingOf(State([], []), step, fixed) && TwoPhases([], s).groups == groups
    requires Primaries(s.ledgers, MatchedLedgers(s)) == {} && |LeftForFx([], s)| == left
    ensures Enabled(State([], []), step, fixed)
    ensures Apply(State([], []), step, fixed) == State(rows, groups)
  {
    hide TwoPhases, Possible, Execution, MatchedLedgers, AfterOneToOne, AtHome, Primaries, LeftForFx, Nones;
    NothingAfterTwoPhases([], s);
  }

  lemma PassIs(run: Id, scope: Scope, banks: BankTable, one: int, two: int, days: int, x: BankRow, y: BankRow,
    fixed: Fixed, left: nat)
    requires OneToOne.ScopeRows(banks, scope) == {x, y} && TooSmall(x) && TooSmall(y) && x.id != y.id
    requires Before(OneToOne.BankKey()(x), OneToOne.BankKey()(y)) && fixed.scopes(run) == scope
    ensures var step := Run(run, banks, Sums(scope, one, two), days, left);
            && step.Execute? && step.choices == Choices([], [], Nones(left)) && step.banks == banks
            && step.convert == OverlapScene.NoRates()
            && AfterOneToOne(State([], []), step, fixed) == NothingFound(run, x, y)
            && SettingOf(State([], []), step, fixed)
               == Setting(run, scope, banks, Sums(scope, one, two), NothingFound(run, x, y), Scene.Exactly(days),
                          OverlapScene.NoRates())
  {
    hide OneToOne.RunPass, OneToOne.ScopeRows, Sums, TooSmall, NothingFound, Nones;
    PassFindsNothing(run, scope, banks, one, two, days, x, y);
    assert [] + NothingFound(run, x, y) == NothingFound(run, x, y);
  }

  lemma GroupingRun(
    run: Id, scope: Scope, banks: BankTable, one: int, two: int, days: int, x: BankRow, y: BankRow, day: int,
    l: LedgerRow, other: LedgerRow, ref: string, fixed: Fixed)
    requires Meets(scope, banks, Sums(scope, one, two), days, x, y, day, l, other, ref)
    requires fixed.scopes(run) == scope && AtHome(banks, fixed)
    ensures var st, step := State([], []), Run(run, banks, Sums(scope, one, two), days, Left(x));
            && Enabled(st, step, fixed)
            && Apply(st, step, fixed) == State(NothingFound(run, x, y), [Together(run, l.id)])
  {
    hide *;
    ScopeOfTwo(scope, banks, Sums(scope, one, two), days, x, y, day, l, other, ref);
    var s := Setting(run, scope, banks, Sums(scope, one, two), NothingFound(run, x, y), Scene.Exactly(days),
                     OverlapScene.NoRates());
    PassIs(run, scope, banks, one, two, days, x, y, fixed, Left(x));
    TwoPhasesGroupThem(s, one, two, days, x, y, day, l, other, ref);
    BothUnmatched(s, x, y);
    Enables(days);
    LeftOver(s, x, y);
    NoTransfers(scope, one, two, MatchedLedgers(s));
    RunFromNothing(Run(run, banks, Sums(scope, one, two), days, Left(x)), fixed, NothingFound(run, x, y), s,
                   [Together(run, l.id)], Left(x));
  }
}
