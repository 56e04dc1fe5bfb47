/** Which scopes and tolerances let two executions side by side take the same ledger row, in two
    groups or in two sole suggestions. */
module ExecutionClashes {
  import opened ReconciliationModel
  import opened AdvancedMatching
  import opened GroupExclusivity
  import opened ReconciliationRuns
  import opened OverlappingExecutions
  import OneToOne = OneToOneMatching
  import SoleSuggestions
  import Scene = LedgerClashScene

  /** Two executions with these scopes and date tolerances. */
  ghost predicate Cover(fixed: Fixed, e: Step, f: Step, s: Scope, m: int, t: Scope, n: int) {
    && e.Execute? && fixed.scopes(e.run) == s && e.cfg.dateToleranceDays == m
    && f.Execute? && fixed.scopes(f.run) == t && f.cfg.dateToleranceDays == n
  }

  /** Both read the state after `steps` and commit, and two live groups share a row. */
  ghost predicate GroupsClash(steps: seq<Step>, fixed: Fixed, e: Step, f: Step, side: Side) {
    var st := After(steps, fixed);
    && BothCanRun(st, e, f, fixed)
    && var a, b := Apply(st, e, fixed).groups, Apply(st, f, fixed).groups;
    && st.groups <= b && !Exclusive(Merged(st.groups, a, b), side)
  }

  ghost predicate GroupsClashOver(
    steps: seq<Step>, fixed: Fixed, e: Step, f: Step, s: Scope, m: int, t: Scope, n: int, side: Side)
  {
    Cover(fixed, e, f, s, m, t, n) && GroupsClash(steps, fixed, e, f, side)
  }

  ghost predicate GroupsCanClash(s: Scope, m: int, t: Scope, n: int, side: Side) {
    exists steps, fixed, e, f :: GroupsClashOver(steps, fixed, e, f, s, m, t, n, side)
  }

  /** Each pass alone leaves sole suggestions exclusive, both together do not. */
  ghost predicate SuggestionsClash(steps: seq<Step>, fixed: Fixed, e: Step, f: Step) {
    var st := After(steps, fixed);
    && BothCanRun(st, e, f, fixed)
    && var a, b := AfterOneToOne(st, e, fixed), AfterOneToOne(st, f, fixed);
    && SoleSuggestions.Exclusive(a) && SoleSuggestions.Exclusive(b)
    && st.suggestions <= b && !SoleSuggestions.Exclusive(MergedRows(st.suggestions, a, b))
  }

  ghost predicate SuggestionsClashOver(
    steps: seq<Step>, fixed: Fixed, e: Step, f: Step, s: Scope, m: int, t: Scope, n: int)
  {
    Cover(fixed, e, f, s, m, t, n) && SuggestionsClash(steps, fixed, e, f)
  }

  ghost predicate SuggestionsCanClash(s: Scope, m: int, t: Scope, n: int) {
    exists steps, fixed, e, f :: SuggestionsClashOver(steps, fixed, e, f, s, m, t, n)
  }

  // ---------------------------------------------------------------- apart, nothing clashes

  lemma ApartGroupsCannotClash(s: Scope, m: int, t: Scope, n: int, side: Side)
    requires GroupsCanClash(s, m, t, n, side)
    ensures !LockOrders(s, t) && Meet(s, Reach(m, side), t, Reach(n, side))
  {
    hide Enabled, After, Apply, Exclusive, Merged;
    var steps, fixed, e, f :| GroupsClashOver(steps, fixed, e, f, s, m, t, n, side);
    var st := After(steps, fixed);
    if Apart(SettingOf(st, e, fixed), SettingOf(st, f, fixed), side) {
      ApartExecutionsStayExclusive(steps, fixed, e, f, side);
    }
  }

  lemma ApartSuggestionsCannotClash(s: Scope, m: int, t: Scope, n: int)
    requires SuggestionsCanClash(s, m, t, n)
    ensures !LockOrders(s, t) && Meet(s, Reach(m, Ledgers), t, Reach(n, Ledgers))
  {
    hide Enabled, After, SoleSuggestions.Exclusive, MergedRows;
    var steps, fixed, e, f :| SuggestionsClashOver(steps, fixed, e, f, s, m, t, n);
    var st := After(steps, fixed);
    if Apart(SettingOf(st, e, fixed), SettingOf(st, f, fixed), Ledgers) {
      ApartPassesStayExclusive(st, e, f, fixed);
    }
  }

  // ---------------------------------------------------------------- days on which they clash

  predicate InPeriod(s: Scope, day: int) {
    s.periodStart <= day <= s.periodEnd
  }

  predicate Proper(s: Scope) {
    s.periodStart <= s.periodEnd
  }

  /** A day of each period, and a day within the tolerance of each; either one day of both
      periods or two days that are each of one period only. */
  lemma DaysThatMeet(s: Scope, m: int, t: Scope, n: int) returns (d: int, e: int, z: int)
    requires Proper(s) && Proper(t) && m >= 0 && n >= 0 && Meet(s, m, t, n)
    ensures InPeriod(s, d) && InPeriod(t, e) && DatesWithin(d, z, m) && DatesWithin(e, z, n)
    ensures d == e || (!InPeriod(t, d) && !InPeriod(s, e))
    ensures Meet(s, 0, t, 0) ==> d == e
  {
    if s.periodEnd < t.periodStart {
      d, e := s.periodEnd, t.periodStart;
      z := if d + m <= e then d + m else e;
    } else if t.periodEnd < s.periodStart {
      d, e := s.periodStart, t.periodEnd;
      z := if d - m >= e then d - m else e;
    } else {
      d := if s.periodStart >= t.periodStart then s.periodStart else t.periodStart;
      e, z := d, d;
    }
  }

  function Second(d: int, e: int): Id {
    if d == e then 1 else 2
  }

  /** One bank row on each day, one if it is the same day. */
  function Statements(s: Scope, d: int, e: int): BankTable {
    if d == e then map[1 := Scene.Receipt(s, 1, d)]
    else map[1 := Scene.Receipt(s, 1, d), 2 := Scene.Receipt(s, 2, e)]
  }

  function Places(s: Scope, t: Scope): Fixed {
    Fixed(run => if run == 1 then s else t, id => s.entity)
  }

  lemma OneEach(s: Scope, t: Scope, d: int, e: int)
    requires s.entity == t.entity && s.account == t.account && InPeriod(s, d) && InPeriod(t, e)
    requires d == e || (!InPeriod(t, d) && !InPeriod(s, e))
    ensures OneToOne.ScopeRows(Statements(s, d, e), s) == {Scene.Receipt(s, 1, d)}
    ensures OneToOne.ScopeRows(Statements(s, d, e), t) == {Scene.Receipt(s, Second(d, e), e)}
    ensures AtHome(Statements(s, d, e), Places(s, t))
    ensures Scene.Receipt(s, 1, d) == Scene.Receipt(t, 1, d)
    ensures Scene.Receipt(s, Second(d, e), e) == Scene.Receipt(t, Second(d, e), e)
  {
    var banks := Statements(s, d, e);
    assert banks[1] in banks.Values && banks[Second(d, e)] in banks.Values;
  }

  lemma BothGroup(s: Scope, m: int, t: Scope, n: int, d: int, e: int, z: int, side: Side)
    requires s.entity == t.entity && s.account == t.account && InPeriod(s, d) && InPeriod(t, e)
    requires d == e || (!InPeriod(t, d) && !InPeriod(s, e))
    requires DatesWithin(d, z, m) && DatesWithin(e, z, n) && (side == Banks ==> d == e) && !LockOrders(s, t)
    ensures GroupsCanClash(s, m, t, n, side)
  {
    hide Enabled, Apply, AtHome, DatesWithin, OneToOne.ScopeRows, InPeriod;
    var fixed, banks, ledgers := Places(s, t), Statements(s, d, e), Scene.Booked(s, z, true);
    var k := Second(d, e);
    OneEach(s, t, d, e);
    hide Statements, Scene.Receipt, Scene.Booked;
    var one, two := Scene.Run(1, banks, ledgers, m), Scene.Run(2, banks, ledgers, n);
    Scene.GroupingRun(1, s, banks, Scene.Receipt(s, 1, d), z, m, fixed);
    Scene.GroupingRun(2, t, banks, Scene.Receipt(s, k, e), z, n, fixed);
    assert After([], fixed) == State([], []);
    var merged := Merged([], [Scene.Together(1, Scene.Receipt(s, 1, d))], [Scene.Together(2, Scene.Receipt(s, k, e))]);
    assert Holds(merged, Ledgers, 0, 11) && Holds(merged, Ledgers, 1, 11);
    assert d == e ==> Holds(merged, Banks, 0, 1) && Holds(merged, Banks, 1, 1);
    assert GroupsClashOver([], fixed, one, two, s, m, t, n, side);
  }

  lemma TwoSoleRowsClash(x: OneToOne.Suggestion, y: OneToOne.Suggestion, l: Id)
    requires x.ledger == Some(l) && y.ledger == Some(l) && x.run != y.run && OneToOne.Live(x) && OneToOne.Live(y)
    ensures SoleSuggestions.Exclusive([x]) && SoleSuggestions.Exclusive([y])
    ensures [] <= [y] && !SoleSuggestions.Exclusive(MergedRows([], [x], [y]))
  {
    var all := MergedRows([], [x], [y]);
    assert all[0] == x && all[1] == y && |all| == 2;
    assert SoleSuggestions.LiveSole(all, 0, l) && SoleSuggestions.LiveSole(all, 1, l);
  }

  lemma BothSuggest(s: Scope, m: int, t: Scope, n: int, d: int, e: int, z: int)
    requires s.entity == t.entity && s.account == t.account && InPeriod(s, d) && InPeriod(t, e)
    requires d == e || (!InPeriod(t, d) && !InPeriod(s, e))
    requires DatesWithin(d, z, m) && DatesWithin(e, z, n) && !LockOrders(s, t)
    ensures SuggestionsCanClash(s, m, t, n)
  {
    hide Enabled, Apply, AtHome, DatesWithin, OneToOne.ScopeRows, InPeriod, OneToOne.RunPass;
    hide SoleSuggestions.Exclusive, MergedRows;
    var fixed, banks, ledgers := Places(s, t), Statements(s, d, e), Scene.Booked(s, z, false);
    var k := Second(d, e);
    OneEach(s, t, d, e);
    hide Statements, Scene.Receipt, Scene.Booked, OneToOne.TierOf;
    var one, two := Scene.Run(1, banks, ledgers, m), Scene.Run(2, banks, ledgers, n);
    Scene.SuggestingRun(1, s, banks, Scene.Receipt(s, 1, d), z, m, fixed);
    Scene.SuggestingRun(2, t, banks, Scene.Receipt(s, k, e), z, n, fixed);
    TwoSoleRowsClash(Scene.Suggested(1, s, Scene.Receipt(s, 1, d), z, m),
                     Scene.Suggested(2, t, Scene.Receipt(s, k, e), z, n), 11);
    assert After([], fixed) == State([], []);
    assert Apply(State([], []), one, fixed).suggestions == AfterOneToOne(State([], []), one, fixed) by {
      SuggestionsAfter(State([], []), one, fixed);
    }
    SuggestionsAfter(State([], []), two, fixed);
    assert SuggestionsClashOver([], fixed, one, two, s, m, t, n);
  }

  lemma SuggestionsAfter(st: State, e: Step, fixed: Fixed)
    requires e.Execute? && Enabled(st, e, fixed)
    ensures Apply(st, e, fixed).suggestions == AfterOneToOne(st, e, fixed)
  {
    hide Enabled, AfterOneToOne, Execution;
  }

  // ---------------------------------------------------------------- exactly

  /** Two first passes can leave one ledger row in two live sole suggestions exactly when the lock
      does not order them and their periods, widened by the tolerances, have a day in common. */
  lemma SuggestionsClashExactlyWhen(s: Scope, m: int, t: Scope, n: int)
    requires Proper(s) && Proper(t) && m >= 0 && n >= 0
    ensures SuggestionsCanClash(s, m, t, n) <==> !LockOrders(s, t) && Meet(s, m, t, n)
  {
    hide SuggestionsCanClash, DatesWithin, InPeriod;
    if SuggestionsCanClash(s, m, t, n) {
      ApartSuggestionsCannotClash(s, m, t, n);
    }
    if !LockOrders(s, t) && Meet(s, m, t, n) {
      var d, e, z := DaysThatMeet(s, m, t, n);
      BothSuggest(s, m, t, n, d, e, z);
    }
  }
}
