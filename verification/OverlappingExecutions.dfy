/** Two executions that start from the same committed rows.

    The lock orders executions of one entity, account and exact period; any two others can read
    the same rows and both commit.  This file says how far apart keeps what they write apart. */
module OverlappingExecutions {
  import opened RowOrder
  import opened ReconciliationModel
  import opened AdvancedMatching
  import opened GroupExclusivity
  import opened GroupEvidence
  import opened ReconciliationRuns
  import GroupCounters
  import Money
  import OneToOne = OneToOneMatching
  import OneToOneProperties
  import SoleSuggestions

  /** What is stored once both have committed: the second adds what it computed from `before`. */
  function Merged(before: seq<Group>, a: seq<Group>, b: seq<Group>): seq<Group>
    requires before <= b
  {
    a + b[|before|..]
  }

  ghost predicate NewShareNothing(before: seq<Group>, a: seq<Group>, b: seq<Group>, side: Side) {
    forall i, j, id | |before| <= i && |before| <= j && Holds(a, side, i, id) :: !Holds(b, side, j, id)
  }

  lemma MergedHolds(before: seq<Group>, a: seq<Group>, b: seq<Group>, side: Side, k: int, id: Id)
    requires before <= b
    ensures Holds(Merged(before, a, b), side, k, id)
            <==> Holds(a, side, k, id) || (k >= |a| && Holds(b, side, k - |a| + |before|, id))
  {
  }

  /** Each execution alone keeps live groups apart, so together they do exactly when no new live
      group of one shares a row with a new live group of the other. */
  lemma MergedIsExclusiveExactlyWhen(before: seq<Group>, a: seq<Group>, b: seq<Group>, side: Side)
    requires before <= a && before <= b && Exclusive(a, side) && Exclusive(b, side)
    ensures Exclusive(Merged(before, a, b), side) <==> NewShareNothing(before, a, b, side)
  {
    var merged := Merged(before, a, b);
    forall k, id ensures Holds(merged, side, k, id)
                         <==> Holds(a, side, k, id) || (k >= |a| && Holds(b, side, k - |a| + |before|, id)) {
      MergedHolds(before, a, b, side, k, id);
    }
    assert forall i, id | i < |before| :: Holds(a, side, i, id) <==> Holds(b, side, i, id);
    hide Merged, Holds;
    if Exclusive(merged, side) {
      forall i, j, id | |before| <= i && |before| <= j && Holds(a, side, i, id) ensures !Holds(b, side, j, id) {
        var k := j + |a| - |before|;
        assert k - |a| + |before| == j && Holds(merged, side, i, id);
        assert Holds(b, side, j, id) ==> Holds(merged, side, k, id);
      }
    }
    if NewShareNothing(before, a, b, side) {
      forall i, j, id | Holds(merged, side, i, id) && Holds(merged, side, j, id) ensures i == j {
        SamePlace(before, a, b, side, i, j, id);
      }
    }
  }

  lemma SamePlace(before: seq<Group>, a: seq<Group>, b: seq<Group>, side: Side, i: int, j: int, id: Id)
    requires before <= a && before <= b && Exclusive(a, side) && Exclusive(b, side)
    requires NewShareNothing(before, a, b, side)
    requires Holds(Merged(before, a, b), side, i, id) && Holds(Merged(before, a, b), side, j, id)
    ensures i == j
  {
    var shift := |a| - |before|;
    MergedHolds(before, a, b, side, i, id);
    MergedHolds(before, a, b, side, j, id);
    assert i < |before| && j >= |a| ==> Holds(b, side, i, id) && Holds(b, side, j - shift, id);
    assert j < |before| && i >= |a| ==> Holds(b, side, j, id) && Holds(b, side, i - shift, id);
  }

  // ---------------------------------------------------------------- how far an execution reaches

  /** A ledger row is within the tolerance of the period; a bank row can be as far again from a
      ledger row. */
  function Reach(days: int, side: Side): int {
    (if side == Banks then 2 else 1) * Money.Max(0, days)
  }

  predicate InReach(entity: Id, account: Id, date: int, s: Setting, side: Side) {
    var reach := Reach(s.cfg.dateToleranceDays, side);
    && entity == s.scope.entity && account == s.scope.account
    && s.scope.periodStart - reach <= date <= s.scope.periodEnd + reach
  }

  predicate RowInReach(side: Side, id: Id, s: Setting) {
    if side == Banks then id in s.banks && InReach(s.banks[id].entity, s.banks[id].account, s.banks[id].date, s, side)
    else id in s.ledgers && InReach(s.ledgers[id].entity, s.ledgers[id].account, s.ledgers[id].date, s, side)
  }

  ghost predicate UnmatchedInScope(s: Setting) {
    forall id | id in UnmatchedBanks(s) && id in s.banks :: OneToOne.InScope(s.banks[id], s.scope)
  }

  /** Nothing outside the window ends up in a group other than a transfer. */
  lemma EvidenceIsInReach(g: Group, s: Setting, side: Side, id: Id)
    requires Evidence(g, s) && g.relation != InternalTransfer && UnmatchedInScope(s) && id in Members(g, side)
    ensures RowInReach(side, id, s)
  {
    hide UnmatchedBanks, SuggestionClaims, FxAgrees;
  }

  lemma NewGroupsAreInReach(groups: seq<Group>, s: Setting, c: Choices, side: Side, i: int, id: Id)
    requires KeysUnique(groups) && Possible(groups, s, c) && UnmatchedInScope(s)
    requires |groups| <= i && Holds(Execution(groups, s, c).0, side, i, id)
    ensures RowInReach(side, id, s)
  {
    hide Possible, Execution, Evidence, RowInReach, UnmatchedInScope;
    ExecutionIsJustified(groups, s, c);
    GroupCounters.ExecutionIsTallied(groups, s, c);
    var after := Execution(groups, s, c).0;
    EvidenceIsInReach(after[i], s, side, id);
  }

  /** One entity, one account, and periods that widened by `m` and `n` days have a day in common. */
  predicate Meet(s: Scope, m: int, t: Scope, n: int) {
    && s.entity == t.entity && s.account == t.account
    && s.periodStart - m <= t.periodEnd + n && t.periodStart - n <= s.periodEnd + m
  }

  /** Neither execution can reach a row of the other on this side. */
  predicate Apart(s: Setting, t: Setting, side: Side) {
    !Meet(s.scope, Reach(s.cfg.dateToleranceDays, side), t.scope, Reach(t.cfg.dateToleranceDays, side))
  }

  // ---------------------------------------------------------------- from one committed state

  lemma NewRunsStayInScope(st: State, step: Step, fixed: Fixed)
    requires step.Execute? && OneToOneProperties.FreshRun(st.suggestions, step.run)
    ensures UnmatchedInScope(SettingOf(st, step, fixed))
  {
    hide OneToOne.AfterRows, OneToOne.AlreadyClaimed, InOrder;
    var s, scope := SettingOf(st, step, fixed), fixed.scopes(step.run);
    var rows := InOrder(OneToOne.ScopeRows(step.banks, scope), OneToOne.BankKey());
    var start := OneToOne.Pass([], OneToOne.AlreadyClaimed(st.suggestions, step.ledgers, scope.entity), 0, 0, 0, 0);
    var pass := OneToOne.AfterRows(start, step.run, rows, step.ledgers, step.cfg, st.suggestions, step.sees);
    forall id | id in UnmatchedBanks(s) && id in s.banks ensures OneToOne.InScope(s.banks[id], s.scope) {
      var x :| x in s.suggestions && x.run == s.run && x.ledger.None? && x.bank == id;
      assert x in pass.added;
      var b := PassWritesAboutItsRows(start, step.run, rows, step.ledgers, step.cfg, st.suggestions, step.sees, x);
      assert b in Elements(rows);
    }
  }

  /** The lock's key is the entity, the account and the exact period. */
  predicate LockOrders(s: Scope, t: Scope) {
    s == t
  }

  ghost predicate BothCanRun(st: State, e: Step, f: Step, fixed: Fixed) {
    && e.Execute? && f.Execute? && e.run != f.run && e.banks == f.banks && e.ledgers == f.ledgers
    && !LockOrders(fixed.scopes(e.run), fixed.scopes(f.run))
    && OneToOneProperties.FreshRun(st.suggestions, e.run) && OneToOneProperties.FreshRun(st.suggestions, f.run)
    && Enabled(st, e, fixed) && Enabled(st, f, fixed)
  }

  lemma ApartGroupsShareNothing(st: State, e: Step, f: Step, fixed: Fixed, side: Side)
    requires Inv(st, fixed) && BothCanRun(st, e, f, fixed)
    requires Apart(SettingOf(st, e, fixed), SettingOf(st, f, fixed), side)
    ensures NewShareNothing(st.groups, Apply(st, e, fixed).groups, Apply(st, f, fixed).groups, side)
  {
    hide Possible, Execution, Holds, AtHome, AfterOneToOne, KeysUnique, UnmatchedInScope, OneToOneProperties.FreshRun;
    var s, t := SettingOf(st, e, fixed), SettingOf(st, f, fixed);
    NewRunsStayInScope(st, e, fixed);
    NewRunsStayInScope(st, f, fixed);
    var a, b := Apply(st, e, fixed).groups, Apply(st, f, fixed).groups;
    forall i, j, id | |st.groups| <= i && |st.groups| <= j && Holds(a, side, i, id) ensures !Holds(b, side, j, id) {
      NewGroupsAreInReach(st.groups, s, e.choices, side, i, id);
      if Holds(b, side, j, id) {
        NewGroupsAreInReach(st.groups, t, f.choices, side, j, id);
      }
    }
  }

  lemma ExecutionsExtend(st: State, e: Step, fixed: Fixed)
    requires e.Execute? && Enabled(st, e, fixed)
    ensures st.groups <= Apply(st, e, fixed).groups
  {
    hide Possible, Execution;
    GroupCounters.ExecutionIsTallied(st.groups, SettingOf(st, e, fixed), e.choices);
  }

  /** From any reachable state: two first executions of runs whose windows lie apart can commit
      side by side, and live groups still share no bank row and no ledger row. */
  lemma ApartExecutionsStayExclusive(
    steps: seq<Step>, fixed: Fixed, e: Step, f: Step, side: Side)
    requires var st := After(steps, fixed);
             BothCanRun(st, e, f, fixed) && Apart(SettingOf(st, e, fixed), SettingOf(st, f, fixed), side)
    ensures var st := After(steps, fixed);
            var a, b := Apply(st, e, fixed).groups, Apply(st, f, fixed).groups;
            && st.groups <= a && st.groups <= b && Exclusive(Merged(st.groups, a, b), side)
  {
    hide After, Apply, Enabled, Exclusive, Merged, NewShareNothing, KeysUnique, Apart;
    InvHolds(steps, fixed);
    var st := After(steps, fixed);
    StepKeepsInv(st, e, fixed);
    StepKeepsInv(st, f, fixed);
    ExecutionsExtend(st, e, fixed);
    ExecutionsExtend(st, f, fixed);
    ApartGroupsShareNothing(st, e, f, fixed, side);
    var a, b := Apply(st, e, fixed).groups, Apply(st, f, fixed).groups;
    assert Exclusive(a, side) && Exclusive(b, side);
    MergedIsExclusiveExactlyWhen(st.groups, a, b, side);
  }

  // ---------------------------------------------------------------- the suggestions of both

  /** What is stored once both passes have committed. */
  function MergedRows(before: seq<OneToOne.Suggestion>, a: seq<OneToOne.Suggestion>, b: seq<OneToOne.Suggestion>)
    : seq<OneToOne.Suggestion>
    requires before <= b
  {
    a + b[|before|..]
  }

  /** A first pass over `before` that added rows of its run only. */
  ghost predicate Extends(before: seq<OneToOne.Suggestion>, after: seq<OneToOne.Suggestion>, run: Id) {
    && before <= after
    && (forall x | x in before :: x.run != run)
    && (forall i | |before| <= i < |after| :: after[i].run == run)
  }

  /** A live sole suggestion of the merged rows was one of the pass it comes from, or of both. */
  lemma SoleBeforeMerging(
    before: seq<OneToOne.Suggestion>, a: seq<OneToOne.Suggestion>, b: seq<OneToOne.Suggestion>, p: Id, q: Id,
    i: int, t: Id)
    requires Extends(before, a, p) && Extends(before, b, q) && p != q
    requires SoleSuggestions.LiveSole(MergedRows(before, a, b), i, t)
    ensures i < |a| ==> SoleSuggestions.LiveSole(a, i, t)
    ensures i < |before| ==> SoleSuggestions.LiveSole(b, i, t)
    ensures i >= |a| ==> SoleSuggestions.LiveSole(b, i - |a| + |before|, t)
  {
    var all := MergedRows(before, a, b);
    assert forall j | 0 <= j < |a| :: all[j] == a[j];
    assert forall j | 0 <= j < |before| :: before[j] in before && before[j] == b[j];
    assert forall j | |before| <= j < |b| :: all[j - |before| + |a|] == b[j];
  }

  lemma PassesExtend(st: State, e: Step, fixed: Fixed)
    requires e.Execute? && OneToOneProperties.FreshRun(st.suggestions, e.run)
    ensures Extends(st.suggestions, AfterOneToOne(st, e, fixed), e.run)
  {
    hide OneToOne.AfterRows, OneToOne.AlreadyClaimed;
    var all := AfterOneToOne(st, e, fixed);
    forall i | |st.suggestions| <= i < |all| ensures all[i].run == e.run {
      NewSuggestionIsInReach(st, e, fixed, i);
    }
  }

  lemma NewSuggestionIsInReach(st: State, e: Step, fixed: Fixed, i: int)
    requires e.Execute? && |st.suggestions| <= i < |AfterOneToOne(st, e, fixed)|
    ensures var x := AfterOneToOne(st, e, fixed)[i];
            x.run == e.run && (x.ledger.Some? ==> RowInReach(Ledgers, x.ledger.value, SettingOf(st, e, fixed)))
  {
    hide OneToOne.AfterRows, OneToOne.AlreadyClaimed, InOrder;
    var scope := fixed.scopes(e.run);
    var rows := InOrder(OneToOne.ScopeRows(e.banks, scope), OneToOne.BankKey());
    var start := OneToOne.Pass([], OneToOne.AlreadyClaimed(st.suggestions, e.ledgers, scope.entity), 0, 0, 0, 0);
    var added := OneToOne.AfterRows(start, e.run, rows, e.ledgers, e.cfg, st.suggestions, e.sees).added;
    var x := added[i - |st.suggestions|];
    var b := PassWritesAboutItsRows(start, e.run, rows, e.ledgers, e.cfg, st.suggestions, e.sees, x);
    assert b in Elements(rows);
  }

  /** From any state: two first passes whose ledger windows lie apart, each of which alone leaves
      sole suggestions exclusive, leave them exclusive when both commit. */
  lemma ApartPassesStayExclusive(st: State, e: Step, f: Step, fixed: Fixed)
    requires e.Execute? && f.Execute? && e.run != f.run && e.ledgers == f.ledgers
    requires OneToOneProperties.FreshRun(st.suggestions, e.run) && OneToOneProperties.FreshRun(st.suggestions, f.run)
    requires Apart(SettingOf(st, e, fixed), SettingOf(st, f, fixed), Ledgers)
    requires SoleSuggestions.Exclusive(AfterOneToOne(st, e, fixed))
    requires SoleSuggestions.Exclusive(AfterOneToOne(st, f, fixed))
    ensures st.suggestions <= AfterOneToOne(st, f, fixed)
    ensures SoleSuggestions.Exclusive(
              MergedRows(st.suggestions, AfterOneToOne(st, e, fixed), AfterOneToOne(st, f, fixed)))
  {
    PassesExtend(st, e, fixed);
    PassesExtend(st, f, fixed);
    hide AfterOneToOne, SoleSuggestions.LiveSole, SoleSuggestions.Exclusive, Extends, OneToOneProperties.FreshRun;
    var before, a, b := st.suggestions, AfterOneToOne(st, e, fixed), AfterOneToOne(st, f, fixed);
    forall i, j, t | |before| <= i && |before| <= j && SoleSuggestions.LiveSole(a, i, t)
      ensures !SoleSuggestions.LiveSole(b, j, t)
    {
      if SoleSuggestions.LiveSole(b, j, t) {
        BothReach(st, e, f, fixed, i, j, t);
      }
    }
    MergedSolesStayExclusive(before, a, b, e.run, f.run);
    assert before <= b by {
      ExtendingKeepsPrefix(before, b, f.run);
    }
  }

  lemma ExtendingKeepsPrefix(before: seq<OneToOne.Suggestion>, after: seq<OneToOne.Suggestion>, run: Id)
    requires Extends(before, after, run)
    ensures before <= after
  {
  }

  lemma MergedSolesStayExclusive(
    before: seq<OneToOne.Suggestion>, a: seq<OneToOne.Suggestion>, b: seq<OneToOne.Suggestion>, p: Id, q: Id)
    requires Extends(before, a, p) && Extends(before, b, q) && p != q
    requires SoleSuggestions.Exclusive(a) && SoleSuggestions.Exclusive(b)
    requires forall i, j, t | |before| <= i && |before| <= j && SoleSuggestions.LiveSole(a, i, t) ::
               !SoleSuggestions.LiveSole(b, j, t)
    ensures SoleSuggestions.Exclusive(MergedRows(before, a, b))
  {
    ExtendingKeepsPrefix(before, a, p);
    hide SoleSuggestions.LiveSole, Extends;
    var all := MergedRows(before, a, b);
    forall i, j, t | SoleSuggestions.LiveSole(all, i, t) && SoleSuggestions.LiveSole(all, j, t) ensures i == j {
      SoleBeforeMerging(before, a, b, p, q, i, t);
      SoleBeforeMerging(before, a, b, p, q, j, t);
    }
  }

  lemma BothReach(st: State, e: Step, f: Step, fixed: Fixed, i: int, j: int, t: Id)
    requires e.Execute? && f.Execute? && e.ledgers == f.ledgers
    requires |st.suggestions| <= i && SoleSuggestions.LiveSole(AfterOneToOne(st, e, fixed), i, t)
    requires |st.suggestions| <= j && SoleSuggestions.LiveSole(AfterOneToOne(st, f, fixed), j, t)
    ensures !Apart(SettingOf(st, e, fixed), SettingOf(st, f, fixed), Ledgers)
  {
    hide AfterOneToOne;
    NewSuggestionIsInReach(st, e, fixed, i);
    NewSuggestionIsInReach(st, f, fixed, j);
  }
}
