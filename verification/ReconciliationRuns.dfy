/** Any sequence of executions and decisions, with the bank and ledger tables changing freely
    in between: live groups stay disjoint and every run keeps one group per key. */
module ReconciliationRuns {
  import opened RowOrder
  import opened ReconciliationModel
  import opened AdvancedMatching
  import opened GroupExclusivity
  import opened GroupEvidence
  import OneToOne = OneToOneMatching
  import OneToOneProperties
  import GroupCounters
  import SoleSuggestions

  datatype State = State(suggestions: seq<OneToOne.Suggestion>, groups: seq<Group>)

  /** An execution runs Stage 5C and then Stage 5D for the scope fixed by the run; decisions
      close one pending proposal. */
  datatype Step =
    | Execute(
        run: Id, banks: BankTable, ledgers: LedgerTable, cfg: Config,
        convert: (BankRow, LedgerRow) -> Option<real>, sees: bool, choices: Choices)
    | DecideSuggestion(index: nat, accept: bool)
    | DecideGroup(index: nat, accept: bool)

  /** What never changes: the scope of a run and the entity a bank row belongs to. */
  datatype Fixed = Fixed(scopes: Id -> Scope, homes: Id -> Id)

  ghost function AfterOneToOne(st: State, step: Step, fixed: Fixed): seq<OneToOne.Suggestion>
    requires step.Execute?
  {
    var scope := fixed.scopes(step.run);
    st.suggestions
    + OneToOne.RunPass(step.run, scope, step.banks, step.ledgers, step.cfg, st.suggestions, step.sees).added
  }

  ghost function SettingOf(st: State, step: Step, fixed: Fixed): Setting
    requires step.Execute?
  {
    Setting(step.run, fixed.scopes(step.run), step.banks, step.ledgers, AfterOneToOne(st, step, fixed), step.cfg,
        step.convert)
  }

  ghost predicate AtHome(banks: BankTable, fixed: Fixed) {
    forall k | k in banks :: banks[k].entity == fixed.homes(k)
  }

  ghost predicate Enabled(st: State, step: Step, fixed: Fixed) {
    match step
    case Execute(_, banks, _, _, _, _, choices) =>
      AtHome(banks, fixed) && Possible(st.groups, SettingOf(st, step, fixed), choices)
    case DecideSuggestion(i, _) => SoleSuggestions.MayResolve(st.suggestions, i)
    case DecideGroup(i, _) => i < |st.groups| && st.groups[i].status == Pending
  }

  ghost function Apply(st: State, step: Step, fixed: Fixed): State
    requires Enabled(st, step, fixed)
  {
    match step
    case Execute(_, _, _, _, _, _, choices) =>
      State(AfterOneToOne(st, step, fixed), Execution(st.groups, SettingOf(st, step, fixed), choices).0)
    case DecideSuggestion(i, accept) =>
      st.(suggestions := SoleSuggestions.Resolved(st.suggestions, i, accept))
    case DecideGroup(i, accept) =>
      st.(groups := ResolvedGroup(st.groups, i, accept))
  }

  function ResolvedGroup(groups: seq<Group>, i: nat, accept: bool): seq<Group>
    requires i < |groups|
  {
    groups[i := groups[i].(status := if accept then Accepted else Rejected)]
  }

  /** A step that is not enabled is refused and changes nothing. */
  ghost function After(steps: seq<Step>, fixed: Fixed): State {
    if steps == [] then State([], [])
    else
      var st := After(steps[..|steps| - 1], fixed);
      if Enabled(st, steps[|steps| - 1], fixed) then Apply(st, steps[|steps| - 1], fixed) else st
  }

  /** "Nothing found" rows are about bank rows of the run's entity. */
  ghost predicate NullsAreLocal(rows: seq<OneToOne.Suggestion>, fixed: Fixed) {
    forall x | x in rows && x.ledger.None? :: fixed.homes(x.bank) == fixed.scopes(x.run).entity
  }

  /** What entity, account and date demand of a candidate. */
  predicate NearEnough(b: BankRow, l: LedgerRow, cfg: Config) {
    l.entity == b.entity && l.account == b.account && DatesWithin(b.date, l.date, cfg.dateToleranceDays)
  }

  lemma {:induction false} PassWritesAboutItsRows(
    start: OneToOne.Pass, run: Id, banks: seq<BankRow>, ledgers: LedgerTable, cfg: Config,
    flushed: seq<OneToOne.Suggestion>, sees: bool, x: OneToOne.Suggestion)
    returns (b: BankRow)
    requires start.added == [] && x in OneToOne.AfterRows(start, run, banks, ledgers, cfg, flushed, sees).added
    ensures b in banks && x.bank == b.id && x.run == run
    ensures x.ledger.Some? ==> x.ledger.value in ledgers && NearEnough(b, ledgers[x.ledger.value], cfg)
  {
    var front := banks[..|banks| - 1];
    var p := OneToOne.AfterRows(start, run, front, ledgers, cfg, flushed, sees);
    b := banks[|banks| - 1];
    if x in p.added {
      b := PassWritesAboutItsRows(start, run, front, ledgers, cfg, flushed, sees, x);
    } else {
      var candidates := Candidates(b, ledgers, cfg, p.claimed);
      OneToOneProperties.ProducedRowsAreAbout(run, b, OneToOne.Top(b, candidates), cfg, x);
      OneToOne.TopAreBest(b, candidates);
    }
  }

  lemma OneToOneKeepsNullsLocal(st: State, step: Step, fixed: Fixed)
    requires step.Execute? && AtHome(step.banks, fixed) && NullsAreLocal(st.suggestions, fixed)
    ensures NullsAreLocal(AfterOneToOne(st, step, fixed), fixed)
  {
    hide OneToOne.AfterRows, OneToOne.AlreadyClaimed;
    var scope := fixed.scopes(step.run);
    var rows := InOrder(OneToOne.ScopeRows(step.banks, scope), OneToOne.BankKey());
    var start := OneToOne.Pass([], OneToOne.AlreadyClaimed(st.suggestions, step.ledgers, scope.entity), 0, 0, 0, 0);
    var pass := OneToOne.AfterRows(start, step.run, rows, step.ledgers, step.cfg, st.suggestions, step.sees);
    forall x | x in st.suggestions + pass.added && x.ledger.None?
      ensures fixed.homes(x.bank) == fixed.scopes(x.run).entity
    {
      if x !in st.suggestions {
        var b := PassWritesAboutItsRows(start, step.run, rows, step.ledgers, step.cfg, st.suggestions, step.sees, x);
        assert b in Elements(rows);
      }
    }
  }

  lemma DecisionKeepsGroups(groups: seq<Group>, i: nat, accept: bool)
    requires i < |groups| && groups[i].status == Pending
    ensures var after := ResolvedGroup(groups, i, accept);
            && (Exclusive(groups, Banks) ==> Exclusive(after, Banks))
            && (Exclusive(groups, Ledgers) ==> Exclusive(after, Ledgers))
            && (KeysUnique(groups) ==> KeysUnique(after))
  {
    var after := ResolvedGroup(groups, i, accept);
    assert forall side, k, id :: Holds(after, side, k, id) ==> Holds(groups, side, k, id);
    forall j, k | KeysUnique(groups) && 0 <= j < k < |after| ensures !SameKey(after[j], after[k]) {
      assert !SameKey(groups[j], groups[k]);
    }
  }

  lemma SuggestionDecisionKeepsNullsLocal(st: State, step: Step, fixed: Fixed)
    requires step.DecideSuggestion? && Enabled(st, step, fixed) && NullsAreLocal(st.suggestions, fixed)
    ensures NullsAreLocal(Apply(st, step, fixed).suggestions, fixed)
  {
    var after := Apply(st, step, fixed).suggestions;
    forall x | x in after && x.ledger.None? ensures fixed.homes(x.bank) == fixed.scopes(x.run).entity {
      var k :| 0 <= k < |after| && after[k] == x;
      assert st.suggestions[k] in st.suggestions;
    }
  }

  ghost predicate Inv(st: State, fixed: Fixed) {
    && Exclusive(st.groups, Banks) && Exclusive(st.groups, Ledgers)
    && KeysUnique(st.groups)
    && NullsAreLocal(st.suggestions, fixed)
  }

  lemma StepKeepsInv(st: State, step: Step, fixed: Fixed)
    requires Inv(st, fixed) && Enabled(st, step, fixed)
    ensures Inv(Apply(st, step, fixed), fixed)
  {
    hide Exclusive, KeysUnique, OneToOne.RunPass, Possible, Execution, SoleSuggestions.MayResolve, Justified;
    match step
    case Execute(_, _, _, _, _, _, choices) =>
      var s := SettingOf(st, step, fixed);
      OneToOneKeepsNullsLocal(st, step, fixed);
      ExecutionKeepsExclusive(st.groups, s, choices);
      ExecutionIsJustified(st.groups, s, choices);
      JustifiedIsUnique(st.groups, Execution(st.groups, s, choices).0, s);
    case DecideSuggestion(i, accept) => SuggestionDecisionKeepsNullsLocal(st, step, fixed);
    case DecideGroup(i, accept) => DecisionKeepsGroups(st.groups, i, accept);
  }

  lemma JustifiedIsUnique(before: seq<Group>, after: seq<Group>, s: Setting)
    requires Justified(before, after, s)
    ensures KeysUnique(after)
  {
  }

  lemma {:induction false} InvHolds(steps: seq<Step>, fixed: Fixed)
    ensures Inv(After(steps, fixed), fixed)
  {
    hide Enabled, Apply;
    if steps != [] {
      InvHolds(steps[..|steps| - 1], fixed);
      var st := After(steps[..|steps| - 1], fixed);
      if Enabled(st, steps[|steps| - 1], fixed) {
        StepKeepsInv(st, steps[|steps| - 1], fixed);
      }
    }
  }

  /** In every reachable state two different pending or accepted groups, transfers apart, share no
      bank row and no ledger row, and no two groups of one run have the same key. */
  lemma LiveGroupsAreDisjoint(steps: seq<Step>, fixed: Fixed, i: nat, j: nat)
    requires i < j < |After(steps, fixed).groups|
    ensures var g, h := After(steps, fixed).groups[i], After(steps, fixed).groups[j];
            && !SameKey(g, h)
            && (g.status in {GroupStatus.Pending, GroupStatus.Accepted}
                && h.status in {GroupStatus.Pending, GroupStatus.Accepted}
                && g.relation != InternalTransfer && h.relation != InternalTransfer ==>
                  Elements(g.banks) !! Elements(h.banks) && Elements(g.ledgers) !! Elements(h.ledgers))
  {
    hide After;
    InvHolds(steps, fixed);
    var groups := After(steps, fixed).groups;
    var g, h := groups[i], groups[j];
    if Counts(g) && Counts(h) {
      forall id ensures !(id in g.banks && id in h.banks) && !(id in g.ledgers && id in h.ledgers) {
        assert id in g.banks ==> Holds(groups, Banks, i, id);
        assert id in h.banks ==> Holds(groups, Banks, j, id);
        assert id in g.ledgers ==> Holds(groups, Ledgers, i, id);
        assert id in h.ledgers ==> Holds(groups, Ledgers, j, id);
      }
    }
  }

  // ---------------------------------------------------------------- decisions

  /** A decision settles one pending group for good: accepted it holds its rows as before, rejected it
      releases them; no other group and no suggestion changes. */
  lemma DecisionSettlesAGroup(st: State, i: nat, accept: bool, fixed: Fixed)
    requires Enabled(st, DecideGroup(i, accept), fixed)
    ensures var after := Apply(st, DecideGroup(i, accept), fixed);
            && after.suggestions == st.suggestions && |after.groups| == |st.groups|
            && after.groups[i].status == (if accept then GroupStatus.Accepted else GroupStatus.Rejected)
            && (forall k | 0 <= k < |st.groups| && k != i :: after.groups[k] == st.groups[k])
            && (forall side, k, id :: Holds(after.groups, side, k, id)
                                      <==> Holds(st.groups, side, k, id) && (k != i || accept))
            && !Enabled(after, DecideGroup(i, true), fixed) && !Enabled(after, DecideGroup(i, false), fixed)
  {
  }

  /** A decision settles one pending suggestion that is the only live one of its bank row, and changes
      nothing else. */
  lemma DecisionSettlesASuggestion(st: State, i: nat, accept: bool, fixed: Fixed)
    requires Enabled(st, DecideSuggestion(i, accept), fixed)
    ensures var before, after := st.suggestions, Apply(st, DecideSuggestion(i, accept), fixed).suggestions;
            && before[i].status == OneToOne.Pending && before[i].ledger.Some? && |after| == |before|
            && after[i] == before[i].(status := if accept then OneToOne.Accepted else OneToOne.Rejected)
            && (forall k | 0 <= k < |before| && k != i :: after[k] == before[k])
            && (forall k | 0 <= k < |before| && k != i && before[k].run == before[i].run
                           && before[k].bank == before[i].bank && before[k].ledger.Some? ::
                  before[k].status == OneToOne.Rejected || before[k].status == OneToOne.Superseded)
            && Apply(st, DecideSuggestion(i, accept), fixed).groups == st.groups
  {
  }

  predicate Settled(g: Group) {
    g.status == GroupStatus.Accepted || g.status == GroupStatus.Rejected
  }

  lemma StepKeepsSettled(st: State, step: Step, fixed: Fixed, i: nat)
    requires Enabled(st, step, fixed) && i < |st.groups| && Settled(st.groups[i])
    ensures var after := Apply(st, step, fixed).groups; i < |after| && after[i] == st.groups[i]
  {
    hide Possible, Execution, SoleSuggestions.MayResolve;
    if step.Execute? {
      GroupCounters.ExecutionIsTallied(st.groups, SettingOf(st, step, fixed), step.choices);
    }
  }

  /** A decided group never changes again, whatever is executed or decided later. */
  lemma {:induction false} GroupDecisionsAreFinal(steps: seq<Step>, n: nat, fixed: Fixed, i: nat)
    requires n <= |steps| && i < |After(steps[..n], fixed).groups| && Settled(After(steps[..n], fixed).groups[i])
    ensures var after := After(steps, fixed).groups; i < |after| && after[i] == After(steps[..n], fixed).groups[i]
    decreases |steps|
  {
    hide Enabled, Apply;
    if n == |steps| {
      assert steps[..n] == steps;
    } else {
      var front := steps[..|steps| - 1];
      assert front[..n] == steps[..n];
      GroupDecisionsAreFinal(front, n, fixed, i);
      var st := After(front, fixed);
      if Enabled(st, steps[|steps| - 1], fixed) {
        StepKeepsSettled(st, steps[|steps| - 1], fixed, i);
      }
    }
  }
}
