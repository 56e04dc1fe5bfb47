/** When can one ledger row end up as the only candidate of two bank rows?

    Never, over any sequence of runs and decisions, if a query inside a pass sees the rows
    the pass has just added.  The session does not flush them, so it does not: then a pass
    keeps the guarantee exactly when no two of its bank rows have the same sole pick. */
module SoleSuggestions {
  import opened RowOrder
  import opened ReconciliationModel
  import opened OneToOneMatching
  import opened OneToOneProperties

  /** Row `i` proposes a ledger row and is the only row about its (run, bank row). */
  ghost predicate Sole(rows: seq<Suggestion>, i: int) {
    && 0 <= i < |rows|
    && rows[i].ledger.Some?
    && forall j | 0 <= j < |rows| && About(rows[j], rows[i].run, rows[i].bank) :: j == i
  }

  ghost predicate LiveSole(rows: seq<Suggestion>, i: int, t: Id) {
    Sole(rows, i) && Live(rows[i]) && rows[i].ledger == Some(t)
  }

  /** Each ledger row is in at most one live sole suggestion. */
  ghost predicate Exclusive(rows: seq<Suggestion>) {
    forall i, j, t | LiveSole(rows, i, t) && LiveSole(rows, j, t) :: i == j
  }

  predicate InEntity(ledgers: LedgerTable, t: Id, entity: Id) {
    t in ledgers && ledgers[t].entity == entity
  }

  /** The claimed set covers the live sole suggestions of the entity. */
  ghost predicate Covered(rows: seq<Suggestion>, claimed: set<Id>, ledgers: LedgerTable, entity: Id) {
    forall i, t | LiveSole(rows, i, t) && InEntity(ledgers, t, entity) :: t in claimed
  }

  // ---------------------------------------------------------------- one turn

  lemma SolesSurviveAppend(rows: seq<Suggestion>, own: seq<Suggestion>, run: Id, bank: Id, i: int, t: Id)
    requires forall s | s in own :: About(s, run, bank)
    requires !Processed(rows, run, bank) && 0 <= i < |rows|
    ensures LiveSole(rows + own, i, t) <==> LiveSole(rows, i, t)
  {
    var all := rows + own;
    assert forall j | |rows| <= j < |all| :: all[j] in own;
    assert rows[i] in rows;
    if LiveSole(rows, i, t) {
      forall j | 0 <= j < |all| && About(all[j], all[i].run, all[i].bank) ensures j == i {
      }
    }
    if LiveSole(all, i, t) {
      forall j | 0 <= j < |rows| && About(rows[j], rows[i].run, rows[i].bank) ensures j == i {
        assert all[j] == rows[j];
      }
    }
  }

  lemma NewSoleIsAlone(rows: seq<Suggestion>, own: seq<Suggestion>, run: Id, bank: Id, i: int, t: Id)
    requires forall s | s in own :: About(s, run, bank)
    requires |rows| <= i && LiveSole(rows + own, i, t)
    ensures |own| == 1 && i == |rows| && own[0].ledger == Some(t)
  {
    var all := rows + own;
    assert forall j | |rows| <= j < |all| :: all[j] == own[j - |rows|] && all[j] in own;
    assert forall j | |rows| <= j < |all| :: About(all[j], run, bank);
    assert About(all[|rows|], run, bank) && About(all[|all| - 1], run, bank);
  }

  /** Appending the rows of one bank row keeps exclusivity, provided a single proposal is of
      a ledger row that no live sole suggestion already holds. */
  lemma AppendKeepsExclusive(rows: seq<Suggestion>, own: seq<Suggestion>, run: Id, bank: Id)
    requires Exclusive(rows)
    requires !Processed(rows, run, bank) && forall s | s in own :: About(s, run, bank)
    requires |own| == 1 && own[0].ledger.Some? ==> forall i :: !LiveSole(rows, i, own[0].ledger.value)
    ensures Exclusive(rows + own)
  {
    forall i, j, t | LiveSole(rows + own, i, t) && LiveSole(rows + own, j, t) ensures i == j {
      if i < |rows| {
        SolesSurviveAppend(rows, own, run, bank, i, t);
      } else {
        NewSoleIsAlone(rows, own, run, bank, i, t);
      }
      if j < |rows| {
        SolesSurviveAppend(rows, own, run, bank, j, t);
      } else {
        NewSoleIsAlone(rows, own, run, bank, j, t);
      }
    }
  }

  /** What the rows of a turn propose was unclaimed, and belongs to the bank row's entity. */
  lemma ProposalsAreUnclaimed(run: Id, b: BankRow, ledgers: LedgerTable, cfg: Config, claimed: set<Id>, s: Suggestion)
    requires s in Produce(run, b, Top(b, Candidates(b, ledgers, cfg, claimed)), cfg).rows && s.ledger.Some?
    ensures s.ledger.value !in claimed && InEntity(ledgers, s.ledger.value, b.entity)
  {
    var candidates := Candidates(b, ledgers, cfg, claimed);
    var top := Top(b, candidates);
    ProducedRowsAreAbout(run, b, top, cfg, s);
    TopRowsTie(b, candidates);
    var l :| l in top && l.id == s.ledger.value;
    assert l.id in candidates;
  }

  /** One turn of a pass whose queries see the rows it has added. */
  lemma TurnKeepsExclusive(p: Pass, run: Id, b: BankRow, ledgers: LedgerTable, cfg: Config, flushed: seq<Suggestion>)
    requires Exclusive(flushed + p.added) && Covered(flushed + p.added, p.claimed, ledgers, b.entity)
    ensures var q := AfterRow(p, run, b, ledgers, cfg, flushed, true);
            Exclusive(flushed + q.added) && Covered(flushed + q.added, q.claimed, ledgers, b.entity)
  {
    hide Exclusive, Covered, Produce, Top, Candidates;
    var rows := flushed + p.added;
    var q := AfterRow(p, run, b, ledgers, cfg, flushed, true);
    assert p.claimed <= q.claimed;
    if Processed(rows, run, b.id) {
      assert q.added == p.added;
      CoveredByMore(rows, p.claimed, q.claimed, ledgers, b.entity);
    } else {
      var own := Produce(run, b, Top(b, Candidates(b, ledgers, cfg, p.claimed)), cfg).rows;
      assert q.added == p.added + own;
      ConcatAssociates(flushed, p.added, own);
      TurnAppends(rows, own, p.claimed, run, b, ledgers, cfg);
      assert q.claimed == Claim(p.claimed, Offered(rows + own, run, b.id));
    }
  }

  lemma CoveredByMore(rows: seq<Suggestion>, claimed: set<Id>, more: set<Id>, ledgers: LedgerTable, entity: Id)
    requires Covered(rows, claimed, ledgers, entity) && claimed <= more
    ensures Covered(rows, more, ledgers, entity)
  {
  }

  lemma TurnAppends(
    rows: seq<Suggestion>, own: seq<Suggestion>, claimed: set<Id>, run: Id, b: BankRow, ledgers: LedgerTable,
    cfg: Config)
    requires Exclusive(rows) && Covered(rows, claimed, ledgers, b.entity) && !Processed(rows, run, b.id)
    requires own == Produce(run, b, Top(b, Candidates(b, ledgers, cfg, claimed)), cfg).rows
    ensures Exclusive(rows + own)
    ensures Covered(rows + own, Claim(claimed, Offered(rows + own, run, b.id)), ledgers, b.entity)
  {
    hide Produce, Top, Candidates;
    forall s | s in own
      ensures About(s, run, b.id)
              && (s.ledger.Some? ==> s.ledger.value !in claimed && InEntity(ledgers, s.ledger.value, b.entity))
    {
      ProducedRowsAreAbout(run, b, Top(b, Candidates(b, ledgers, cfg, claimed)), cfg, s);
      if s.ledger.Some? {
        ProposalsAreUnclaimed(run, b, ledgers, cfg, claimed, s);
      }
    }
    AppendKeepsExclusive(rows, own, run, b.id);
    var claimedAfter := Claim(claimed, Offered(rows + own, run, b.id));
    forall i, t | LiveSole(rows + own, i, t) && InEntity(ledgers, t, b.entity) ensures t in claimedAfter {
      if i < |rows| {
        SolesSurviveAppend(rows, own, run, b.id, i, t);
      } else {
        NewSoleIsAlone(rows, own, run, b.id, i, t);
        SingleOffer(rows, own, run, b.id);
      }
    }
  }

  lemma SingleOffer(rows: seq<Suggestion>, own: seq<Suggestion>, run: Id, bank: Id)
    requires |own| == 1 && About(own[0], run, bank) && own[0].ledger.Some? && !Processed(rows, run, bank)
    ensures Offered(rows + own, run, bank) == {own[0].ledger.value}
  {
    assert (rows + own)[|rows|] == own[0];
    forall s | s in rows + own && About(s, run, bank) ensures s == own[0] {
      assert s in rows || s in own;
    }
  }

  // ---------------------------------------------------------------- passes, runs, decisions

  lemma {:induction false} PassKeepsExclusive(
    start: Pass, run: Id, banks: seq<BankRow>, ledgers: LedgerTable, cfg: Config, flushed: seq<Suggestion>, entity: Id)
    requires Exclusive(flushed + start.added) && Covered(flushed + start.added, start.claimed, ledgers, entity)
    requires forall b | b in banks :: b.entity == entity
    ensures var p := AfterRows(start, run, banks, ledgers, cfg, flushed, true);
            Exclusive(flushed + p.added) && Covered(flushed + p.added, p.claimed, ledgers, entity)
  {
    hide AfterRow, Exclusive, Covered;
    if banks != [] {
      var front := banks[..|banks| - 1];
      PassKeepsExclusive(start, run, front, ledgers, cfg, flushed, entity);
      assert banks[|banks| - 1] in banks;
      TurnKeepsExclusive(AfterRows(start, run, front, ledgers, cfg, flushed, true),
                         run, banks[|banks| - 1], ledgers, cfg, flushed);
    }
  }

  lemma ScopeRowsShareTheEntity(banks: BankTable, scope: Scope, b: BankRow)
    requires b in InOrder(ScopeRows(banks, scope), BankKey())
    ensures b.entity == scope.entity
  {
    assert b in Elements(InOrder(ScopeRows(banks, scope), BankKey()));
  }

  lemma LiveRowsAreClaimed(rows: seq<Suggestion>, ledgers: LedgerTable, entity: Id)
    ensures Covered(rows, AlreadyClaimed(rows, ledgers, entity), ledgers, entity)
  {
    forall i, t | LiveSole(rows, i, t) && InEntity(ledgers, t, entity)
      ensures t in AlreadyClaimed(rows, ledgers, entity)
    {
      assert rows[i] in rows;
    }
  }

  lemma RunKeepsExclusive(
    run: Id, scope: Scope, banks: BankTable, ledgers: LedgerTable, cfg: Config, flushed: seq<Suggestion>)
    requires Exclusive(flushed)
    ensures Exclusive(flushed + RunPass(run, scope, banks, ledgers, cfg, flushed, true).added)
  {
    hide Exclusive, Covered, AfterRows;
    var start := Pass([], AlreadyClaimed(flushed, ledgers, scope.entity), 0, 0, 0, 0);
    var rows := InOrder(ScopeRows(banks, scope), BankKey());
    assert flushed + [] == flushed;
    LiveRowsAreClaimed(flushed, ledgers, scope.entity);
    forall b | b in rows ensures b.entity == scope.entity {
      ScopeRowsShareTheEntity(banks, scope, b);
    }
    PassKeepsExclusive(start, run, rows, ledgers, cfg, flushed, scope.entity);
  }

  /** A step of the system: a run executed against whatever the tables hold at the time, or a
      decision on one suggestion. */
  datatype Step =
    | Execute(run: Id, scope: Scope, banks: BankTable, ledgers: LedgerTable, cfg: Config)
    | Decide(index: nat, accept: bool)

  /** Only a pending proposal without another live candidate can be decided. */
  ghost predicate MayResolve(rows: seq<Suggestion>, i: nat) {
    && i < |rows|
    && rows[i].status == Pending
    && rows[i].ledger.Some?
    && forall j | 0 <= j < |rows| && j != i && About(rows[j], rows[i].run, rows[i].bank) && rows[j].ledger.Some? ::
         !Live(rows[j])
  }

  /** The decision itself. */
  function Resolved(rows: seq<Suggestion>, i: nat, accept: bool): seq<Suggestion>
    requires i < |rows|
  {
    rows[i := rows[i].(status := if accept then Accepted else Rejected)]
  }

  ghost function Apply(rows: seq<Suggestion>, step: Step, sees: bool): seq<Suggestion> {
    match step
    case Execute(run, scope, banks, ledgers, cfg) => rows + RunPass(run, scope, banks, ledgers, cfg, rows, sees).added
    case Decide(i, accept) =>
      if MayResolve(rows, i) then Resolved(rows, i, accept) else rows
  }

  ghost function ApplyAll(steps: seq<Step>, sees: bool): seq<Suggestion> {
    if steps == [] then [] else Apply(ApplyAll(steps[..|steps| - 1], sees), steps[|steps| - 1], sees)
  }

  lemma DecisionKeepsExclusive(rows: seq<Suggestion>, i: nat, accept: bool)
    requires Exclusive(rows) && MayResolve(rows, i)
    ensures Exclusive(Resolved(rows, i, accept))
  {
    var after := Resolved(rows, i, accept);
    forall k, t | LiveSole(after, k, t) ensures LiveSole(rows, k, t) {
      forall j | 0 <= j < |rows| && About(rows[j], rows[k].run, rows[k].bank) ensures j == k {
        assert About(after[j], after[k].run, after[k].bank);
      }
    }
  }

  /** Over any sequence of runs and decisions, and whatever the bank and ledger tables do in
      between, each ledger row is in at most one live sole suggestion. */
  lemma {:induction false} SoleSuggestionsStayExclusive(steps: seq<Step>)
    ensures Exclusive(ApplyAll(steps, true))
  {
    hide RunPass, MayResolve, Exclusive;
    if steps == [] {
      NothingIsExclusive();
    } else {
      var before := ApplyAll(steps[..|steps| - 1], true);
      SoleSuggestionsStayExclusive(steps[..|steps| - 1]);
      match steps[|steps| - 1]
      case Execute(run, scope, banks, ledgers, cfg) => RunKeepsExclusive(run, scope, banks, ledgers, cfg, before);
      case Decide(i, accept) =>
        if MayResolve(before, i) {
          DecisionKeepsExclusive(before, i, accept);
        }
    }
  }

  lemma NothingIsExclusive()
    ensures Exclusive([])
  {
  }

  /** Rejecting the sole suggestion of a ledger row releases it for later runs exactly when
      no other live suggestion (a tie it lost in an earlier turn) still refers to it. */
  lemma RejectionReleases(rows: seq<Suggestion>, i: nat, ledgers: LedgerTable, entity: Id)
    requires MayResolve(rows, i) && InEntity(ledgers, rows[i].ledger.value, entity)
    ensures var t := rows[i].ledger.value;
            t !in AlreadyClaimed(Resolved(rows, i, false), ledgers, entity)
            <==> forall j | 0 <= j < |rows| && j != i && rows[j].ledger == Some(t) :: !Live(rows[j])
  {
    var t, after := rows[i].ledger.value, Resolved(rows, i, false);
    if j :| 0 <= j < |rows| && j != i && rows[j].ledger == Some(t) && Live(rows[j]) {
      assert after[j] in after;
    } else {
      forall s | s in after && Live(s) && s.ledger.Some? ensures s.ledger.value != t {
        var j :| 0 <= j < |after| && after[j] == s;
      }
    }
  }

  // ---------------------------------------------------------------- without a flush

  lemma {:induction false} SingleRowIsSole(rows: seq<Suggestion>, run: Id, bank: Id) returns (k: int)
    requires |RowsAbout(rows, run, bank)| == 1 && RowsAbout(rows, run, bank)[0].ledger.Some?
    ensures Sole(rows, k) && rows[k] == RowsAbout(rows, run, bank)[0]
  {
    var front, last := rows[..|rows| - 1], rows[|rows| - 1];
    assert RowsAbout(rows, run, bank)[0] in RowsAbout(rows, run, bank);
    if About(last, run, bank) {
      k := |front|;
      assert RowsAbout(front, run, bank) == [];
      assert forall s | s in front :: s in RowsAbout(front, run, bank) || !About(s, run, bank);
      assert forall j | 0 <= j < |front| :: rows[j] in front;
    } else {
      k := SingleRowIsSole(front, run, bank);
      forall j | 0 <= j < |rows| && About(rows[j], run, bank) ensures j == k {
        assert About(front[j], run, bank);
      }
    }
  }

  lemma {:induction false} SoleIsTheOnlyRow(rows: seq<Suggestion>, k: int)
    requires Sole(rows, k)
    ensures RowsAbout(rows, rows[k].run, rows[k].bank) == [rows[k]]
  {
    var front, last := rows[..|rows| - 1], rows[|rows| - 1];
    var run, bank := rows[k].run, rows[k].bank;
    if k == |front| {
      forall s | s in front ensures !About(s, run, bank) {
        var j :| 0 <= j < |front| && rows[j] == s;
      }
      RowsAboutAll(front, run, bank);
    } else {
      forall j | 0 <= j < |front| && About(front[j], run, bank) ensures j == k {
        assert About(rows[j], run, bank);
      }
      SoleIsTheOnlyRow(front, k);
      assert !About(last, run, bank);
    }
  }

  /** The one candidate a bank row ends up with, given what was claimed before the run. */
  ghost predicate SolePick(b: BankRow, ledgers: LedgerTable, cfg: Config, claimed: set<Id>, t: Id) {
    var top := Top(b, Candidates(b, ledgers, cfg, claimed));
    |top| == 1 && top[0].id == t
  }

  ghost predicate DifferentPicks(banks: seq<BankRow>, ledgers: LedgerTable, cfg: Config, claimed: set<Id>) {
    forall i, j, t | 0 <= i < j < |banks| && SolePick(banks[i], ledgers, cfg, claimed, t) ::
        !SolePick(banks[j], ledgers, cfg, claimed, t)
  }

  lemma {:induction false} UnseenRowsClaimNothing(
    start: Pass, run: Id, banks: seq<BankRow>, ledgers: LedgerTable, cfg: Config, flushed: seq<Suggestion>)
    requires FreshRun(flushed, run)
    ensures AfterRows(start, run, banks, ledgers, cfg, flushed, false).claimed == start.claimed
  {
    if banks != [] {
      UnseenRowsClaimNothing(start, run, banks[..|banks| - 1], ledgers, cfg, flushed);
      assert Offered(flushed, run, banks[|banks| - 1].id) == {};
    }
  }

  lemma ScopeRowsAreDistinct(banks: BankTable, scope: Scope)
    ensures DifferentBanks(InOrder(ScopeRows(banks, scope), BankKey()))
  {
    var rows := InOrder(ScopeRows(banks, scope), BankKey());
    InOrderAscends(ScopeRows(banks, scope), BankKey());
    forall i, j | 0 <= i < j < |rows| ensures rows[i].id != rows[j].id {
      assert rows[i] in Elements(rows) && rows[j] in Elements(rows);
      assert Before(BankKey()(rows[i]), BankKey()(rows[j]));
    }
  }

  /** The rows a pass wrote about its `k`-th bank row, when it does not see its own rows. */
  lemma UnseenRowsOf(
    start: Pass, run: Id, banks: seq<BankRow>, ledgers: LedgerTable, cfg: Config, flushed: seq<Suggestion>, k: nat)
    requires DifferentBanks(banks) && FreshRun(flushed, run) && start.added == [] && k < |banks|
    ensures RowsAbout(flushed + AfterRows(start, run, banks, ledgers, cfg, flushed, false).added, run, banks[k].id)
            == Produce(run, banks[k], Top(banks[k], Candidates(banks[k], ledgers, cfg, start.claimed)), cfg).rows
  {
    hide AfterRows, Produce, RowsAbout, WellShaped, Top;
    PassShape(start, run, banks, ledgers, cfg, flushed, false, k);
    UnseenRowsClaimNothing(start, run, banks[..k], ledgers, cfg, flushed);
  }

  lemma PickBecomesSole(
    start: Pass, run: Id, banks: seq<BankRow>, ledgers: LedgerTable, cfg: Config, flushed: seq<Suggestion>, k: nat,
    t: Id)
    returns (i: int)
    requires DifferentBanks(banks) && FreshRun(flushed, run) && start.added == [] && k < |banks|
    requires SolePick(banks[k], ledgers, cfg, start.claimed, t)
    ensures var all := flushed + AfterRows(start, run, banks, ledgers, cfg, flushed, false).added;
            LiveSole(all, i, t) && all[i].bank == banks[k].id && all[i].run == run
  {
    hide AfterRows, Top;
    UnseenRowsOf(start, run, banks, ledgers, cfg, flushed, k);
    i := SingleRowIsSole(flushed + AfterRows(start, run, banks, ledgers, cfg, flushed, false).added, run, banks[k].id);
  }

  lemma SoleComesFromPick(
    start: Pass, run: Id, banks: seq<BankRow>, ledgers: LedgerTable, cfg: Config, flushed: seq<Suggestion>, i: int,
    t: Id)
    returns (k: nat)
    requires DifferentBanks(banks) && FreshRun(flushed, run) && start.added == [] && |flushed| <= i
    requires LiveSole(flushed + AfterRows(start, run, banks, ledgers, cfg, flushed, false).added, i, t)
    ensures var all := flushed + AfterRows(start, run, banks, ledgers, cfg, flushed, false).added;
            k < |banks| && all[i].bank == banks[k].id && all[i].run == run
    ensures SolePick(banks[k], ledgers, cfg, start.claimed, t)
  {
    hide AfterRows, Top, Produce;
    var p := AfterRows(start, run, banks, ledgers, cfg, flushed, false);
    var all := flushed + p.added;
    FreshPassSkipsNothing(start, run, banks, ledgers, cfg, flushed, false);
    assert all[i] in p.added;
    k :| 0 <= k < |banks| && all[i].bank == banks[k].id;
    UnseenRowsOf(start, run, banks, ledgers, cfg, flushed, k);
    SoleIsTheOnlyRow(all, i);
    OneRowMeansOnePick(run, banks[k], Top(banks[k], Candidates(banks[k], ledgers, cfg, start.claimed)), cfg);
  }

  lemma OneRowMeansOnePick(run: Id, b: BankRow, top: seq<LedgerRow>, cfg: Config)
    requires var rows := Produce(run, b, top, cfg).rows; |rows| == 1 && rows[0].ledger.Some?
    ensures |top| == 1 && Produce(run, b, top, cfg).rows[0].ledger == Some(top[0].id)
  {
  }

  lemma PrefixKeepsSoles(rows: seq<Suggestion>, more: seq<Suggestion>, i: int, t: Id)
    requires LiveSole(rows + more, i, t) && i < |rows|
    ensures LiveSole(rows, i, t)
  {
    var all := rows + more;
    forall j | 0 <= j < |rows| && About(rows[j], rows[i].run, rows[i].bank) ensures j == i {
      assert all[j] == rows[j];
    }
  }

  /** The session does not flush, so a pass does not see its own rows.  Such a pass keeps
      sole suggestions exclusive exactly when no two bank rows of its scope have the same
      only candidate among the ledger rows unclaimed before the run. */
  lemma UnflushedRunIsExclusiveExactlyWhen(
    run: Id, scope: Scope, banks: BankTable, ledgers: LedgerTable, cfg: Config, flushed: seq<Suggestion>)
    requires Exclusive(flushed) && FreshRun(flushed, run)
    ensures Exclusive(flushed + RunPass(run, scope, banks, ledgers, cfg, flushed, false).added)
            <==> DifferentPicks(InOrder(ScopeRows(banks, scope), BankKey()), ledgers, cfg,
                AlreadyClaimed(flushed, ledgers, scope.entity))
  {
    hide AfterRows, Top, AlreadyClaimed;
    var claimed := AlreadyClaimed(flushed, ledgers, scope.entity);
    var start := Pass([], claimed, 0, 0, 0, 0);
    var rows := InOrder(ScopeRows(banks, scope), BankKey());
    var all := flushed + AfterRows(start, run, rows, ledgers, cfg, flushed, false).added;
    ScopeRowsAreDistinct(banks, scope);
    if i, j, t :| (0 <= i < j < |rows|
                   && SolePick(rows[i], ledgers, cfg, claimed, t) && SolePick(rows[j], ledgers, cfg, claimed, t)) {
      var a := PickBecomesSole(start, run, rows, ledgers, cfg, flushed, i, t);
      var b := PickBecomesSole(start, run, rows, ledgers, cfg, flushed, j, t);
      assert a != b;
    } else {
      forall i, j, t | LiveSole(all, i, t) && LiveSole(all, j, t) ensures i == j {
        if i < |flushed| && j < |flushed| {
          PrefixKeepsSoles(flushed, all[|flushed|..], i, t);
          PrefixKeepsSoles(flushed, all[|flushed|..], j, t);
        } else if i < |flushed| || j < |flushed| {
          var earlier, later := if i < |flushed| then i else j, if i < |flushed| then j else i;
          var k := SoleComesFromPick(start, run, rows, ledgers, cfg, flushed, later, t);
          PickIsFree(scope, banks, ledgers, cfg, flushed, rows[k], earlier, t);
          PrefixKeepsSoles(flushed, all[|flushed|..], earlier, t);
        } else {
          var k := SoleComesFromPick(start, run, rows, ledgers, cfg, flushed, i, t);
          var m := SoleComesFromPick(start, run, rows, ledgers, cfg, flushed, j, t);
          assert k == m;
        }
      }
    }
  }

  /** What a bank row of the run picks is held by no earlier live sole suggestion. */
  lemma PickIsFree(
    scope: Scope, banks: BankTable, ledgers: LedgerTable, cfg: Config, flushed: seq<Suggestion>, b: BankRow, i: int,
    t: Id)
    requires b in InOrder(ScopeRows(banks, scope), BankKey())
    requires SolePick(b, ledgers, cfg, AlreadyClaimed(flushed, ledgers, scope.entity), t)
    ensures !LiveSole(flushed, i, t)
  {
    hide Top;
    var candidates := Candidates(b, ledgers, cfg, AlreadyClaimed(flushed, ledgers, scope.entity));
    TopRowsTie(b, candidates);
    assert Top(b, candidates)[0] in Top(b, candidates);
    assert t in candidates;
    ScopeRowsShareTheEntity(banks, scope, b);
    LiveRowsAreClaimed(flushed, ledgers, scope.entity);
  }

  // ---------------------------------------------------------------- the failing family, by example

  const NO_TOLERANCE := Config(0, 0.0, None, false, 2, 0.0)

  function Receipt(id: Id): BankRow {
    BankRow(id, 1, 1, 1, Credit, 5, 100, {}, {}, false, true)
  }

  const INCOME := LedgerRow(7, 1, 1, 1, Inflow, 5, 100, {}, [], true, None)

  lemma OnlyCandidateIsTop(b: BankRow, candidates: LedgerTable, l: LedgerRow)
    requires candidates == map[l.id := l] && Rated(b, l)
    ensures Top(b, candidates) == [l]
  {
    assert RatedRows(b, candidates) == {l};
    assert Best(b, candidates) == {l};
    assert Top(b, candidates)[0] in Elements(Top(b, candidates));
  }

  /** Two equal receipts and one ledger row: the pass writes a live sole suggestion of the
      same ledger row for both. */
  lemma TwoReceiptsShareOneLedgerRow()
    ensures var banks: BankTable := map[1 := Receipt(1), 2 := Receipt(2)];
            var ledgers: LedgerTable := map[7 := INCOME];
            !Exclusive([] + RunPass(1, Scope(1, 1, 0, 9), banks, ledgers, NO_TOLERANCE, [], false).added)
  {
    hide Top, RunPass, Exclusive, AlreadyClaimed, Candidates;
    var banks: BankTable := map[1 := Receipt(1), 2 := Receipt(2)];
    var ledgers: LedgerTable := map[7 := INCOME];
    var scope := Scope(1, 1, 0, 9);
    NothingIsExclusive();
    var claimed := AlreadyClaimed([], ledgers, 1);
    ReceiptsPickTheIncome(1);
    ReceiptsPickTheIncome(2);
    var rows := InOrder(ScopeRows(banks, scope), BankKey());
    assert banks[1] in banks.Values && banks[2] in banks.Values;
    assert Receipt(1) in Elements(rows) && Receipt(2) in Elements(rows);
    var i :| 0 <= i < |rows| && rows[i] == Receipt(1);
    var j :| 0 <= j < |rows| && rows[j] == Receipt(2);
    UnflushedRunIsExclusiveExactlyWhen(1, scope, banks, ledgers, NO_TOLERANCE, []);
    assert SolePick(rows[if i < j then i else j], ledgers, NO_TOLERANCE, claimed, 7);
    assert SolePick(rows[if i < j then j else i], ledgers, NO_TOLERANCE, claimed, 7);
  }

  lemma ReceiptsPickTheIncome(id: Id)
    ensures var ledgers: LedgerTable := map[7 := INCOME];
            SolePick(Receipt(id), ledgers, NO_TOLERANCE, AlreadyClaimed([], ledgers, 1), 7)
  {
    hide Top;
    var ledgers: LedgerTable := map[7 := INCOME];
    var claimed := AlreadyClaimed([], ledgers, 1);
    assert Candidates(Receipt(id), ledgers, NO_TOLERANCE, claimed) == map[7 := INCOME];
    OnlyCandidateIsTop(Receipt(id), Candidates(Receipt(id), ledgers, NO_TOLERANCE, claimed), INCOME);
  }
}
