/** Where the two stages do and do not look at each other's claims.

    Groups never take a ledger row that a live suggestion names, and only many-to-one groups take
    bank rows that have one.  Suggestions do not look at groups at all. */
module SuggestionOverlap {
  import opened RowOrder
  import opened GroupSearch
  import opened ReconciliationModel
  import opened AdvancedMatching
  import opened GroupEvidence
  import opened ReconciliationRuns
  import GroupCounters
  import OneToOne = OneToOneMatching
  import OneToOneProperties
  import SoleSuggestions

  // ---------------------------------------------------------------- what a new group respects

  /** In any execution: a new group that is no transfer takes no ledger row a live suggestion
      names, and a new group with a bank row the run did match is a many-to-one group. */
  lemma OnlyManyToOneTakesMatchedRows(groups: seq<Group>, s: Setting, c: Choices, g: Group)
    requires KeysUnique(groups) && Possible(groups, s, c)
    requires g in Execution(groups, s, c).0 && g !in groups
    ensures g.relation != InternalTransfer ==> forall id | id in g.ledgers :: id !in SuggestionClaims(s)
    ensures forall id | id in g.banks && id !in UnmatchedBanks(s) :: ManyToOneEvidence(g, s)
  {
    hide Execution, Possible, KeysUnique, UnmatchedBanks, SuggestionClaims;
    ExecutionIsJustified(groups, s, c);
  }

  /** Bank rows with a live suggestion. */
  function Suggested(s: Setting): set<Id> {
    set x | x in s.suggestions && OneToOne.Live(x) && x.ledger.Some? :: x.bank
  }

  /** Whether the search keeps member `k`: the whole list fits, or `k` is not the member to drop. */
  predicate Kept(rows: seq<BankRow>, k: nat, l: LedgerRow, cfg: Config)
    requires k < |rows|
  {
    var allowed := Allowance(l.amount, cfg.amountTolerancePct);
    Within(Total(rows, BankAmount()), l.amount, allowed) || !GoodDrop(rows, k, l.amount, allowed, BankAmount())
  }

  lemma DroppedIsUnique(rows: seq<BankRow>, l: LedgerRow, cfg: Config, accepted: seq<BankRow>) returns (i: nat)
    requires var allowed := Allowance(l.amount, cfg.amountTolerancePct);
             && !Within(Total(rows, BankAmount()), l.amount, allowed)
             && Answer(rows, l.amount, allowed, BankAmount()) == Accept(accepted)
    ensures i < |rows| && accepted == DropAt(rows, i)
    ensures forall k: nat | k < |rows| :: Kept(rows, k, l, cfg) <==> k != i
  {
    hide GoodDrop, Within, Total, Alternates;
    var allowed := Allowance(l.amount, cfg.amountTolerancePct);
    i := AlternatesAreGoodDrops(rows, |rows|, l.amount, allowed, BankAmount(), 0);
    forall k: nat | k < |rows| && k != i ensures Kept(rows, k, l, cfg) {
      if GoodDrop(rows, k, l.amount, allowed, BankAmount()) {
        TiesAreNeverResolved(rows, l.amount, allowed, BankAmount(), if k < i then k else i, if k < i then i else k);
      }
    }
  }

  lemma IdsWithout(rows: seq<BankRow>, i: nat, id: Id)
    requires i < |rows|
    ensures id in BankIds(DropAt(rows, i)) <==> exists k: nat :: k < |rows| && k != i && rows[k].id == id
  {
    var left := DropAt(rows, i);
    if id in BankIds(left) {
      var j :| 0 <= j < |left| && BankIds(left)[j] == id;
      assert rows[if j < i then j else j + 1].id == id;
    }
    if k: nat :| k < |rows| && k != i && rows[k].id == id {
      assert BankIds(left)[if k < i then k else k - 1] == id;
    }
  }

  /** The accepted members are those the search keeps. */
  lemma AcceptedAreKept(rows: seq<BankRow>, l: LedgerRow, cfg: Config, accepted: seq<BankRow>, id: Id)
    requires Answer(rows, l.amount, Allowance(l.amount, cfg.amountTolerancePct), BankAmount()) == Accept(accepted)
    ensures id in BankIds(accepted) <==> exists k: nat :: k < |rows| && Kept(rows, k, l, cfg) && rows[k].id == id
  {
    hide Alternates, GoodDrop, Total, Within, Allowance;
    if Within(Total(rows, BankAmount()), l.amount, Allowance(l.amount, cfg.amountTolerancePct)) {
      if k: nat :| k < |rows| && rows[k].id == id {
        assert Kept(rows, k, l, cfg) && BankIds(rows)[k] == id;
      }
    } else {
      var i := DroppedIsUnique(rows, l, cfg, accepted);
      IdsWithout(rows, i, id);
      if k: nat :| k < |rows| && k != i && rows[k].id == id {
        assert Kept(rows, k, l, cfg);
      }
    }
  }

  lemma OnlyRivalStored(groups: seq<Group>, rivals: seq<Group>, g: Group)
    requires PersistedAll(groups, rivals) == groups + [g]
    ensures g in rivals
  {
    var more := GroupCounters.RivalsAdded(groups, rivals);
    assert (groups + [g])[|groups|..] == [g] && (groups + more)[|groups|..] == more;
    assert g in more;
  }

  lemma ProposalWasAccepted(p: Progress, s: Setting, l: LedgerRow, base: set<Id>, g: Group)
    returns (accepted: seq<BankRow>)
    requires ManyToOneTurn(p, s, l, base).groups == p.groups + [g] && g.status == Pending
    ensures var rows := BankCandidates(l, s, base + p.found.banks);
            Answer(rows, l.amount, Allowance(l.amount, s.cfg.amountTolerancePct), BankAmount()) == Accept(accepted)
    ensures g.banks == BankIds(accepted)
  {
    hide BankCandidates, Answer, PersistedAll;
    var rows := BankCandidates(l, s, base + p.found.banks);
    assert (p.groups + [g])[|p.groups|] == g && p.groups != p.groups + [g];
    if |rows| < 2 {
      assert false;
    } else {
      match Answer(rows, l.amount, Allowance(l.amount, s.cfg.amountTolerancePct), BankAmount())
      case Accept(found) => accepted := found;
      case Compete(alternates) =>
        OnlyRivalStored(p.groups, BankRivals(s.run, l, rows[0], alternates), g);
        assert false;
      case NoGrouping => assert false;
    }
  }

  /** A turn that stores a many-to-one proposal takes a bank row with a live suggestion exactly
      when its candidates, chosen without looking at suggestions, hold one that the search keeps. */
  lemma ManyToOneTakesSuggestedExactlyWhen(p: Progress, s: Setting, l: LedgerRow, base: set<Id>, g: Group)
    requires ManyToOneTurn(p, s, l, base).groups == p.groups + [g] && g.status == Pending
    ensures var rows := BankCandidates(l, s, base + p.found.banks);
            (exists id :: id in g.banks && id in Suggested(s))
            <==> exists k: nat :: k < |rows| && Kept(rows, k, l, s.cfg) && rows[k].id in Suggested(s)
  {
    hide BankCandidates, Kept, Suggested, Answer, ManyToOneTurn;
    var rows := BankCandidates(l, s, base + p.found.banks);
    var accepted := ProposalWasAccepted(p, s, l, base, g);
    forall id ensures id in g.banks <==> exists k: nat :: k < |rows| && Kept(rows, k, l, s.cfg) && rows[k].id == id {
      AcceptedAreKept(rows, l, s.cfg, accepted, id);
    }
  }

  // ---------------------------------------------------------------- what a pass does not respect

  ghost predicate HeldByLiveGroup(groups: seq<Group>, t: Id) {
    exists g :: g in groups && GroupLive(g) && t in g.ledgers
  }

  /** What was claimed before the pass: suggestions only, never groups. */
  function ClaimedBefore(st: State, step: Step, fixed: Fixed): set<Id>
    requires step.Execute?
  {
    OneToOne.AlreadyClaimed(st.suggestions, step.ledgers, fixed.scopes(step.run).entity)
  }

  /** No new sole suggestion is of a ledger row that a live group holds. */
  ghost predicate PassAvoidsGroups(st: State, step: Step, fixed: Fixed)
    requires step.Execute?
  {
    forall i, t | |st.suggestions| <= i && SoleSuggestions.LiveSole(AfterOneToOne(st, step, fixed), i, t) ::
      !HeldByLiveGroup(st.groups, t)
  }

  /** No bank row in scope has a ledger row of a live group as its only unclaimed candidate. */
  ghost predicate PicksAvoidGroups(st: State, step: Step, fixed: Fixed)
    requires step.Execute?
  {
    forall b, t | b in OneToOne.ScopeRows(step.banks, fixed.scopes(step.run)) && HeldByLiveGroup(st.groups, t) ::
      !SoleSuggestions.SolePick(b, step.ledgers, step.cfg, ClaimedBefore(st, step, fixed), t)
  }

  /** The first execution of a run, as the session reads, suggests a ledger row that a live group
      holds exactly when some bank row in scope has such a row as its only candidate among the
      rows no live suggestion names: the group itself does not stand in the way. */
  lemma PassAvoidsGroupsExactlyWhen(st: State, step: Step, fixed: Fixed)
    requires step.Execute? && !step.sees && OneToOneProperties.FreshRun(st.suggestions, step.run)
    ensures PassAvoidsGroups(st, step, fixed) <==> PicksAvoidGroups(st, step, fixed)
  {
    hide SoleSuggestions.SolePick, SoleSuggestions.LiveSole, OneToOneProperties.FreshRun, HeldByLiveGroup;
    hide OneToOne.AfterRows, OneToOne.AlreadyClaimed, InOrder;
    var scope, claimed := fixed.scopes(step.run), ClaimedBefore(st, step, fixed);
    var rows := InOrder(OneToOne.ScopeRows(step.banks, scope), OneToOne.BankKey());
    var start := OneToOne.Pass([], claimed, 0, 0, 0, 0);
    var all := AfterOneToOne(st, step, fixed);
    SoleSuggestions.ScopeRowsAreDistinct(step.banks, scope);
    forall b, t | b in OneToOne.ScopeRows(step.banks, scope)
                  && SoleSuggestions.SolePick(b, step.ledgers, step.cfg, claimed, t)
      ensures exists i :: |st.suggestions| <= i && SoleSuggestions.LiveSole(all, i, t)
    {
      assert b in Elements(rows);
      var k :| 0 <= k < |rows| && rows[k] == b;
      var i := SoleSuggestions.PickBecomesSole(start, step.run, rows, step.ledgers, step.cfg, st.suggestions, k, t);
      NewRowsAreBehind(st.suggestions, all, step.run, i, t);
    }
    forall i, t | |st.suggestions| <= i && SoleSuggestions.LiveSole(all, i, t)
      ensures exists b :: b in OneToOne.ScopeRows(step.banks, scope)
                          && SoleSuggestions.SolePick(b, step.ledgers, step.cfg, claimed, t)
    {
      var k := SoleSuggestions.SoleComesFromPick(start, step.run, rows, step.ledgers, step.cfg, st.suggestions, i, t);
      assert rows[k] in Elements(rows);
    }
  }

  lemma NewRowsAreBehind(flushed: seq<OneToOne.Suggestion>, all: seq<OneToOne.Suggestion>, run: Id, i: int, t: Id)
    requires flushed <= all && OneToOneProperties.FreshRun(flushed, run)
    requires SoleSuggestions.LiveSole(all, i, t) && all[i].run == run
    ensures |flushed| <= i
  {
    assert forall j | 0 <= j < |flushed| :: all[j] == flushed[j];
  }
}
