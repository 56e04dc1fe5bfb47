/** What the claims are for, said of the transactions themselves: which bank and ledger rows a
    proposal names, and that acceptance never takes one of them twice on the same side of the
    transfer boundary. */
module AcceptedTransactions {
  import opened ReconciliationModel
  import opened Acceptance
  import opened AcceptanceRaces
  import Advanced = AdvancedMatching

  // ---------------------------------------------------------------- the rows a proposal names

  predicate NamesBank(body: Body, id: Id) {
    match body
    case Suggested(bank, _, _) => bank == Some(id)
    case Grouped(_, members, _, _, _) => BankMember(id) in members
  }

  predicate NamesLedger(body: Body, id: Id) {
    match body
    case Suggested(_, ledger, _) => ledger == Some(id)
    case Grouped(_, members, _, _, _) => LedgerMember(id) in members
  }

  predicate IsTransfer(body: Body) {
    body.Grouped? && body.relationship == Advanced.InternalTransfer
  }

  /** Both transfers, or neither. */
  predicate SameKind(a: Body, b: Body) {
    IsTransfer(a) == IsTransfer(b)
  }

  ghost predicate NameNoCommonRow(a: Body, b: Body) {
    forall id :: !(NamesBank(a, id) && NamesBank(b, id)) && !(NamesLedger(a, id) && NamesLedger(b, id))
  }

  ghost predicate ListsNoRowTwice(body: Body) {
    body.Grouped? ==> forall i, j | 0 <= i < j < |body.members| :: body.members[i] != body.members[j]
  }

  /** Among these proposals the accepted ones take every row at most once, transfers apart. */
  ghost predicate TakenOnce(proposals: map<Id, Proposal>) {
    && (forall p | p in proposals && proposals[p].status == Accepted :: ListsNoRowTwice(proposals[p].body))
    && forall p, q | p in proposals && q in proposals && p != q
                     && proposals[p].status == Accepted && proposals[q].status == Accepted
                     && SameKind(proposals[p].body, proposals[q].body) ::
         NameNoCommonRow(proposals[p].body, proposals[q].body)
  }

  // ---------------------------------------------------------------- claims and named rows

  lemma ClaimsAreNamedRows(body: Body, c: Claim)
    ensures c in ProposalClaims(body) <==>
            && (c.space == TransferSpace <==> IsTransfer(body))
            && if c.BankClaim? then NamesBank(body, c.id) else NamesLedger(body, c.id)
  {
    if body.Grouped? {
      var claims := ProposalClaims(body);
      assert forall i | 0 <= i < |body.members| :: claims[i] == MemberClaim(SpaceOf(body), body.members[i]);
      var m := if c.BankClaim? then BankMember(c.id) else LedgerMember(c.id);
      if m in body.members {
        var i :| 0 <= i < |body.members| && body.members[i] == m;
        assert claims[i] in claims;
      }
    }
  }

  lemma ClaimsAreDistinctExactlyWhen(body: Body)
    ensures Distinct(ProposalClaims(body)) <==> ListsNoRowTwice(body)
  {
    if body.Grouped? {
      var claims := ProposalClaims(body);
      assert forall i | 0 <= i < |body.members| :: claims[i] == MemberClaim(SpaceOf(body), body.members[i]);
    }
  }

  /** Two proposals claim something in common exactly when they are of one kind and name a common
      row. */
  lemma ClaimsCollideExactlyWhen(a: Body, b: Body)
    ensures (forall c | c in ProposalClaims(a) :: c !in ProposalClaims(b))
            <==> (SameKind(a, b) ==> NameNoCommonRow(a, b))
  {
    hide ProposalClaims;
    forall c ensures c in ProposalClaims(a) && c in ProposalClaims(b)
                     <==> && (c.space == TransferSpace <==> IsTransfer(a)) && SameKind(a, b)
                          && if c.BankClaim? then NamesBank(a, c.id) && NamesBank(b, c.id)
                             else NamesLedger(a, c.id) && NamesLedger(b, c.id) {
      ClaimsAreNamedRows(a, c);
      ClaimsAreNamedRows(b, c);
    }
    hide NamesBank, NamesLedger;
    if (forall c | c in ProposalClaims(a) :: c !in ProposalClaims(b)) && SameKind(a, b) {
      var space := if IsTransfer(a) then TransferSpace else MatchSpace;
      forall id ensures !(NamesBank(a, id) && NamesBank(b, id)) && !(NamesLedger(a, id) && NamesLedger(b, id)) {
        assert BankClaim(space, id).id == id && LedgerClaim(space, id).id == id;
      }
    }
  }

  // ---------------------------------------------------------------- sound tables take every row once

  lemma {:induction false} ClaimsOfAreDistinct(rows: seq<ClaimRow>, id: Id)
    requires Unique(rows)
    ensures Distinct(ClaimsOf(rows, id))
  {
    if rows != [] {
      var front := rows[..|rows| - 1];
      ClaimsOfAreDistinct(front, id);
      forall a | 0 <= a < |ClaimsOf(front, id)| ensures ClaimsOf(front, id)[a] != rows[|rows| - 1].claim {
        var i := ClaimHasItsRow(front, id, ClaimsOf(front, id)[a]);
      }
    }
  }

  lemma SoundTakesOnce(db: Db)
    requires Sound(db)
    ensures TakenOnce(db.proposals)
  {
    var proposals := db.proposals;
    hide ProposalClaims, ListsNoRowTwice, NameNoCommonRow, SameKind;
    forall p | p in proposals && proposals[p].status == Accepted ensures ListsNoRowTwice(proposals[p].body) {
      assert Consistent(db, p);
      ClaimsOfAreDistinct(db.claims, p);
      ClaimsAreDistinctExactlyWhen(proposals[p].body);
    }
    forall p, q | p in proposals && q in proposals && p != q
                  && proposals[p].status == Accepted && proposals[q].status == Accepted
                  && SameKind(proposals[p].body, proposals[q].body)
      ensures NameNoCommonRow(proposals[p].body, proposals[q].body)
    {
      assert Consistent(db, p) && Consistent(db, q);
      forall c | c in ProposalClaims(proposals[p].body) ensures c !in ProposalClaims(proposals[q].body) {
        var i := ClaimHasItsRow(db.claims, p, c);
        if c in ProposalClaims(proposals[q].body) {
          var j := ClaimHasItsRow(db.claims, q, c);
          OneHolder(db.claims, i, j);
        }
      }
      ClaimsCollideExactlyWhen(proposals[p].body, proposals[q].body);
    }
  }

  /** However requests interleave: no bank row and no ledger row is in two accepted transfers, and
      none is in two accepted proposals that are no transfers. */
  lemma RowsAreAcceptedOnce(start: System, steps: seq<Step>)
    requires Inv(start)
    ensures TakenOnce(After(start, steps).db.proposals)
  {
    hide After, Sound, KeysHeldOnce, LocksHold, TakenOnce;
    assert Sound(After(start, steps).db);
    SoundTakesOnce(After(start, steps).db);
  }

  // ---------------------------------------------------------------- what a decision meets

  /** A committed claim belongs to an accepted proposal. */
  lemma ClaimedExactlyWhen(db: Db, c: Claim)
    requires Sound(db)
    ensures Claimed(db.claims, c) <==>
            exists q :: q in db.proposals && db.proposals[q].status == Accepted
                        && c in ProposalClaims(db.proposals[q].body)
  {
    hide ProposalClaims, Unique;
    if Claimed(db.claims, c) {
      var i :| 0 <= i < |db.claims| && db.claims[i].claim == c;
      assert db.claims[i] in db.claims;
      var q := db.claims[i].proposal;
      assert Consistent(db, q);
      RowIsListed(db.claims, i);
    }
    if q :| q in db.proposals && db.proposals[q].status == Accepted && c in ProposalClaims(db.proposals[q].body) {
      assert Consistent(db, q);
      var i := ClaimHasItsRow(db.claims, q, c);
      assert db.claims[i] in db.claims;
    }
  }

  lemma {:induction false} RowIsListed(rows: seq<ClaimRow>, i: nat)
    requires i < |rows|
    ensures rows[i].claim in ClaimsOf(rows, rows[i].proposal)
  {
    if i < |rows| - 1 {
      RowIsListed(rows[..|rows| - 1], i);
    }
  }

  /** An acceptance meets no conflict exactly when the proposal lists no row twice and shares none
      with an accepted proposal of its kind. */
  lemma ClaimableExactlyWhen(db: Db, body: Body)
    requires Sound(db)
    ensures Claimable(db, body) <==>
            && ListsNoRowTwice(body)
            && forall q | q in db.proposals && db.proposals[q].status == Accepted
                          && SameKind(body, db.proposals[q].body) ::
                 NameNoCommonRow(body, db.proposals[q].body)
  {
    hide Sound, ProposalClaims, Claimed, SameKind, NameNoCommonRow, ListsNoRowTwice, Distinct;
    ClaimsAreDistinctExactlyWhen(body);
    forall c ensures Claimed(db.claims, c) <==>
                     exists q :: q in db.proposals && db.proposals[q].status == Accepted
                                 && c in ProposalClaims(db.proposals[q].body) {
      ClaimedExactlyWhen(db, c);
    }
    forall q | q in db.proposals
      ensures (forall c | c in ProposalClaims(body) :: c !in ProposalClaims(db.proposals[q].body))
              <==> (SameKind(body, db.proposals[q].body) ==> NameNoCommonRow(body, db.proposals[q].body))
    {
      ClaimsCollideExactlyWhen(body, db.proposals[q].body);
    }
  }

  // ---------------------------------------------------------------- when a decision is made

  /** A suggestion can be decided when it pairs two rows, is auto-tier, and no other suggestion of
      its run for that bank row with a ledger row is pending or accepted. */
  predicate OnlyStrongCandidate(proposals: map<Id, Proposal>, id: Id)
    requires id in proposals && proposals[id].body.Suggested?
  {
    var p := proposals[id];
    && p.body.bank.Some? && p.body.ledger.Some? && p.body.autoTier
    && forall k | k in proposals && k != id && proposals[k].body.Suggested? && proposals[k].run == p.run
                  && proposals[k].body.bank == p.body.bank && proposals[k].body.ledger.Some? ::
         proposals[k].status == Ambiguous || proposals[k].status == Rejected
  }

  /** The rows a proposal names are still there, live and in scope; the ledger rows of a transfer
      may belong to another account of the entity. */
  ghost predicate RowsStillFit(body: Body, w: World, scope: Scope) {
    && (forall id | NamesBank(body, id) ::
          && id in w.banks && w.banks[id].active
          && w.banks[id].entity == scope.entity && w.banks[id].account == scope.account)
    && (forall id | NamesLedger(body, id) ::
          && id in w.ledgers && w.ledgers[id].posted && w.ledgers[id].entity == scope.entity
          && (w.ledgers[id].account == scope.account || IsTransfer(body)))
  }

  /** One currency for the rows of both sides, except for conversions, which have one for each, and
      transfers, which have none. */
  ghost predicate CurrenciesStillFit(body: Body, w: World)
    requires forall id | NamesBank(body, id) :: id in w.banks
    requires forall id | NamesLedger(body, id) :: id in w.ledgers
  {
    match body
    case Suggested(bank, ledger, _) =>
      forall b, l | NamesBank(body, b) && NamesLedger(body, l) :: w.banks[b].currency == w.ledgers[l].currency
    case Grouped(relationship, _, currency, source, target) =>
      if relationship == Advanced.InternalTransfer then true
      else if relationship == Advanced.FxMatch then InCurrencies(body, w, source, target)
      else InCurrencies(body, w, currency, currency)
  }

  ghost predicate InCurrencies(body: Body, w: World, bank: Id, ledger: Id)
    requires forall id | NamesBank(body, id) :: id in w.banks
    requires forall id | NamesLedger(body, id) :: id in w.ledgers
  {
    && (forall b | NamesBank(body, b) :: w.banks[b].currency == bank)
    && (forall l | NamesLedger(body, l) :: w.ledgers[l].currency == ledger)
  }

  lemma DecidableExactlyWhen(proposals: map<Id, Proposal>, id: Id)
    requires id in proposals
    ensures Decidable(proposals, id) <==> (proposals[id].body.Suggested? ==> OnlyStrongCandidate(proposals, id))
  {
  }

  lemma ClaimsNameEveryRow(body: Body)
    ensures var space := if IsTransfer(body) then TransferSpace else MatchSpace;
            && (forall id :: BankClaim(space, id) in ProposalClaims(body) <==> NamesBank(body, id))
            && (forall id :: LedgerClaim(space, id) in ProposalClaims(body) <==> NamesLedger(body, id))
    ensures forall c | c in ProposalClaims(body) ::
            if c.BankClaim? then NamesBank(body, c.id) else NamesLedger(body, c.id)
    ensures SpaceOf(body) == TransferSpace <==> IsTransfer(body)
  {
    var space := if IsTransfer(body) then TransferSpace else MatchSpace;
    hide ProposalClaims, NamesBank, NamesLedger;
    forall id
      ensures BankClaim(space, id) in ProposalClaims(body) <==> NamesBank(body, id)
      ensures LedgerClaim(space, id) in ProposalClaims(body) <==> NamesLedger(body, id)
    {
      ClaimsAreNamedRows(body, BankClaim(space, id));
      ClaimsAreNamedRows(body, LedgerClaim(space, id));
    }
    forall c | c in ProposalClaims(body)
      ensures if c.BankClaim? then NamesBank(body, c.id) else NamesLedger(body, c.id)
    {
      ClaimsAreNamedRows(body, c);
    }
  }

  lemma MembersFitExactlyWhen(body: Body, w: World, scope: Scope)
    ensures MembersEligible(body, w, scope) <==> RowsStillFit(body, w, scope)
  {
    ClaimsNameEveryRow(body);
    hide ProposalClaims, NamesBank, NamesLedger, IsTransfer, SpaceOf;
  }

  lemma CurrenciesFitExactlyWhen(body: Body, w: World, scope: Scope)
    requires MembersEligible(body, w, scope) && RowsStillFit(body, w, scope)
    ensures CurrenciesAgree(body, w) <==> CurrenciesStillFit(body, w)
  {
    ClaimsNameEveryRow(body);
    if body.Grouped? {
      hide ProposalClaims, NamesBank, NamesLedger, IsTransfer, SpaceOf;
    }
  }

  lemma EligibleExactlyWhen(body: Body, w: World, scope: Scope)
    ensures Eligible(body, w, scope) <==> RowsStillFit(body, w, scope) && CurrenciesStillFit(body, w)
  {
    MembersFitExactlyWhen(body, w, scope);
    hide ProposalClaims, NamesBank, NamesLedger, CurrenciesAgree, CurrenciesStillFit, RowsStillFit, MembersEligible;
    if MembersEligible(body, w, scope) {
      CurrenciesFitExactlyWhen(body, w, scope);
    }
  }

  /** Everything an acceptance or a rejection needs, said of the proposal, its rows and the accepted
      proposals. */
  ghost predicate MayBeDecided(db: Db, w: World, r: Request) {
    && r.proposal in db.proposals
    && db.proposals[r.proposal].status == Pending
    && db.proposals[r.proposal].run in w.runs
    && w.runs[db.proposals[r.proposal].run].completed
    && var body := db.proposals[r.proposal].body;
    && (body.Suggested? ==> OnlyStrongCandidate(db.proposals, r.proposal))
    && (r.accept || 10 <= r.reasonLength) && r.reasonLength <= 4000
    && (r.accept ==>
          && RowsStillFit(body, w, w.runs[db.proposals[r.proposal].run].scope)
          && CurrenciesStillFit(body, w)
          && TakenOnce(db.proposals[r.proposal := db.proposals[r.proposal].(status := Accepted)]))
  }

  /** Accepting one more proposal keeps every row taken once exactly when it lists none twice and
      shares none with an accepted proposal of its kind. */
  lemma OneMoreTakenOnceExactlyWhen(db: Db, p: Id)
    requires Sound(db) && p in db.proposals && db.proposals[p].status == Pending
    ensures TakenOnce(db.proposals[p := db.proposals[p].(status := Accepted)]) <==> Claimable(db, db.proposals[p].body)
  {
    SoundTakesOnce(db);
    ClaimableExactlyWhen(db, db.proposals[p].body);
    hide Sound, Claimable, ListsNoRowTwice, SameKind, NameNoCommonRow;
    var after := db.proposals[p := db.proposals[p].(status := Accepted)];
    assert after[p].status == Accepted && after[p].body == db.proposals[p].body;
    assert forall q | q in db.proposals && db.proposals[q].status == Accepted :: q != p && after[q] == db.proposals[q];
    forall q | q in db.proposals
      ensures SameKind(db.proposals[p].body, db.proposals[q].body)
              <==> SameKind(db.proposals[q].body, db.proposals[p].body)
      ensures NameNoCommonRow(db.proposals[p].body, db.proposals[q].body)
              <==> NameNoCommonRow(db.proposals[q].body, db.proposals[p].body)
    {
      CommonRowsAreMutual(db.proposals[p].body, db.proposals[q].body);
    }
  }

  lemma CommonRowsAreMutual(a: Body, b: Body)
    ensures SameKind(a, b) <==> SameKind(b, a)
    ensures NameNoCommonRow(a, b) <==> NameNoCommonRow(b, a)
  {
    hide NamesBank, NamesLedger;
  }

  lemma UndecidedExactlyWhenOpen(db: Db, id: Id)
    requires Sound(db) && id in db.proposals
    ensures db.proposals[id].status == Pending ==> id !in db.decisions
  {
    assert Consistent(db, id);
  }

  /** The service and the protocol decide a proposal exactly when, in terms of its rows and of the
      proposals accepted before, it may be decided. */
  lemma DecidedExactlyWhen(db: Db, w: World, r: Request)
    requires Sound(db)
    ensures Allowed(db, w, r) <==> MayBeDecided(db, w, r)
  {
    hide Sound, Decidable, Eligible, Claimable, OnlyStrongCandidate, RowsStillFit, CurrenciesStillFit, TakenOnce;
    if r.proposal in db.proposals && db.proposals[r.proposal].status == Pending {
      var body := db.proposals[r.proposal].body;
      UndecidedExactlyWhenOpen(db, r.proposal);
      DecidableExactlyWhen(db.proposals, r.proposal);
      OneMoreTakenOnceExactlyWhen(db, r.proposal);
      if db.proposals[r.proposal].run in w.runs {
        EligibleExactlyWhen(body, w, w.runs[db.proposals[r.proposal].run].scope);
      }
    }
  }

  // ---------------------------------------------------------------- nothing is accepted unchecked

  /** Step `n` of the run checked an acceptance of `p`: its rows were there, live and in scope, in
      currencies that fit, and none was in an accepted proposal of its kind. */
  ghost predicate PassedAt(start: System, steps: seq<Step>, n: int, p: Id)
    requires Inv(start)
  {
    && 0 <= n < |steps| && steps[n].Check?
    && var sys, s, w := After(start, steps[..n]), steps[n].session, steps[n].w;
    && s in sys.sessions && sys.sessions[s].request.accept && sys.sessions[s].request.proposal == p
    && p in sys.db.proposals && MayStand(sys.db, w, p)
  }

  ghost predicate MayStand(db: Db, w: World, p: Id)
    requires p in db.proposals
  {
    var body, run := db.proposals[p].body, db.proposals[p].run;
    && run in w.runs && RowsStillFit(body, w, w.runs[run].scope) && CurrenciesStillFit(body, w)
    && forall q | q in db.proposals && db.proposals[q].status == Accepted && SameKind(body, db.proposals[q].body) ::
         NameNoCommonRow(body, db.proposals[q].body)
  }

  ghost predicate Passed(start: System, steps: seq<Step>, p: Id)
    requires Inv(start)
  {
    exists n :: PassedAt(start, steps, n, p)
  }

  ghost function AllPassed(start: System, steps: seq<Step>): iset<Id>
    requires Inv(start)
  {
    iset p | Passed(start, steps, p)
  }

  /** Of `passed` is whatever is past its checks, and whatever is accepted but was not at the start. */
  ghost predicate OnlyOf(passed: iset<Id>, start: System, sys: System) {
    && (forall s | s in sys.sessions && sys.sessions[s].request.accept && !sys.sessions[s].phase.Loaded? ::
          sys.sessions[s].request.proposal in passed)
    && forall p | p in sys.db.proposals && sys.db.proposals[p].status == Accepted
                  && !(p in start.db.proposals && start.db.proposals[p].status == Accepted) :: p in passed
  }

  lemma PassingMeans(sys: System, s: Id, w: World)
    requires Inv(sys) && LocksExist(sys) && s in sys.sessions && sys.sessions[s].request.accept && Passes(sys, s, w)
    ensures MayStand(sys.db, w, sys.sessions[s].request.proposal)
  {
    var p := sys.sessions[s].request.proposal;
    var body, run := sys.db.proposals[p].body, sys.db.proposals[p].run;
    hide ProposalClaims, RowsStillFit, CurrenciesStillFit, Eligible, NameNoCommonRow, SameKind, Claimed;
    EligibleExactlyWhen(body, w, w.runs[run].scope);
    forall q | q in sys.db.proposals && sys.db.proposals[q].status == Accepted
               && SameKind(body, sys.db.proposals[q].body)
      ensures NameNoCommonRow(body, sys.db.proposals[q].body)
    {
      forall c | c in ProposalClaims(body) ensures c !in ProposalClaims(sys.db.proposals[q].body) {
        ClaimedExactlyWhen(sys.db, c);
      }
      ClaimsCollideExactlyWhen(body, sys.db.proposals[q].body);
    }
  }

  lemma PassedBefore(start: System, steps: seq<Step>, p: Id)
    requires Inv(start) && steps != [] && Passed(start, steps[..|steps| - 1], p)
    ensures Passed(start, steps, p)
  {
    hide After, MayStand;
    var front := steps[..|steps| - 1];
    var n :| PassedAt(start, front, n, p);
    assert steps[..n] == front[..n];
    assert PassedAt(start, steps, n, p);
  }

  lemma CommitKeepsOnlyOf(passed: iset<Id>, start: System, sys: System, s: Id)
    requires LocksExist(sys) && Enabled(sys, Commit(s)) && OnlyOf(passed, start, sys)
    ensures OnlyOf(passed, start, Apply(sys, Commit(s)))
  {
    hide ProposalClaims;
  }

  /** A step that is no check lets nothing new past the checks. */
  lemma StepKeepsOnlyOf(passed: iset<Id>, start: System, sys: System, step: Step)
    requires LocksExist(sys) && !step.Check? && OnlyOf(passed, start, sys)
    ensures OnlyOf(passed, start, Next(sys, step))
  {
    hide ProposalClaims, Loadable, Claimed, InFlight, HeldByOther;
    if step.Commit? && Enabled(sys, step) {
      CommitKeepsOnlyOf(passed, start, sys, step.session);
    }
  }

  lemma CheckKeepsOnlyOf(passed: iset<Id>, start: System, sys: System, step: Step)
    requires LocksExist(sys) && step.Check? && OnlyOf(passed, start, sys)
    requires Enabled(sys, step) && Passes(sys, step.session, step.w) && sys.sessions[step.session].request.accept ==>
               sys.sessions[step.session].request.proposal in passed
    ensures OnlyOf(passed, start, Next(sys, step))
  {
    hide ProposalClaims, Passes, InFlight, HeldByOther;
  }

  lemma StepKeepsOnlyPassed(start: System, steps: seq<Step>)
    requires Inv(start) && steps != []
    requires OnlyOf(AllPassed(start, steps[..|steps| - 1]), start, After(start, steps[..|steps| - 1]))
    ensures OnlyOf(AllPassed(start, steps), start, After(start, steps))
  {
    hide *;
    var front, step := steps[..|steps| - 1], steps[|steps| - 1];
    var before, passed := After(start, front), AllPassed(start, steps);
    AfterOneMore(start, steps);
    PassedGrow(start, steps);
    MoreMayPass(AllPassed(start, front), passed, start, before);
    if step.Check? {
      CheckIsRecorded(start, steps);
      CheckKeepsOnlyOf(passed, start, before, step);
    } else {
      StepKeepsOnlyOf(passed, start, before, step);
    }
  }

  lemma AfterOneMore(start: System, steps: seq<Step>)
    requires Inv(start) && steps != []
    ensures LocksExist(After(start, steps[..|steps| - 1]))
    ensures After(start, steps) == Next(After(start, steps[..|steps| - 1]), steps[|steps| - 1])
  {
    hide Inv, Next, LocksExist;
  }

  lemma PassedGrow(start: System, steps: seq<Step>)
    requires Inv(start) && steps != []
    ensures AllPassed(start, steps[..|steps| - 1]) <= AllPassed(start, steps)
  {
    hide Passed, Inv;
    forall p | p in AllPassed(start, steps[..|steps| - 1]) ensures p in AllPassed(start, steps) {
      PassedBefore(start, steps, p);
    }
  }

  lemma MoreMayPass(few: iset<Id>, passed: iset<Id>, start: System, sys: System)
    requires few <= passed && OnlyOf(few, start, sys)
    ensures OnlyOf(passed, start, sys)
  {
  }

  lemma CheckIsRecorded(start: System, steps: seq<Step>)
    requires Inv(start) && steps != [] && steps[|steps| - 1].Check?
    ensures var before, step := After(start, steps[..|steps| - 1]), steps[|steps| - 1];
            Enabled(before, step) && Passes(before, step.session, step.w)
            && before.sessions[step.session].request.accept ==>
              before.sessions[step.session].request.proposal in AllPassed(start, steps)
  {
    hide After, Inv, Passes, MayStand;
    var n := |steps| - 1;
    var before, step := After(start, steps[..n]), steps[n];
    if Enabled(before, step) && Passes(before, step.session, step.w) && before.sessions[step.session].request.accept {
      PassingMeans(before, step.session, step.w);
      assert PassedAt(start, steps, n, before.sessions[step.session].request.proposal);
    }
  }

  /** In a run that starts without open requests, every proposal it accepts was checked in this run
      by a request to accept it. */
  lemma {:induction false} AcceptedOnlyWhenPassed(start: System, steps: seq<Step>)
    requires Inv(start) && start.sessions == map[]
    ensures OnlyOf(AllPassed(start, steps), start, After(start, steps))
  {
    hide After, Inv, OnlyOf, AllPassed;
    if steps == [] {
      NothingPassedYet(start);
    } else {
      AcceptedOnlyWhenPassed(start, steps[..|steps| - 1]);
      StepKeepsOnlyPassed(start, steps);
    }
  }

  lemma NothingPassedYet(start: System)
    requires Inv(start) && start.sessions == map[]
    ensures OnlyOf(AllPassed(start, []), start, After(start, []))
  {
    hide Inv;
  }
}
