/** Acceptance under concurrency, one atomic database step at a time.

    A request locks its proposal row, checks what is committed at that moment, then inserts its
    claim rows one by one and commits.  Checks of different requests interleave freely and may
    be stale by the time rows are inserted; an insert waits while another open transaction
    holds the same key and fails once that key is committed. */
module AcceptanceRaces {
  import opened ReconciliationModel
  import opened Acceptance

  /** How far a request has got: holding the row lock, past its checks, or with `written` claim
      rows inserted but not committed. */
  datatype Phase = Loaded | Checked | Inserting(written: nat)
  datatype Session = Session(request: Request, phase: Phase)
  datatype System = System(db: Db, sessions: map<Id, Session>)

  datatype Step =
    | Propose(id: Id, proposal: Proposal)
    | Load(session: Id, request: Request, runs: map<Id, Run>)
    | Check(session: Id, w: World)
    | InsertNext(session: Id)
    | Commit(session: Id)
    | Abort(session: Id)

  function BodyOf(sys: System, s: Id): Body
    requires s in sys.sessions && sys.sessions[s].request.proposal in sys.db.proposals
  {
    sys.db.proposals[sys.sessions[s].request.proposal].body
  }

  /** The claim rows a session has inserted and not yet committed. */
  function InFlight(sys: System, s: Id): seq<Claim>
    requires s in sys.sessions && sys.sessions[s].request.proposal in sys.db.proposals
  {
    var claims := ProposalClaims(BodyOf(sys, s));
    match sys.sessions[s].phase
    case Inserting(written) => if written <= |claims| then claims[..written] else claims
    case _ => []
  }

  predicate LocksExist(sys: System) {
    forall s | s in sys.sessions :: sys.sessions[s].request.proposal in sys.db.proposals
  }

  predicate Locked(sys: System, proposal: Id) {
    exists s | s in sys.sessions :: sys.sessions[s].request.proposal == proposal
  }

  predicate HeldByOther(sys: System, s: Id, c: Claim)
    requires LocksExist(sys)
  {
    exists t | t in sys.sessions :: t != s && c in InFlight(sys, t)
  }

  predicate ReadyToInsert(sys: System, s: Id) {
    s in sys.sessions && sys.sessions[s].request.accept
        && (sys.sessions[s].phase.Checked? || sys.sessions[s].phase.Inserting?)
  }

  function Written(phase: Phase): nat {
    if phase.Inserting? then phase.written else 0
  }

  /** When a step can happen now; a lock or a key held by an open transaction makes it wait. */
  predicate Enabled(sys: System, step: Step)
    requires LocksExist(sys)
  {
    match step
    case Propose(id, proposal) =>
      id !in sys.db.proposals && id !in sys.db.decisions && proposal.status in {Pending, Ambiguous}
    case Load(s, request, _) => s !in sys.sessions && !Locked(sys, request.proposal)
    case Check(s, _) => s in sys.sessions && sys.sessions[s].phase.Loaded?
    case InsertNext(s) =>
      && ReadyToInsert(sys, s)
      && Written(sys.sessions[s].phase) < |ProposalClaims(BodyOf(sys, s))|
      && !HeldByOther(sys, s, ProposalClaims(BodyOf(sys, s))[Written(sys.sessions[s].phase)])
    case Commit(s) =>
      && s in sys.sessions
      && if sys.sessions[s].request.accept
         then ReadyToInsert(sys, s) && Written(sys.sessions[s].phase) >= |ProposalClaims(BodyOf(sys, s))|
         else sys.sessions[s].phase.Checked?
    case Abort(s) => s in sys.sessions
  }

  function Dropped(sys: System, s: Id): System {
    sys.(sessions := sys.sessions - {s})
  }

  function At(sys: System, s: Id, phase: Phase): System
    requires s in sys.sessions
  {
    sys.(sessions := sys.sessions[s := sys.sessions[s].(phase := phase)])
  }

  /** Everything a request verifies right after it holds the lock. */
  predicate Loadable(db: Db, request: Request, runs: map<Id, Run>) {
    && request.proposal in db.proposals
    && db.proposals[request.proposal].run in runs
    && request.proposal !in db.decisions
    && runs[db.proposals[request.proposal].run].completed
    && db.proposals[request.proposal].status == Pending
    && Decidable(db.proposals, request.proposal)
    && ReasonFits(request)
  }

  /** The pre-checks of an acceptance, against what is committed now. */
  predicate Passes(sys: System, s: Id, w: World)
    requires LocksExist(sys) && s in sys.sessions
  {
    var proposal := sys.db.proposals[sys.sessions[s].request.proposal];
    sys.sessions[s].request.accept ==>
      && proposal.run in w.runs
      && Eligible(proposal.body, w, w.runs[proposal.run].scope)
      && forall c | c in ProposalClaims(proposal.body) :: !Claimed(sys.db.claims, c)
  }

  function Apply(sys: System, step: Step): System
    requires LocksExist(sys) && Enabled(sys, step)
  {
    match step
    case Propose(id, proposal) => sys.(db := sys.db.(proposals := sys.db.proposals[id := proposal]))
    case Load(s, request, runs) =>
      if Loadable(sys.db, request, runs) then sys.(sessions := sys.sessions[s := Session(request, Loaded)]) else sys
    case Check(s, w) => if Passes(sys, s, w) then At(sys, s, Checked) else Dropped(sys, s)
    case InsertNext(s) =>
      var n := Written(sys.sessions[s].phase);
      var c := ProposalClaims(BodyOf(sys, s))[n];
      if Claimed(sys.db.claims, c) || c in InFlight(sys, s) then Dropped(sys, s) else At(sys, s, Inserting(n + 1))
    case Commit(s) =>
      var request := sys.sessions[s].request;
      Dropped(sys.(db := Decided(sys.db, request.proposal, request.accept)), s)
    case Abort(s) => Dropped(sys, s)
  }

  function Next(sys: System, step: Step): System
    requires LocksExist(sys)
  {
    if Enabled(sys, step) then Apply(sys, step) else sys
  }

  // ---------------------------------------------------------------- what always holds

  function ClaimsOf(rows: seq<ClaimRow>, id: Id): seq<Claim> {
    if rows == [] then []
    else
      var front := ClaimsOf(rows[..|rows| - 1], id);
      if rows[|rows| - 1].proposal == id then front + [rows[|rows| - 1].claim] else front
  }

  /** Status, decision and claim rows of a proposal tell one story. */
  predicate Consistent(db: Db, id: Id)
    requires id in db.proposals
  {
    && (db.proposals[id].status == Accepted <==> id in db.decisions && db.decisions[id])
    && (db.proposals[id].status == Rejected <==> id in db.decisions && !db.decisions[id])
    && ClaimsOf(db.claims, id)
       == if db.proposals[id].status == Accepted then ProposalClaims(db.proposals[id].body) else []
  }

  ghost predicate Sound(db: Db) {
    && Unique(db.claims)
    && (forall id | id in db.proposals :: Consistent(db, id))
    && (forall id | id in db.decisions :: id in db.proposals)
    && (forall r | r in db.claims :: r.proposal in db.proposals)
  }

  /** Open transactions hold different proposals, all still undecided. */
  ghost predicate LocksHold(sys: System) {
    && LocksExist(sys)
    && (forall s | s in sys.sessions ::
          && sys.sessions[s].request.proposal !in sys.db.decisions
          && sys.db.proposals[sys.sessions[s].request.proposal].status == Pending)
    && (forall s, t | s in sys.sessions && t in sys.sessions
                      && sys.sessions[s].request.proposal == sys.sessions[t].request.proposal :: s == t)
    && (forall s | s in sys.sessions && sys.sessions[s].phase.Inserting? ::
          sys.sessions[s].request.accept && sys.sessions[s].phase.written <= |ProposalClaims(BodyOf(sys, s))|)
  }

  /** No key is held twice: not by two open transactions, not twice by one, not by an open
      transaction and a committed row. */
  ghost predicate KeysHeldOnce(sys: System)
    requires LocksExist(sys)
  {
    && (forall s | s in sys.sessions :: Distinct(InFlight(sys, s)))
    && (forall s, c | s in sys.sessions && c in InFlight(sys, s) :: !Claimed(sys.db.claims, c))
    && (forall s, t, c | s in sys.sessions && t in sys.sessions && c in InFlight(sys, s) && c in InFlight(sys, t) ::
        s == t)
  }

  ghost predicate Inv(sys: System) {
    LocksHold(sys) && Sound(sys.db) && KeysHeldOnce(sys)
  }

  // ---------------------------------------------------------------- each step keeps it

  lemma DroppingKeepsInv(sys: System, s: Id)
    requires Inv(sys)
    ensures Inv(Dropped(sys, s))
  {
    hide Sound;
    var after := Dropped(sys, s);
    assert forall t | t in after.sessions :: InFlight(sys, t) == InFlight(after, t);
    hide InFlight, Claimed, Distinct;
  }

  lemma ProposingKeepsInv(sys: System, id: Id, proposal: Proposal)
    requires Inv(sys) && Enabled(sys, Propose(id, proposal))
    ensures Inv(Apply(sys, Propose(id, proposal)))
  {
    var after := Apply(sys, Propose(id, proposal));
    assert forall t | t in after.sessions :: InFlight(sys, t) == InFlight(after, t);
    NoRowsNoClaims(sys.db.claims, id);
    hide InFlight, Claimed, Distinct, Unique, ClaimsOf, ProposalClaims;
    assert Sound(after.db);
    assert LocksHold(after);
  }

  lemma {:induction false} NoRowsNoClaims(rows: seq<ClaimRow>, id: Id)
    requires forall r | r in rows :: r.proposal != id
    ensures ClaimsOf(rows, id) == []
  {
    if rows != [] {
      NoRowsNoClaims(rows[..|rows| - 1], id);
    }
  }

  lemma LoadingKeepsInv(sys: System, step: Step)
    requires step.Load? && Inv(sys) && Enabled(sys, step)
    ensures Inv(Apply(sys, step))
  {
    hide Sound, Decidable, ProposalClaims;
    var after := Apply(sys, step);
    assert forall t | t in sys.sessions :: InFlight(sys, t) == InFlight(after, t);
    assert Loadable(sys.db, step.request, step.runs) ==> InFlight(after, step.session) == [];
    hide InFlight, Claimed;
  }

  lemma CheckingKeepsInv(sys: System, s: Id, w: World)
    requires Inv(sys) && Enabled(sys, Check(s, w))
    ensures Inv(Apply(sys, Check(s, w)))
  {
    hide Sound, Eligible, ProposalClaims;
    var after := At(sys, s, Checked);
    assert forall t | t in sys.sessions :: InFlight(sys, t) == InFlight(after, t);
    DroppingKeepsInv(sys, s);
    hide InFlight, Claimed, Dropped;
  }

  /** The claim a session inserts next. */
  function NextClaim(sys: System, s: Id): Claim
    requires LocksExist(sys) && Enabled(sys, InsertNext(s))
  {
    ProposalClaims(BodyOf(sys, s))[Written(sys.sessions[s].phase)]
  }

  lemma AdvancingKeepsInv(sys: System, s: Id)
    requires Inv(sys) && Enabled(sys, InsertNext(s))
    requires !Claimed(sys.db.claims, NextClaim(sys, s)) && NextClaim(sys, s) !in InFlight(sys, s)
    ensures Inv(At(sys, s, Inserting(Written(sys.sessions[s].phase) + 1)))
  {
    hide Sound, ProposalClaims, Claimed;
    var c := NextClaim(sys, s);
    var after := At(sys, s, Inserting(Written(sys.sessions[s].phase) + 1));
    assert forall t | t in sys.sessions && t != s :: InFlight(sys, t) == InFlight(after, t);
    assert InFlight(after, s) == InFlight(sys, s) + [c];
    assert !HeldByOther(sys, s, c);
    hide InFlight;
  }

  lemma InsertingKeepsInv(sys: System, s: Id)
    requires Inv(sys) && Enabled(sys, InsertNext(s))
    ensures Inv(Apply(sys, InsertNext(s)))
  {
    assert LocksExist(sys);
    hide Inv, ProposalClaims, Claimed, InFlight, Dropped, At;
    if Claimed(sys.db.claims, NextClaim(sys, s)) || NextClaim(sys, s) in InFlight(sys, s) {
      DroppingKeepsInv(sys, s);
    } else {
      AdvancingKeepsInv(sys, s);
    }
  }

  lemma ClaimsOfOneMore(rows: seq<ClaimRow>, r: ClaimRow, k: Id)
    ensures ClaimsOf(rows + [r], k) == ClaimsOf(rows, k) + if r.proposal == k then [r.claim] else []
  {
    assert (rows + [r])[..|rows|] == rows;
  }

  lemma {:induction false} ClaimsOfAppended(rows: seq<ClaimRow>, id: Id, claims: seq<Claim>, k: Id)
    ensures ClaimsOf(rows + RowsFor(id, claims), k) == ClaimsOf(rows, k) + if k == id then claims else []
  {
    hide ClaimsOf;
    if claims == [] {
      assert rows + RowsFor(id, claims) == rows;
    } else {
      var front, last := claims[..|claims| - 1], claims[|claims| - 1];
      ClaimsOfAppended(rows, id, front, k);
      ClaimsOfOneMore(rows + RowsFor(id, front), ClaimRow(id, last), k);
      assert rows + RowsFor(id, claims) == (rows + RowsFor(id, front)) + [ClaimRow(id, last)];
      assert claims == front + [last];
    }
  }

  lemma AppendedRowsAreUnique(rows: seq<ClaimRow>, id: Id, claims: seq<Claim>)
    requires Unique(rows) && Distinct(claims) && forall c | c in claims :: !Claimed(rows, c)
    ensures Unique(rows + RowsFor(id, claims))
  {
    assert forall i | 0 <= i < |claims| :: claims[i] in claims;
    assert forall i | 0 <= i < |rows| :: rows[i] in rows;
  }

  lemma DecidedIsConsistent(db: Db, id: Id, accept: bool, k: Id)
    requires id in db.proposals && id !in db.decisions && db.proposals[id].status == Pending
    requires k in db.proposals && Consistent(db, k) && Consistent(db, id)
    ensures Consistent(Decided(db, id, accept), k)
  {
    hide ProposalClaims, ClaimsOf, RowsFor;
    var claims := ProposalClaims(db.proposals[id].body);
    if accept {
      ClaimsOfAppended(db.claims, id, claims, k);
      assert [] + claims == claims;
      assert ClaimsOf(db.claims, k) + [] == ClaimsOf(db.claims, k);
    }
  }

  /** Committing a decision whose rows, if it is an acceptance, collide with nothing. */
  lemma DecidingKeepsSound(db: Db, id: Id, accept: bool)
    requires Sound(db) && id in db.proposals && id !in db.decisions && db.proposals[id].status == Pending
    requires accept ==> Claimable(db, db.proposals[id].body)
    ensures Sound(Decided(db, id, accept))
  {
    hide ProposalClaims, Consistent;
    var after := Decided(db, id, accept);
    if accept {
      AppendedRowsAreUnique(db.claims, id, ProposalClaims(db.proposals[id].body));
    }
    hide Unique, Claimed, Distinct;
    forall k | k in after.proposals ensures Consistent(after, k) {
      DecidedIsConsistent(db, id, accept, k);
    }
  }

  lemma CommittingKeepsInv(sys: System, s: Id)
    requires Inv(sys) && Enabled(sys, Commit(s))
    ensures Inv(Apply(sys, Commit(s)))
  {
    hide Sound, ProposalClaims;
    var request := sys.sessions[s].request;
    var claims := ProposalClaims(BodyOf(sys, s));
    if request.accept {
      assert InFlight(sys, s) == claims;
    }
    DecidingKeepsSound(sys.db, request.proposal, request.accept);
    var after := Apply(sys, Commit(s));
    assert forall t | t in after.sessions :: InFlight(sys, t) == InFlight(after, t);
    hide InFlight, Distinct;
    forall t, c | t in after.sessions && c in InFlight(after, t) ensures !Claimed(after.db.claims, c) {
      CommittedAreOldOrOwn(sys.db.claims, request.proposal, claims, c);
    }
    hide Claimed;
    assert LocksHold(after);
  }

  lemma CommittedAreOldOrOwn(rows: seq<ClaimRow>, id: Id, claims: seq<Claim>, c: Claim)
    ensures Claimed(rows + RowsFor(id, claims), c) ==> Claimed(rows, c) || c in claims
  {
  }

  lemma StepKeepsInv(sys: System, step: Step)
    requires Inv(sys)
    ensures Inv(Next(sys, step))
  {
    assert LocksExist(sys);
    hide Inv, Apply, Enabled;
    if Enabled(sys, step) {
      match step
      case Propose(id, proposal) => ProposingKeepsInv(sys, id, proposal);
      case Load(_, _, _) => LoadingKeepsInv(sys, step);
      case Check(s, w) => CheckingKeepsInv(sys, s, w);
      case InsertNext(s) => InsertingKeepsInv(sys, s);
      case Commit(s) => CommittingKeepsInv(sys, s);
      case Abort(s) =>
    }
  }

  // ---------------------------------------------------------------- whole runs

  /** The system after some steps; a step that has to wait, or is refused, changes nothing. */
  ghost function After(start: System, steps: seq<Step>): (sys: System)
    requires Inv(start)
    ensures Inv(sys) && LocksExist(sys)
  {
    if steps == [] then start
    else
      var before := After(start, steps[..|steps| - 1]);
      StepKeepsInv(before, steps[|steps| - 1]);
      Next(before, steps[|steps| - 1])
  }

  lemma {:induction false} ClaimHasItsRow(rows: seq<ClaimRow>, id: Id, c: Claim) returns (i: nat)
    requires c in ClaimsOf(rows, id)
    ensures i < |rows| && rows[i] == ClaimRow(id, c)
  {
    i := |rows| - 1;
    if rows[i] != ClaimRow(id, c) {
      i := ClaimHasItsRow(rows[..|rows| - 1], id, c);
    }
  }

  lemma OneHolder(rows: seq<ClaimRow>, i: nat, j: nat)
    requires Unique(rows) && i < |rows| && j < |rows| && rows[i].claim == rows[j].claim
    ensures i == j
  {
  }

  /** However requests interleave, two accepted proposals of one namespace share no bank row
      and no ledger row: no claim of one is a claim of the other. */
  lemma AcceptedProposalsNeverOverlap(start: System, steps: seq<Step>, p: Id, q: Id, c: Claim)
    requires Inv(start)
    requires var proposals := After(start, steps).db.proposals;
             && p != q && p in proposals && q in proposals
             && proposals[p].status == Accepted && proposals[q].status == Accepted
    ensures var proposals := After(start, steps).db.proposals;
            !(c in ProposalClaims(proposals[p].body) && c in ProposalClaims(proposals[q].body))
  {
    hide After, ProposalClaims, KeysHeldOnce, LocksHold;
    var db := After(start, steps).db;
    if c in ProposalClaims(db.proposals[p].body) && c in ProposalClaims(db.proposals[q].body) {
      assert Consistent(db, p) && Consistent(db, q);
      var i := ClaimHasItsRow(db.claims, p, c);
      var j := ClaimHasItsRow(db.claims, q, c);
      OneHolder(db.claims, i, j);
    }
  }

  /** Accepted is exactly: an accepting decision, with claim rows for precisely what the
      proposal claims.  An undecided or rejected proposal holds no rows. */
  lemma AcceptanceTellsOneStory(start: System, steps: seq<Step>, id: Id)
    requires Inv(start) && id in After(start, steps).db.proposals
    ensures Consistent(After(start, steps).db, id)
  {
    hide After;
  }

  /** Every refused, failed, waiting or abandoned request leaves the committed tables alone:
      only a commit, or a new proposal of the engine, changes them. */
  lemma OnlyCommitsChangeTables(start: System, steps: seq<Step>, step: Step)
    requires Inv(start)
    ensures Next(After(start, steps), step).db != After(start, steps).db ==> step.Commit? || step.Propose?
  {
    hide After, Inv;
  }

  lemma StepKeepsDecision(sys: System, step: Step, id: Id)
    requires Inv(sys) && LocksExist(sys) && id in sys.db.decisions
    ensures var later := Next(sys, step).db.decisions; id in later && later[id] == sys.db.decisions[id]
  {
    hide Sound, KeysHeldOnce, ProposalClaims, Decidable, Eligible;
  }

  /** A decision is final: nothing that happens later changes or removes it. */
  lemma {:induction false} DecisionsAreFinal(start: System, steps: seq<Step>, n: nat, id: Id)
    requires Inv(start) && n <= |steps| && id in After(start, steps[..n]).db.decisions
    ensures var later := After(start, steps).db.decisions;
            id in later && later[id] == After(start, steps[..n]).db.decisions[id]
    decreases |steps|
  {
    hide Inv, Next, LocksExist;
    if n == |steps| {
      assert steps[..n] == steps;
    } else {
      var front := steps[..|steps| - 1];
      assert front[..n] == steps[..n];
      DecisionsAreFinal(start, front, n, id);
      StepKeepsDecision(After(start, front), steps[|steps| - 1], id);
    }
  }

  /** A decision touches no other proposal: accepting one never accepts or rejects another. */
  lemma DecisionsTouchOneProposal(start: System, steps: seq<Step>, s: Id, other: Id)
    requires Inv(start)
    requires var sys := After(start, steps);
             s in sys.sessions && other in sys.db.proposals && other != sys.sessions[s].request.proposal
    ensures var after := Next(After(start, steps), Commit(s));
            && other in after.db.proposals
            && after.db.proposals[other] == After(start, steps).db.proposals[other]
            && (other in after.db.decisions <==> other in After(start, steps).db.decisions)
            && ClaimsOf(after.db.claims, other) == ClaimsOf(After(start, steps).db.claims, other)
  {
    hide After, Inv, ClaimsOf, ProposalClaims;
    var sys := After(start, steps);
    var request := sys.sessions[s].request;
    ClaimsOfAppended(sys.db.claims, request.proposal, ProposalClaims(BodyOf(sys, s)), other);
  }
}
