/** Stage 5E: accepting or rejecting one proposal.

    A transaction is claimed once per namespace; the claim rows carry a unique index, so the
    claim itself is the key.  This file has the stored rows, the rules for a decision and the
    service that makes one. */
module Acceptance {
  import opened ReconciliationModel
  import Advanced = AdvancedMatching

  datatype Namespace = MatchSpace | TransferSpace

  /** One row of the claims table without its decision: exactly one of the two sides. */
  datatype Claim =
    | BankClaim(space: Namespace, id: Id)
    | LedgerClaim(space: Namespace, id: Id)

  datatype Body =
    | Suggested(bank: Option<Id>, ledger: Option<Id>, autoTier: bool)
    | Grouped(relationship: Advanced.Relation, members: seq<Member>, currency: Id, fxSource: Id, fxTarget: Id)

  datatype Member = BankMember(id: Id) | LedgerMember(id: Id)

  datatype Status = Pending | Ambiguous | Accepted | Rejected
  datatype Proposal = Proposal(run: Id, body: Body, status: Status)
  datatype ClaimRow = ClaimRow(proposal: Id, claim: Claim)

  /** The committed tables.  `decisions` says for each decided proposal whether it was accepted. */
  datatype Db = Db(proposals: map<Id, Proposal>, decisions: map<Id, bool>, claims: seq<ClaimRow>)

  datatype Run = Run(scope: Scope, completed: bool)

  /** The rest of the database, as a request reads it. */
  datatype World = World(banks: BankTable, ledgers: LedgerTable, runs: map<Id, Run>)

  datatype Request = Request(proposal: Id, accept: bool, reasonLength: nat)

  const MIN_REJECTION_REASON_LENGTH := 10
  const MAX_REASON_LENGTH := 4000

  // ---------------------------------------------------------------- what acceptance claims

  function SpaceOf(body: Body): Namespace {
    if body.Grouped? && body.relationship == Advanced.InternalTransfer then TransferSpace else MatchSpace
  }

  function MemberClaim(space: Namespace, m: Member): Claim {
    match m
    case BankMember(id) => BankClaim(space, id)
    case LedgerMember(id) => LedgerClaim(space, id)
  }

  function ProposalClaims(body: Body): seq<Claim> {
    match body
    case Suggested(bank, ledger, _) =>
      (if bank.Some? then [BankClaim(MatchSpace, bank.value)] else [])
      + (if ledger.Some? then [LedgerClaim(MatchSpace, ledger.value)] else [])
    case Grouped(_, members, _, _, _) =>
      seq(|members|, i requires 0 <= i < |members| => MemberClaim(SpaceOf(body), members[i]))
  }

  function RowsFor(id: Id, claims: seq<Claim>): (rows: seq<ClaimRow>)
    ensures |rows| == |claims| && forall i | 0 <= i < |rows| :: rows[i] == ClaimRow(id, claims[i])
  {
    seq(|claims|, i requires 0 <= i < |claims| => ClaimRow(id, claims[i]))
  }

  /** The two partial unique indexes: one row per claim. */
  ghost predicate Unique(rows: seq<ClaimRow>) {
    forall i, j | 0 <= i < j < |rows| :: rows[i].claim != rows[j].claim
  }

  predicate Claimed(rows: seq<ClaimRow>, c: Claim) {
    exists r | r in rows :: r.claim == c
  }

  // ---------------------------------------------------------------- when a decision is allowed

  predicate HasOtherLiveCandidate(proposals: map<Id, Proposal>, id: Id)
    requires id in proposals && proposals[id].body.Suggested?
  {
    exists k | k in proposals ::
      && k != id
      && proposals[k].body.Suggested? && proposals[k].run == proposals[id].run
      && proposals[k].body.bank == proposals[id].body.bank
      && proposals[k].body.ledger.Some?
      && proposals[k].status in {Pending, Accepted}
  }

  predicate Decidable(proposals: map<Id, Proposal>, id: Id)
    requires id in proposals
  {
    var body := proposals[id].body;
    body.Suggested? ==>
      body.ledger.Some? && body.bank.Some? && !HasOtherLiveCandidate(proposals, id) && body.autoTier
  }

  predicate ReasonFits(r: Request) {
    (r.accept || r.reasonLength >= MIN_REJECTION_REASON_LENGTH) && r.reasonLength <= MAX_REASON_LENGTH
  }

  predicate BankEligible(id: Id, w: World, scope: Scope) {
    id in w.banks && w.banks[id].active && w.banks[id].entity == scope.entity && w.banks[id].account == scope.account
  }

  predicate LedgerEligible(id: Id, w: World, scope: Scope, transfer: bool) {
    && id in w.ledgers && w.ledgers[id].posted && w.ledgers[id].entity == scope.entity
    && (transfer || w.ledgers[id].account == scope.account)
  }

  /** Every row a proposal refers to still exists, is active or posted, and is in scope. */
  predicate MembersEligible(body: Body, w: World, scope: Scope) {
    && (forall c | c in ProposalClaims(body) && c.BankClaim? :: BankEligible(c.id, w, scope))
    && (forall c | c in ProposalClaims(body) && c.LedgerClaim? ::
        LedgerEligible(c.id, w, scope, SpaceOf(body) == TransferSpace))
  }

  /** Currencies still agree with the proposal; a transfer has no currency rule. */
  predicate CurrenciesAgree(body: Body, w: World)
    requires forall c | c in ProposalClaims(body) :: if c.BankClaim? then c.id in w.banks else c.id in w.ledgers
  {
    match body
    case Suggested(bank, ledger, _) =>
      bank.Some? && ledger.Some? ==>
        (assert BankClaim(MatchSpace, bank.value) == ProposalClaims(body)[0]
            && LedgerClaim(MatchSpace, ledger.value) == ProposalClaims(body)[1];
         w.banks[bank.value].currency == w.ledgers[ledger.value].currency)
    case Grouped(relationship, _, currency, fxSource, fxTarget) =>
      relationship != Advanced.InternalTransfer ==>
        forall c | c in ProposalClaims(body) ::
          if c.BankClaim?
          then w.banks[c.id].currency == (if relationship == Advanced.FxMatch then fxSource else currency)
          else w.ledgers[c.id].currency == (if relationship == Advanced.FxMatch then fxTarget else currency)
  }

  predicate Eligible(body: Body, w: World, scope: Scope) {
    MembersEligible(body, w, scope) && CurrenciesAgree(body, w)
  }

  /** Nothing this proposal claims is claimed yet, nor claimed twice by itself. */
  ghost predicate Claimable(db: Db, body: Body) {
    Distinct(ProposalClaims(body)) && forall c | c in ProposalClaims(body) :: !Claimed(db.claims, c)
  }

  ghost predicate Allowed(db: Db, w: World, r: Request) {
    && r.proposal in db.proposals
    && db.proposals[r.proposal].run in w.runs
    && r.proposal !in db.decisions
    && w.runs[db.proposals[r.proposal].run].completed
    && db.proposals[r.proposal].status == Pending
    && Decidable(db.proposals, r.proposal)
    && ReasonFits(r)
    && (r.accept ==>
          && Eligible(db.proposals[r.proposal].body, w, w.runs[db.proposals[r.proposal].run].scope)
          && Claimable(db, db.proposals[r.proposal].body))
  }

  /** The only change a decision makes. */
  function Decided(db: Db, id: Id, accept: bool): Db
    requires id in db.proposals
  {
    Db(db.proposals[id := db.proposals[id].(status := if accept then Accepted else Rejected)],
       db.decisions[id := accept],
       if accept then db.claims + RowsFor(id, ProposalClaims(db.proposals[id].body)) else db.claims)
  }

  datatype Answer = Done | AlreadyDecided | NotFound | Conflict | BadRequest | Unprocessable

  // ---------------------------------------------------------------- the service

  class DecisionService {
    var db: Db
    const w: World

    constructor (db: Db, w: World)
      ensures this.db == db && this.w == w
    {
      this.db, this.w := db, w;
    }

    /** The decision is made exactly when it is allowed; whatever else is answered, nothing
        changes.  Repeating a decision is answered without changing anything. */
    method DecideProposal(r: Request) returns (answer: Answer)
      modifies this`db
      ensures answer == Done <==> Allowed(old(db), w, r)
      ensures db == if answer == Done then Decided(old(db), r.proposal, r.accept) else old(db)
      ensures answer == AlreadyDecided <==>
              r.proposal in db.proposals && db.proposals[r.proposal].run in w.runs
              && r.proposal in old(db).decisions && old(db).decisions[r.proposal] == r.accept
      ensures answer == NotFound <==> r.proposal !in old(db).proposals || old(db).proposals[r.proposal].run !in w.runs
    {
      if r.proposal !in db.proposals || db.proposals[r.proposal].run !in w.runs {
        return NotFound;
      }
      var proposal := db.proposals[r.proposal];
      var run := w.runs[proposal.run];
      if r.proposal in db.decisions {
        return if db.decisions[r.proposal] == r.accept then AlreadyDecided else Conflict;
      }
      if !run.completed {
        return BadRequest;
      }
      if proposal.status != Pending {
        return BadRequest;
      }
      if !Decidable(db.proposals, r.proposal) {
        return BadRequest;
      }
      if (!r.accept && r.reasonLength < MIN_REJECTION_REASON_LENGTH) || r.reasonLength > MAX_REASON_LENGTH {
        return Unprocessable;
      }
      var after := db.claims;
      if r.accept {
        var claims := ProposalClaims(proposal.body);
        var eligible := CheckMembers(claims, run.scope, SpaceOf(proposal.body) == TransferSpace);
        if !eligible || !CurrenciesAgree(proposal.body, w) {
          return Conflict;
        }
        var free := FindNoConflict(claims);
        if !free {
          return Conflict;
        }
        var inserted, rows := InsertClaims(r.proposal, claims);
        if !inserted {
          return Conflict;
        }
        after := rows;
      }
      db := Db(db.proposals[r.proposal := proposal.(status := if r.accept then Accepted else Rejected)],
               db.decisions[r.proposal := r.accept], after);
      answer := Done;
    }

    method CheckMembers(claims: seq<Claim>, scope: Scope, transfer: bool) returns (ok: bool)
      ensures ok <==>
              && (forall c | c in claims && c.BankClaim? :: BankEligible(c.id, w, scope))
              && (forall c | c in claims && c.LedgerClaim? :: LedgerEligible(c.id, w, scope, transfer))
    {
      for i := 0 to |claims|
        invariant forall c | c in claims[..i] && c.BankClaim? :: BankEligible(c.id, w, scope)
      {
        if claims[i].BankClaim? && !BankEligible(claims[i].id, w, scope) {
          assert claims[i] in claims;
          return false;
        }
      }
      for i := 0 to |claims|
        invariant forall c | c in claims[..i] && c.LedgerClaim? :: LedgerEligible(c.id, w, scope, transfer)
      {
        if claims[i].LedgerClaim? && !LedgerEligible(claims[i].id, w, scope, transfer) {
          assert claims[i] in claims;
          return false;
        }
      }
      assert claims[..|claims|] == claims;
      ok := true;
    }

    method FindNoConflict(claims: seq<Claim>) returns (free: bool)
      ensures free <==> forall c | c in claims :: !Claimed(db.claims, c)
    {
      for i := 0 to |claims|
        invariant forall c | c in claims[..i] :: !Claimed(db.claims, c)
      {
        if Claimed(db.claims, claims[i]) {
          assert claims[i] in claims;
          return false;
        }
      }
      assert claims[..|claims|] == claims;
      free := true;
    }

    /** Row by row against the unique indexes; one violation undoes them all. */
    method InsertClaims(id: Id, claims: seq<Claim>) returns (inserted: bool, rows: seq<ClaimRow>)
      ensures inserted <==> Distinct(claims) && forall c | c in claims :: !Claimed(db.claims, c)
      ensures rows == if inserted then db.claims + RowsFor(id, claims) else db.claims
    {
      rows := db.claims;
      for i := 0 to |claims|
        invariant rows == db.claims + RowsFor(id, claims[..i])
        invariant forall j | 0 <= j < i :: !Claimed(db.claims, claims[j])
        invariant forall j, k | 0 <= j < k < i :: claims[j] != claims[k]
      {
        if Claimed(rows, claims[i]) {
          assert claims[i] in claims;
          return false, db.claims;
        }
        rows := rows + [ClaimRow(id, claims[i])];
        assert RowsFor(id, claims[..i + 1]) == RowsFor(id, claims[..i]) + [ClaimRow(id, claims[i])];
      }
      assert claims[..|claims|] == claims;
      inserted := true;
    }
  }
}
