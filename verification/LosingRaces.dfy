/** The pre-check of an acceptance is only a courtesy: two requests over a common claim can both
    pass it.  The one that commits second to that claim never accepts anything. */
module LosingRaces {
  import opened ReconciliationModel
  import opened Acceptance
  import opened AcceptanceRaces
  import SoleSuggestions

  lemma AfterThen(start: System, steps: seq<Step>, step: Step)
    requires Inv(start)
    ensures After(start, steps + [step]) == Next(After(start, steps), step)
  {
    hide Inv, Next;
    assert (steps + [step])[..|steps|] == steps;
  }

  // ---------------------------------------------------------------- a race, for any two proposals

  function Both(db: Db, s: Id, a: Session, t: Id, b: Session): System {
    System(db, map[s := a, t := b])
  }

  function Inserted(k: nat): Phase {
    if k == 0 then Checked else Inserting(k)
  }

  /** Nothing stands against the request, as far as the checks before the inserts see. */
  predicate Admissible(db: Db, w: World, r: Request) {
    && r.accept && Loadable(db, r, w.runs)
    && Eligible(db.proposals[r.proposal].body, w, w.runs[db.proposals[r.proposal].run].scope)
    && forall c | c in ProposalClaims(db.proposals[r.proposal].body) :: !Claimed(db.claims, c)
  }

  function Checks(s: Id, a: Request, t: Id, b: Request, w: World): seq<Step> {
    [Load(s, a, w.runs), Load(t, b, w.runs), Check(s, w), Check(t, w)]
  }

  lemma LoadsNext(db: Db, w: World, sessions: map<Id, Session>, s: Id, r: Request)
    requires LocksExist(System(db, sessions)) && s !in sessions && !Locked(System(db, sessions), r.proposal)
    requires Admissible(db, w, r)
    ensures Next(System(db, sessions), Load(s, r, w.runs)) == System(db, sessions[s := Session(r, Loaded)])
  {
    hide Loadable, Eligible, ProposalClaims;
  }

  lemma ChecksNext(sys: System, w: World, s: Id)
    requires LocksExist(sys) && s in sys.sessions && sys.sessions[s].phase == Loaded
    requires Admissible(sys.db, w, sys.sessions[s].request)
    ensures Next(sys, Check(s, w)) == At(sys, s, Checked)
  {
    hide Eligible, ProposalClaims;
  }

  lemma BothPass(start: System, w: World, s: Id, a: Request, t: Id, b: Request)
    requires Inv(start) && start.sessions == map[] && s != t && a.proposal != b.proposal
    requires Admissible(start.db, w, a) && Admissible(start.db, w, b)
    ensures After(start, Checks(s, a, t, b, w)) == Both(start.db, s, Session(a, Checked), t, Session(b, Checked))
  {
    hide Inv, Next, Admissible, ProposalClaims, Eligible;
    var db, steps := start.db, Checks(s, a, t, b, w);
    assert Inv(start) ==> After(start, []) == start;
    AfterThen(start, [], steps[0]);
    AfterThen(start, steps[..1], steps[1]);
    AfterThen(start, steps[..2], steps[2]);
    AfterThen(start, steps[..3], steps[3]);
    assert [] + [steps[0]] == steps[..1] && steps[..1] + [steps[1]] == steps[..2];
    assert steps[..2] + [steps[2]] == steps[..3] && steps[..3] + [steps[3]] == steps;
    LoadsNext(db, w, map[], s, a);
    var one := System(db, map[s := Session(a, Loaded)]);
    assert map[][s := Session(a, Loaded)] == map[s := Session(a, Loaded)];
    LoadsNext(db, w, one.sessions, t, b);
    var both := Both(db, s, Session(a, Loaded), t, Session(b, Loaded));
    assert one.sessions[t := Session(b, Loaded)] == both.sessions;
    ChecksNext(both, w, s);
    assert At(both, s, Checked) == Both(db, s, Session(a, Checked), t, Session(b, Loaded));
    ChecksNext(Both(db, s, Session(a, Checked), t, Session(b, Loaded)), w, t);
  }

  function ClaimsFor(db: Db, r: Request): seq<Claim>
    requires r.proposal in db.proposals
  {
    ProposalClaims(db.proposals[r.proposal].body)
  }

  function Inserts(s: Id, k: nat): (steps: seq<Step>)
    ensures |steps| == k
  {
    if k == 0 then [] else Inserts(s, k - 1) + [InsertNext(s)]
  }

  lemma MoreInserts(steps: seq<Step>, s: Id, k: nat)
    requires k > 0
    ensures steps + Inserts(s, k) == steps + Inserts(s, k - 1) + [InsertNext(s)]
  {
  }

  /** An insert goes through if the next claim is neither committed nor repeated, and nobody
      else has written anything. */
  lemma InsertsNext(sys: System, s: Id, k: nat)
    requires LocksExist(sys) && s in sys.sessions && sys.sessions[s].request.accept
    requires sys.sessions[s].phase == Inserted(k) && k < |ClaimsFor(sys.db, sys.sessions[s].request)|
    requires forall t | t in sys.sessions && t != s :: sys.sessions[t].phase == Checked
    requires var claims := ClaimsFor(sys.db, sys.sessions[s].request);
             Distinct(claims) && !Claimed(sys.db.claims, claims[k])
    ensures Next(sys, InsertNext(s)) == At(sys, s, Inserted(k + 1))
  {
    hide ProposalClaims, Claimed;
    var claims := ClaimsFor(sys.db, sys.sessions[s].request);
    assert InFlight(sys, s) == claims[..k];
    assert forall t | t in sys.sessions && t != s :: InFlight(sys, t) == [];
    assert !HeldByOther(sys, s, claims[k]);
  }

  lemma WinnerInsertsNext(db: Db, s: Id, a: Request, t: Id, b: Session, k: nat)
    requires s != t && b.phase == Checked && a.accept && a.proposal in db.proposals && k < |ClaimsFor(db, a)|
    requires Claimable(db, db.proposals[a.proposal].body)
    requires LocksExist(Both(db, s, Session(a, Inserted(k)), t, b))
    ensures Next(Both(db, s, Session(a, Inserted(k)), t, b), InsertNext(s))
            == Both(db, s, Session(a, Inserted(k + 1)), t, b)
  {
    hide Next, ProposalClaims, Claimed, LocksExist;
    assert ClaimsFor(db, a)[k] in ClaimsFor(db, a);
    InsertsNext(Both(db, s, Session(a, Inserted(k)), t, b), s, k);
  }

  lemma {:induction false} WinnerInserts(start: System, steps: seq<Step>, s: Id, a: Request, t: Id, b: Session, k: nat)
    requires Inv(start) && s != t && b.phase == Checked && a.accept
    requires After(start, steps) == Both(start.db, s, Session(a, Checked), t, b)
    requires a.proposal in start.db.proposals && k <= |ClaimsFor(start.db, a)|
    requires Claimable(start.db, start.db.proposals[a.proposal].body)
    ensures After(start, steps + Inserts(s, k)) == Both(start.db, s, Session(a, Inserted(k)), t, b)
  {
    hide Inv, Next, After, ProposalClaims, Claimable, LocksExist, Both, ClaimsFor;
    if k == 0 {
      assert steps + Inserts(s, k) == steps;
    } else {
      WinnerInserts(start, steps, s, a, t, b, k - 1);
      MoreInserts(steps, s, k);
      AfterThen(start, steps + Inserts(s, k - 1), InsertNext(s));
      WinnerInsertsNext(start.db, s, a, t, b, k - 1);
    }
  }

  lemma CommitsNext(db: Db, s: Id, a: Request, t: Id, b: Session)
    requires s != t && a.accept && a.proposal in db.proposals
    requires LocksExist(Both(db, s, Session(a, Inserted(|ClaimsFor(db, a)|)), t, b))
    ensures Next(Both(db, s, Session(a, Inserted(|ClaimsFor(db, a)|)), t, b), Commit(s))
            == System(Decided(db, a.proposal, true), map[t := b])
  {
    hide ProposalClaims;
    var sys := Both(db, s, Session(a, Inserted(|ClaimsFor(db, a)|)), t, b);
    assert sys.sessions - {s} == map[t := b];
  }

  /** The first claim of the loser that is committed by now. */
  lemma FirstTaken(claims: seq<Claim>, rows: seq<ClaimRow>, c: Claim) returns (k: nat)
    requires c in claims && Claimed(rows, c)
    ensures k < |claims| && Claimed(rows, claims[k]) && forall j | 0 <= j < k :: !Claimed(rows, claims[j])
  {
    hide Claimed;
    k := 0;
    var i :| 0 <= i < |claims| && claims[i] == c;
    while !Claimed(rows, claims[k])
      invariant k <= i && forall j | 0 <= j < k :: !Claimed(rows, claims[j])
      decreases i - k
    {
      k := k + 1;
    }
  }

  lemma {:induction false} LoserInserts(start: System, steps: seq<Step>, db: Db, t: Id, b: Request, k: nat)
    requires Inv(start) && b.accept && b.proposal in db.proposals
    requires After(start, steps) == System(db, map[t := Session(b, Checked)])
    requires k <= |ClaimsFor(db, b)| && Distinct(ClaimsFor(db, b))
    requires forall j | 0 <= j < k :: !Claimed(db.claims, ClaimsFor(db, b)[j])
    ensures After(start, steps + Inserts(t, k)) == System(db, map[t := Session(b, Inserted(k))])
  {
    hide Inv, Next, After, ProposalClaims, Claimed, LocksExist;
    if k == 0 {
      assert steps + Inserts(t, k) == steps;
    } else {
      LoserInserts(start, steps, db, t, b, k - 1);
      MoreInserts(steps, t, k);
      AfterThen(start, steps + Inserts(t, k - 1), InsertNext(t));
      InsertsNext(After(start, steps + Inserts(t, k - 1)), t, k - 1);
    }
  }

  lemma LosesNext(db: Db, t: Id, b: Request, k: nat)
    requires b.accept && b.proposal in db.proposals && k < |ClaimsFor(db, b)|
    requires LocksExist(System(db, map[t := Session(b, Inserted(k))]))
    requires Claimed(db.claims, ClaimsFor(db, b)[k])
    ensures Next(System(db, map[t := Session(b, Inserted(k))]), InsertNext(t)) == System(db, map[])
  {
    hide ProposalClaims, Claimed;
    var sys := System(db, map[t := Session(b, Inserted(k))]);
    assert !HeldByOther(sys, t, ClaimsFor(db, b)[k]);
    assert sys.sessions - {t} == map[];
  }

  lemma WonClaimIsCommitted(db: Db, id: Id, c: Claim)
    requires id in db.proposals && c in ProposalClaims(db.proposals[id].body)
    ensures Claimed(Decided(db, id, true).claims, c)
  {
    hide ProposalClaims;
    var claims := ProposalClaims(db.proposals[id].body);
    var i :| 0 <= i < |claims| && claims[i] == c;
    assert RowsFor(id, claims)[i] in Decided(db, id, true).claims;
  }

  lemma AllowedIsAdmissible(db: Db, w: World, r: Request)
    requires Allowed(db, w, r) && r.accept
    ensures Admissible(db, w, r)
  {
    hide Eligible, ProposalClaims, Decidable;
  }

  /** Take any two acceptances that the service would carry out on their own, of proposals with a
      claim in common.  There is an interleaving in which both pass their pre-checks; the first
      then commits, and the second is thrown out at an insert with the tables as the first left
      them. */
  lemma BothPassAndOneLoses(start: System, w: World, s: Id, a: Request, t: Id, b: Request, c: Claim)
    returns (n: nat, steps: seq<Step>)
    requires Inv(start) && start.sessions == map[] && s != t && a.proposal != b.proposal
    requires a.accept && b.accept && Allowed(start.db, w, a) && Allowed(start.db, w, b)
    requires c in ClaimsFor(start.db, a) && c in ClaimsFor(start.db, b)
    ensures n < |steps| && steps[|steps| - 1] == InsertNext(t)
    ensures After(start, steps[..n]) == Both(start.db, s, Session(a, Checked), t, Session(b, Checked))
    ensures t in After(start, steps[..|steps| - 1]).sessions
    ensures After(start, steps[..|steps| - 1]).db == Decided(start.db, a.proposal, true)
    ensures After(start, steps) == System(Decided(start.db, a.proposal, true), map[])
  {
    hide Inv, Next, After, Admissible, ProposalClaims, Claimed, Eligible, Loadable, Decidable, LocksExist;
    AllowedIsAdmissible(start.db, w, a);
    AllowedIsAdmissible(start.db, w, b);
    var checks := Checks(s, a, t, b, w);
    BothPass(start, w, s, a, t, b);
    var m := |ClaimsFor(start.db, a)|;
    WinnerInserts(start, checks, s, a, t, Session(b, Checked), m);
    var written := checks + Inserts(s, m);
    AfterThen(start, written, Commit(s));
    CommitsNext(start.db, s, a, t, Session(b, Checked));
    var db, won := Decided(start.db, a.proposal, true), written + [Commit(s)];
    WonClaimIsCommitted(start.db, a.proposal, c);
    var k := FirstTaken(ClaimsFor(db, b), db.claims, c);
    LoserInserts(start, won, db, t, b, k);
    var almost := won + Inserts(t, k);
    AfterThen(start, almost, InsertNext(t));
    LosesNext(db, t, b, k);
    n, steps := |checks|, almost + [InsertNext(t)];
    assert steps[..n] == checks && steps[..|steps| - 1] == almost;
  }

  // ---------------------------------------------------------------- two suggestions of one ledger row

  const SCOPE := Scope(1, 1, 0, 9)

  function Pair(): Db {
    Db(map[1 := Proposal(1, Suggested(Some(5), Some(7), true), Pending),
           2 := Proposal(1, Suggested(Some(6), Some(7), true), Pending)], map[], [])
  }

  function PairWorld(): World {
    World(map[5 := SoleSuggestions.Receipt(5), 6 := SoleSuggestions.Receipt(6)],
          map[7 := SoleSuggestions.INCOME], map[1 := Run(SCOPE, true)])
  }

  lemma PairMembersFit(id: Id, bank: Id)
    requires (id == 1 && bank == 5) || (id == 2 && bank == 6)
    ensures Pair().proposals[id].body == Suggested(Some(bank), Some(7), true)
    ensures Eligible(Pair().proposals[id].body, PairWorld(), SCOPE)
    ensures Claimable(Pair(), Pair().proposals[id].body)
    ensures LedgerClaim(MatchSpace, 7) in ProposalClaims(Pair().proposals[id].body)
  {
    var body := Pair().proposals[id].body;
    assert ProposalClaims(body) == [BankClaim(MatchSpace, bank), LedgerClaim(MatchSpace, 7)];
    assert bank in PairWorld().banks && PairWorld().banks[bank] == SoleSuggestions.Receipt(bank);
    assert PairWorld().ledgers[7] == SoleSuggestions.INCOME;
  }

  /** The requirements are met by two sole suggestions that name one ledger row, which a pass
      can write: both acceptances are allowed, both pass, one wins. */
  lemma TwoSuggestionsRace() returns (n: nat, steps: seq<Step>)
    ensures Inv(System(Pair(), map[]))
    ensures var start, a, b := System(Pair(), map[]), Request(1, true, 0), Request(2, true, 0);
            && n < |steps|
            && After(start, steps[..n]) == Both(Pair(), 10, Session(a, Checked), 20, Session(b, Checked))
            && After(start, steps) == System(Decided(Pair(), 1, true), map[])
            && After(start, steps).db.proposals[2].status == Pending
  {
    hide Eligible, Claimable, ProposalClaims, After;
    var start, a, b := System(Pair(), map[]), Request(1, true, 0), Request(2, true, 0);
    PairMembersFit(1, 5);
    PairMembersFit(2, 6);
    assert Allowed(Pair(), PairWorld(), a) && Allowed(Pair(), PairWorld(), b);
    assert Inv(start);
    hide Allowed, Inv;
    n, steps := BothPassAndOneLoses(start, PairWorld(), 10, a, 20, b, LedgerClaim(MatchSpace, 7));
  }

  // ---------------------------------------------------------------- losing is final

  lemma StepKeepsBody(sys: System, step: Step, id: Id)
    requires LocksExist(sys) && id in sys.db.proposals
    ensures id in Next(sys, step).db.proposals
    ensures Next(sys, step).db.proposals[id].body == sys.db.proposals[id].body
  {
    hide ProposalClaims, Claimed, Eligible, Loadable;
  }

  lemma {:induction false} BodiesAreFixed(start: System, steps: seq<Step>, n: nat, id: Id)
    requires Inv(start) && n <= |steps| && id in After(start, steps[..n]).db.proposals
    ensures id in After(start, steps).db.proposals
    ensures After(start, steps).db.proposals[id].body == After(start, steps[..n]).db.proposals[id].body
    decreases |steps|
  {
    hide Inv, Next, LocksExist;
    if n == |steps| {
      assert steps[..n] == steps;
    } else {
      var front := steps[..|steps| - 1];
      assert front[..n] == steps[..n];
      BodiesAreFixed(start, front, n, id);
      StepKeepsBody(After(start, front), steps[|steps| - 1], id);
    }
  }

  lemma AcceptedStaysAccepted(start: System, steps: seq<Step>, n: nat, id: Id)
    requires Inv(start) && n <= |steps| && id in After(start, steps[..n]).db.proposals
    requires After(start, steps[..n]).db.proposals[id].status == Accepted
    ensures id in After(start, steps).db.proposals && After(start, steps).db.proposals[id].status == Accepted
  {
    hide After, LocksHold, KeysHeldOnce, ClaimsOf, ProposalClaims;
    assert Consistent(After(start, steps[..n]).db, id);
    DecisionsAreFinal(start, steps, n, id);
    assert Consistent(After(start, steps).db, id);
  }

  /** `q` is accepted and has a claim that `p` needs. */
  ghost predicate HasLost(db: Db, p: Id, q: Id, c: Claim) {
    && p != q && p in db.proposals && q in db.proposals
    && db.proposals[q].status == Accepted
    && c in ProposalClaims(db.proposals[p].body) && c in ProposalClaims(db.proposals[q].body)
  }

  /** Once a claim of `p` is committed for another proposal, every request to accept `p`, however
      far it has got, has lost: in whatever interleaving follows, `p` is never accepted and holds
      no claim rows, and no session ever comes to the point where it could commit its acceptance. */
  lemma LosersNeverAccept(start: System, steps: seq<Step>, n: nat, p: Id, q: Id, c: Claim, s: Id)
    requires Inv(start) && n <= |steps| && HasLost(After(start, steps[..n]).db, p, q, c)
    ensures var sys := After(start, steps);
            && p in sys.db.proposals && sys.db.proposals[p].status != Accepted
            && ClaimsOf(sys.db.claims, p) == []
            && (s in sys.sessions && sys.sessions[s].request.accept && sys.sessions[s].request.proposal == p ==>
                  !Enabled(sys, Commit(s)))
  {
    hide Inv, After, Next, LocksExist, ProposalClaims, ClaimsOf, Enabled;
    LoserIsNotAccepted(start, steps, n, p, q, c);
    AcceptanceTellsOneStory(start, steps, p);
    var sys := After(start, steps);
    if s in sys.sessions && sys.sessions[s].request.accept && sys.sessions[s].request.proposal == p
       && Enabled(sys, Commit(s)) {
      AfterThen(start, steps, Commit(s));
      CommitAccepts(sys, s);
      assert (steps + [Commit(s)])[..n] == steps[..n];
      LoserIsNotAccepted(start, steps + [Commit(s)], n, p, q, c);
      assert false;
    }
  }

  lemma LoserIsNotAccepted(start: System, steps: seq<Step>, n: nat, p: Id, q: Id, c: Claim)
    requires Inv(start) && n <= |steps| && HasLost(After(start, steps[..n]).db, p, q, c)
    ensures p in After(start, steps).db.proposals && After(start, steps).db.proposals[p].status != Accepted
  {
    hide Inv, After, ProposalClaims;
    BodiesAreFixed(start, steps, n, p);
    BodiesAreFixed(start, steps, n, q);
    AcceptedStaysAccepted(start, steps, n, q);
    if After(start, steps).db.proposals[p].status == Accepted {
      AcceptedProposalsNeverOverlap(start, steps, p, q, c);
    }
  }

  lemma CommitAccepts(sys: System, s: Id)
    requires LocksExist(sys) && s in sys.sessions && sys.sessions[s].request.accept && Enabled(sys, Commit(s))
    ensures var p := sys.sessions[s].request.proposal;
            p in sys.db.proposals && p in Next(sys, Commit(s)).db.proposals
            && Next(sys, Commit(s)).db.proposals[p].status == Accepted
  {
    hide ProposalClaims;
  }
}
