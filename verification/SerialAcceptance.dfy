/** The step-by-step protocol, run by one request alone, is the decision service: what the
    service proves about a decision carries over to the concurrent system. */
module SerialAcceptance {
  import opened ReconciliationModel
  import opened Acceptance
  import opened AcceptanceRaces

  /** No open transaction but, at most, that of `s`. */
  function Alone(db: Db, s: Id, r: Request, phase: Phase): System {
    System(db, map[s := Session(r, phase)])
  }

  function Quiet(db: Db): System {
    System(db, map[])
  }

  function AfterInserts(phase: nat): Phase {
    if phase == 0 then Checked else Inserting(phase)
  }

  /** Where `k` inserts of a request alone lead: on, or nowhere after a repeated claim. */
  ghost function Inserted(db: Db, s: Id, r: Request, claims: seq<Claim>, k: nat): System
    requires k <= |claims|
  {
    if Distinct(claims[..k]) then Alone(db, s, r, AfterInserts(k)) else Quiet(db)
  }

  lemma OneInsertAlone(db: Db, s: Id, r: Request, k: nat)
    requires r.accept && r.proposal in db.proposals
    requires var claims := ProposalClaims(db.proposals[r.proposal].body);
             k < |claims| && forall c | c in claims :: !Claimed(db.claims, c)
    ensures var claims := ProposalClaims(db.proposals[r.proposal].body);
            && LocksExist(Inserted(db, s, r, claims, k))
            && Next(Inserted(db, s, r, claims, k), InsertNext(s)) == Inserted(db, s, r, claims, k + 1)
  {
    hide ProposalClaims;
    var claims := ProposalClaims(db.proposals[r.proposal].body);
    if Distinct(claims[..k]) {
      var sys := Alone(db, s, r, AfterInserts(k));
      assert InFlight(sys, s) == claims[..k];
      assert !HeldByOther(sys, s, claims[k]);
      assert Enabled(sys, InsertNext(s));
      assert claims[k] in claims;
      assert Dropped(sys, s) == Quiet(db);
      assert At(sys, s, Inserting(k + 1)) == Alone(db, s, r, AfterInserts(k + 1));
    }
  }

  /** The system after the lock, the checks and the first `k` inserts of a request alone. */
  ghost function Progressed(db: Db, w: World, s: Id, r: Request, k: nat): (sys: System)
    requires r.proposal in db.proposals && k <= |ProposalClaims(db.proposals[r.proposal].body)|
    ensures LocksExist(sys)
  {
    if k == 0 then
      var locked := Next(Quiet(db), Load(s, r, w.runs));
      assert LocksExist(locked);
      Next(locked, Check(s, w))
    else
      Next(Progressed(db, w, s, r, k - 1), InsertNext(s))
  }

  /** Everything but the uniqueness of the proposal's own claims. */
  ghost predicate Admitted(db: Db, w: World, r: Request) {
    && Loadable(db, r, w.runs)
    && (r.accept ==> Eligible(db.proposals[r.proposal].body, w, w.runs[db.proposals[r.proposal].run].scope)
                     && forall c | c in ProposalClaims(db.proposals[r.proposal].body) :: !Claimed(db.claims, c))
  }

  lemma LockedAndChecked(db: Db, w: World, s: Id, r: Request)
    requires r.proposal in db.proposals
    ensures Progressed(db, w, s, r, 0) == if Admitted(db, w, r) then Alone(db, s, r, Checked) else Quiet(db)
  {
    hide ProposalClaims, Eligible, Decidable;
    var locked := Next(Quiet(db), Load(s, r, w.runs));
    if Loadable(db, r, w.runs) {
      assert locked == Alone(db, s, r, Loaded);
      assert Dropped(locked, s) == Quiet(db);
      assert At(locked, s, Checked) == Alone(db, s, r, Checked);
    } else {
      assert locked == Quiet(db);
    }
  }

  lemma {:induction false} InsertsAlone(db: Db, w: World, s: Id, r: Request, k: nat)
    requires r.proposal in db.proposals && k <= |ProposalClaims(db.proposals[r.proposal].body)|
    ensures Progressed(db, w, s, r, k) ==
            if !Admitted(db, w, r) then Quiet(db)
            else if r.accept then Inserted(db, s, r, ProposalClaims(db.proposals[r.proposal].body), k)
            else Alone(db, s, r, Checked)
  {
    hide ProposalClaims, Loadable, Eligible;
    if k == 0 {
      LockedAndChecked(db, w, s, r);
    } else {
      InsertsAlone(db, w, s, r, k - 1);
      if Admitted(db, w, r) && r.accept {
        OneInsertAlone(db, s, r, k - 1);
      }
    }
  }

  /** A request that runs alone decides exactly when the service would, with the same result. */
  lemma AloneItIsTheService(db: Db, w: World, s: Id, r: Request)
    requires r.proposal in db.proposals
    ensures var n := |ProposalClaims(db.proposals[r.proposal].body)|;
            Next(Progressed(db, w, s, r, n), Commit(s))
            == Quiet(if Allowed(db, w, r) then Decided(db, r.proposal, r.accept) else db)
  {
    hide Eligible, ProposalClaims, Decidable;
    var claims := ProposalClaims(db.proposals[r.proposal].body);
    InsertsAlone(db, w, s, r, |claims|);
    assert claims[..|claims|] == claims;
    var sys := Progressed(db, w, s, r, |claims|);
    assert s in sys.sessions ==>
        Dropped(sys.(db := Decided(db, r.proposal, r.accept)), s) == Quiet(Decided(db, r.proposal, r.accept));
  }
}
